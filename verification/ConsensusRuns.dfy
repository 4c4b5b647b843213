/** Whole runs of a consensus cluster over a mesh that may lose, repeat and reorder packets. */
module ConsensusRuns {
  import opened Common
  import opened Consensus

  /**
   How the mesh hands out samples published under `consensus/<target>`.
   `Wildcard` is what the engine subscribes to: every scheduler receives every sample but
   its own.  `Addressed` is a subscription to the broadcast key and the scheduler's own key.
   */
  datatype Routing = Wildcard | Addressed

  datatype Cluster = Cluster(ids: set<Id>, routing: Routing) {
    /** Membership is fixed and every scheduler has at least one peer. */
    ghost predicate Valid() { |ids| >= 2 }

    function Peers(i: Id): set<Id> { ids - {i} }

    predicate Accepts(i: Id, p: Packet) {
      p.msg.sender != i && (routing == Wildcard || p.to == None || p.to == Some(i))
    }
  }

  /** `net` holds every packet ever published: delivering twice, late or never is free. */
  datatype World = World(servers: map<Id, Server>, net: set<Packet>)

  datatype Event =
    | ElectionTimeout(id: Id)
    | HeartbeatTick(id: Id)
    | ClientProposal(id: Id, action: string, data: string)
    | Deliver(id: Id, packet: Packet)
    | Restart(id: Id)  // a new process: term, vote and log live in memory only

  function InitWorld(c: Cluster): World {
    World(map i | i in c.ids :: FRESH, {})
  }

  function React(c: Cluster, w: World, e: Event): Effect
    requires e.id in w.servers
  {
    var s := w.servers[e.id];
    match e
    case ElectionTimeout(i) => OnTimeout(i, s)
    case HeartbeatTick(i) => OnHeartbeatTick(i, s)
    case ClientProposal(i, action, data) => OnClientProposal(i, s, action, data)
    case Restart(_) => Effect(FRESH, [])
    case Deliver(i, p) =>
      if p in w.net && c.Accepts(i, p) then Handle(i, c.Peers(i), s, p.msg) else Effect(s, [])
  }

  function Commit(w: World, i: Id, eff: Effect): World {
    World(w.servers[i := eff.server], w.net + set p | p in eff.out)
  }

  function Step(c: Cluster, w: World, e: Event): World {
    if e.id in w.servers then Commit(w, e.id, React(c, w, e)) else w
  }

  function Run(c: Cluster, es: seq<Event>): World {
    if es == [] then InitWorld(c)
    else Step(c, Run(c, es[..|es| - 1]), es[|es| - 1])
  }

  function RestartOf(e: Event): set<Id> { if e.Restart? then {e.id} else {} }

  /** The schedulers that restarted from the `n`-th event on. */
  function Restarted(es: seq<Event>, n: nat): set<Id> {
    set k | n <= k < |es| && es[k].Restart? :: es[k].id
  }

  lemma {:induction false} RestartedSnoc(es: seq<Event>, e: Event, n: nat)
    requires n <= |es|
    ensures Restarted(es + [e], n) == Restarted(es, n) + RestartOf(e)
  {
    var more := es + [e];
    assert more[|es|] == e;
    forall i | i in Restarted(es, n) ensures i in Restarted(more, n) {
      var k :| n <= k < |es| && es[k].Restart? && es[k].id == i;
      assert more[k] == es[k];
    }
  }

  lemma {:induction false} RunSnoc(c: Cluster, es: seq<Event>, e: Event)
    ensures Run(c, es + [e]) == Step(c, Run(c, es), e)
    ensures Restarted(es + [e], 0) == Restarted(es, 0) + RestartOf(e)
  {
    assert (es + [e])[..|es|] == es;
    RestartedSnoc(es, e, 0);
  }

  predicate LeadsIn(w: World, i: Id, t: nat) {
    i in w.servers && w.servers[i].role == Leader && w.servers[i].term == t
  }

  /** `a` leads `t` after `n` events of the run, `b` at its end. */
  ghost predicate BothLead(c: Cluster, es: seq<Event>, n: nat, a: Id, b: Id, t: nat) {
    n <= |es| && LeadsIn(Run(c, es[..n]), a, t) && LeadsIn(Run(c, es), b, t)
  }

  /** While at most `k` schedulers restart, no term has two leaders, at one moment or at two. */
  ghost predicate ElectionSafe(c: Cluster, k: nat) {
    forall es, n, a, b, t :: BothLead(c, es, n, a, b, t) && |Restarted(es, 0)| <= k ==> a == b
  }

  predicate SameTermLogs(p: Packet, q: Packet) {
    p.msg.AppendEntries? && q.msg.AppendEntries? && p.msg.term == q.msg.term
  }

  predicate Comparable(p: Packet, q: Packet)
    requires p.msg.AppendEntries? && q.msg.AppendEntries?
  {
    p.msg.sender == q.msg.sender && (p.msg.entries <= q.msg.entries || q.msg.entries <= p.msg.entries)
  }

  /** While at most `k` schedulers restart, any two AppendEntries of one term come from one leader, and one log
      extends the other. */
  ghost predicate LogsComparable(c: Cluster, k: nat) {
    forall es, p, q :: |Restarted(es, 0)| <= k && p in Run(c, es).net && q in Run(c, es).net && SameTermLogs(p, q)
      ==> Comparable(p, q)
  }

  /** While at most `k` schedulers restart, none changes its vote within a term. */
  ghost predicate OneVotePerTerm(c: Cluster, k: nat) {
    forall es: seq<Event>, n: nat, i: Id, x: Id, y: Id ::
      VotesTwice(c, es, n, i, x, y) ==> |Restarted(es, 0)| > k
  }

  ghost predicate VotesTwice(c: Cluster, es: seq<Event>, n: nat, i: Id, x: Id, y: Id) {
    && n <= |es| && x != y && i in Run(c, es[..n]).servers && i in Run(c, es).servers
    && Run(c, es[..n]).servers[i].term == Run(c, es).servers[i].term
    && Run(c, es[..n]).servers[i].votedFor == Some(x)
    && Run(c, es).servers[i].votedFor == Some(y)
  }
}
