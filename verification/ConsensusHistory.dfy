/**
 What every field of a scheduler is, told from the events alone.  Roles and terms are read off the
 run; everything else is the last thing that happened to it.
 */
module ConsensusHistory {
  import opened Common
  import opened Consensus
  import opened ConsensusRuns
  import opened ConsensusSafety

  /** Event `e` hands packet `p` to scheduler `i`. */
  predicate Arrives(c: Cluster, w: World, e: Event, i: Id, p: Packet) {
    e == Deliver(i, p) && p in w.net && c.Accepts(i, p)
  }

  /** An AppendEntries that is not out of date. */
  predicate Copies(c: Cluster, w: World, e: Event, i: Id) {
    e.Deliver? && i in w.servers && Arrives(c, w, e, i, e.packet) && e.packet.msg.AppendEntries?
    && e.packet.msg.term >= w.servers[i].term
  }

  predicate Leads(w: World, i: Id) {
    i in w.servers && w.servers[i].role == Leader
  }

  predicate Wins(w: World, w': World, i: Id) {
    !Leads(w, i) && Leads(w', i)
  }

  /** A leader is handed a proposal, by its own caller or by another scheduler. */
  predicate Extends(c: Cluster, w: World, e: Event, i: Id) {
    Leads(w, i) && e.id == i &&
    (e.ClientProposal? || (e.Deliver? && Arrives(c, w, e, i, e.packet) && e.packet.msg.Propose?))
  }

  function ProposedAction(e: Event): (string, string)
    requires e.ClientProposal? || (e.Deliver? && e.packet.msg.Propose?)
  {
    if e.ClientProposal? then (e.action, e.data) else (e.packet.msg.action, e.packet.msg.data)
  }

  // ---- terms ----

  /** Votes and proposals do not raise a term; ballots, logs and their acknowledgements do. */
  predicate Raises(c: Cluster, w: World, e: Event, i: Id) {
    && e.Deliver? && i in w.servers && Arrives(c, w, e, i, e.packet)
    && (e.packet.msg.RequestVote? || e.packet.msg.AppendEntries? || e.packet.msg.AppendResponse?)
    && e.packet.msg.term > w.servers[i].term
  }

  /** A term changes by a restart, by standing for election, or to a higher one heard of. */
  lemma {:induction false} TermAfter(c: Cluster, w: World, e: Event, i: Id)
    requires i in w.servers
    ensures Step(c, w, e).servers[i].term ==
      if e == Restart(i) then 0
      else if e == ElectionTimeout(i) && !Leads(w, i) then w.servers[i].term + 1
      else if Raises(c, w, e, i) then e.packet.msg.term
      else w.servers[i].term
  {
  }

  // ---- logs ----

  /** Empty at first and after a restart; a copy of what a leader sent; with the proposals it took as leader. */
  function LogOf(c: Cluster, es: seq<Event>, i: Id): seq<Entry> {
    if es == [] then []
    else
      var init, e := es[..|es| - 1], es[|es| - 1];
      var w := Run(c, init);
      if e == Restart(i) then []
      else if Copies(c, w, e, i) then e.packet.msg.entries
      else if Extends(c, w, e, i) then
        LogOf(c, init, i) + [Entry(w.servers[i].term, ProposedAction(e).0, ProposedAction(e).1)]
      else LogOf(c, init, i)
  }

  lemma {:induction false} LogAfter(c: Cluster, w: World, e: Event, i: Id)
    requires i in w.servers
    ensures Step(c, w, e).servers[i].log ==
      if e == Restart(i) then []
      else if Copies(c, w, e, i) then e.packet.msg.entries
      else if Extends(c, w, e, i) then
        w.servers[i].log + [Entry(w.servers[i].term, ProposedAction(e).0, ProposedAction(e).1)]
      else w.servers[i].log
  {
  }

  /** In every run, every scheduler's log is that. */
  lemma {:induction false} LogIsHistory(c: Cluster, es: seq<Event>, i: Id)
    requires i in c.ids
    ensures i in Run(c, es).servers && Run(c, es).servers[i].log == LogOf(c, es, i)
  {
    RunHasMembers(c, es);
    if es != [] {
      LogIsHistory(c, es[..|es| - 1], i);
      LogAfter(c, Run(c, es[..|es| - 1]), es[|es| - 1], i);
    }
  }

  /** The last AppendEntries `i` took since it restarted, if it has not won an election since. */
  function LastCopy(c: Cluster, es: seq<Event>, i: Id): Option<Packet> {
    if es == [] then None
    else
      var init, e := es[..|es| - 1], es[|es| - 1];
      if e == Restart(i) || Wins(Run(c, init), Run(c, es), i) then None
      else if Copies(c, Run(c, init), e, i) then Some(e.packet)
      else LastCopy(c, init, i)
  }

  lemma {:induction false} OnlyWinnersLead(c: Cluster, w: World, e: Event, i: Id)
    requires i in w.servers && !Wins(w, Step(c, w, e), i) && !Leads(w, i)
    ensures !Leads(Step(c, w, e), i)
  {
  }

  /** A scheduler that has not led since holds exactly the log it was last sent. */
  lemma {:induction false} FollowerHoldsCopy(c: Cluster, es: seq<Event>, i: Id)
    requires i in c.ids && LastCopy(c, es, i).Some?
    ensures i in Run(c, es).servers && LastCopy(c, es, i).value.msg.AppendEntries?
    ensures Run(c, es).servers[i].log == LastCopy(c, es, i).value.msg.entries && !Leads(Run(c, es), i)
  {
    RunHasMembers(c, es);
    var init, e := es[..|es| - 1], es[|es| - 1];
    RunHasMembers(c, init);
    var w := Run(c, init);
    LogAfter(c, w, e, i);
    if Copies(c, w, e, i) {
      StepsDown(c, w, e, i);
    } else {
      FollowerHoldsCopy(c, init, i);
      OnlyWinnersLead(c, w, e, i);
    }
  }

  // ---- acknowledgements ----

  /** An AppendEntries from `leader` in term `t` with `n` entries. */
  ghost predicate Sent(net: set<Packet>, leader: Id, t: nat, n: int) {
    exists p :: p in net && p.msg.AppendEntries? && p.msg.sender == leader && p.msg.term == t && |p.msg.entries| == n
  }

  ghost predicate Backed(net: set<Packet>, q: Packet) {
    q.msg.AppendResponse? && q.msg.success ==>
      q.to.Some? && Sent(net, q.to.value, q.msg.term, q.msg.matchIndex + 1)
  }

  lemma {:induction false} NewAckIsBacked(c: Cluster, w: World, e: Event, q: Packet)
    requires e.id in w.servers && q in React(c, w, e).out && q.msg.AppendResponse? && q.msg.success
    ensures Copies(c, w, e, e.id)
    ensures var m := e.packet.msg;
      q == Packet(Some(m.sender), AppendResponse(e.id, m.term, true, |m.entries| - 1))
  {
  }

  /** Every successful acknowledgement answers an AppendEntries of its term with just that many entries. */
  lemma {:induction false} AcksAreBacked(c: Cluster, es: seq<Event>, q: Packet)
    requires q in Run(c, es).net
    ensures Backed(Run(c, es).net, q)
  {
    if es != [] && q.msg.AppendResponse? && q.msg.success {
      var init, e := es[..|es| - 1], es[|es| - 1];
      var w := Run(c, init);
      if q in w.net {
        AcksAreBacked(c, init, q);
        var p :| p in w.net && p.msg.AppendEntries? && p.msg.sender == q.to.value && p.msg.term == q.msg.term
                && |p.msg.entries| == q.msg.matchIndex + 1;
        assert p in Run(c, es).net;
      } else {
        NewAckIsBacked(c, w, e, q);
        assert e.packet in Run(c, es).net;
      }
    }
  }

  /** Each AppendEntries is answered: taken with the length it brought, or refused by a later term. */
  lemma {:induction false} LogIsAnswered(c: Cluster, w: World, i: Id, p: Packet)
    requires i in w.servers && Arrives(c, w, Deliver(i, p), i, p) && p.msg.AppendEntries?
    ensures React(c, w, Deliver(i, p)).out == [Packet(Some(p.msg.sender),
      if p.msg.term >= w.servers[i].term then AppendResponse(i, p.msg.term, true, |p.msg.entries| - 1)
      else AppendResponse(i, w.servers[i].term, false, |w.servers[i].log| - 1))]
  {
  }

  // ---- votes ----

  /** The log a ballot describes ends in an earlier term than `log`, or in the same one further back. */
  predicate Behind(m: Message, log: seq<Entry>)
    requires m.RequestVote?
  {
    var last := if log == [] then 0 else log[|log| - 1].term;
    m.lastLogTerm < last || (m.lastLogTerm == last && m.lastLogIndex + 1 < |log|)
  }

  /** Free to vote for this candidate: in a new term, or not promised to anybody else. */
  predicate Free(s: Server, m: Message)
    requires m.RequestVote?
  {
    m.term > s.term || (m.term == s.term && s.votedFor in {None, Some(m.sender)})
  }

  /** A ballot is granted exactly when the voter is free and the candidate's log is not behind its own. */
  lemma {:induction false} GrantedIff(c: Cluster, w: World, i: Id, p: Packet)
    requires i in w.servers && Arrives(c, w, Deliver(i, p), i, p) && p.msg.RequestVote?
    ensures var s, s' := w.servers[i], Step(c, w, Deliver(i, p)).servers[i];
      var granted := Free(s, p.msg) && !Behind(p.msg, s.log);
      && React(c, w, Deliver(i, p)).out == [Packet(Some(p.msg.sender), VoteResponse(i, s'.term, granted))]
      && s'.votedFor == (if granted then Some(p.msg.sender) else if p.msg.term > s.term then None else s.votedFor)
      && s'.role == (if p.msg.term > s.term then Follower else s.role)
  {
  }

  ghost predicate Asked(net: set<Packet>, candidate: Id, t: nat) {
    exists p :: p in net && p.msg.RequestVote? && p.msg.sender == candidate && p.msg.term == t
  }

  lemma {:induction false} NewGrantIsAsked(c: Cluster, w: World, e: Event, q: Packet)
    requires e.id in w.servers && q in React(c, w, e).out && IsGrant(q)
    ensures e.Deliver? && Arrives(c, w, e, e.id, e.packet) && e.packet.msg.RequestVote?
    ensures q.to == Some(e.packet.msg.sender) && q.msg.term == e.packet.msg.term
  {
  }

  /** Nobody is given a vote it has not asked for in that term. */
  lemma {:induction false} GrantsWereAsked(c: Cluster, es: seq<Event>, q: Packet)
    requires q in Run(c, es).net && IsGrant(q)
    ensures q.to.Some? && Asked(Run(c, es).net, q.to.value, q.msg.term)
  {
    if es != [] {
      var init, e := es[..|es| - 1], es[|es| - 1];
      var w := Run(c, init);
      if q in w.net {
        GrantsWereAsked(c, init, q);
        var p :| p in w.net && p.msg.RequestVote? && p.msg.sender == q.to.value && p.msg.term == q.msg.term;
        assert p in Run(c, es).net;
      } else {
        NewGrantIsAsked(c, w, e, q);
        assert e.packet in Run(c, es).net;
      }
    }
  }

  /** Away from ballots, a vote is lost to a later term or to a leader met on the way, and cast only for oneself. */
  lemma {:induction false} VoteAfter(c: Cluster, w: World, e: Event, i: Id)
    requires i in w.servers && !(e.Deliver? && e.id == i && e.packet.msg.RequestVote?)
    ensures var s, s' := w.servers[i], Step(c, w, e).servers[i];
      s'.votedFor ==
        if e == ElectionTimeout(i) && s.role != Leader then Some(i)
        else if e == Restart(i) || Raises(c, w, e, i) || (Copies(c, w, e, i) && s.role != Follower) then None
        else s.votedFor
  {
  }

  /** A granted vote of the candidate's own term, as it reaches the candidate. */
  predicate Counts(c: Cluster, w: World, e: Event, i: Id) {
    && e.Deliver? && i in w.servers && Arrives(c, w, e, i, e.packet) && IsGrant(e.packet)
    && w.servers[i].role == Candidate && e.packet.msg.term == w.servers[i].term
  }

  /** A candidate wins exactly by the vote that makes more than half of the cluster, and says so at once. */
  lemma {:induction false} WinsIff(c: Cluster, w: World, e: Event, i: Id)
    requires w.servers.Keys == c.ids && i in c.ids
    ensures var s, s' := w.servers[i], Step(c, w, e).servers[i];
      && (Counts(c, w, e, i) ==> s'.votes == s.votes + {e.packet.msg.sender})
      && (Wins(w, Step(c, w, e), i) <==> Counts(c, w, e, i) && 2 * |s.votes + {e.packet.msg.sender}| > |c.ids|)
      && (Wins(w, Step(c, w, e), i) ==>
            Packet(None, AppendEntries(i, s.term, s.log, s.commitIndex)) in React(c, w, e).out)
  {
    assert |c.Peers(i)| == |c.ids| - 1;
  }

  /** A higher term makes a follower of anybody; a log of one's own term makes one of a candidate. */
  lemma {:induction false} StepsDown(c: Cluster, w: World, e: Event, i: Id)
    requires i in w.servers && (Raises(c, w, e, i) || Copies(c, w, e, i))
    ensures Step(c, w, e).servers[i].role == Follower
  {
  }

  /** A scheduler that stands asks everybody, describing the end of its own log. */
  lemma {:induction false} StandingAsks(c: Cluster, w: World, i: Id)
    requires i in w.servers && !Leads(w, i)
    ensures var s, s' := w.servers[i], Step(c, w, ElectionTimeout(i)).servers[i];
      && React(c, w, ElectionTimeout(i)).out == [Packet(None, RequestVote(i, s.term + 1, |s.log| - 1,
           if s.log == [] then 0 else s.log[|s.log| - 1].term))]
      && s'.role == Candidate && s'.votedFor == Some(i) && s'.votes == {i}
  {
  }

  /** Its own ballot is never behind its own log, so an equal log can always vote for it. */
  lemma {:induction false} EqualLogsMayVote(c: Cluster, w: World, i: Id, j: Id, p: Packet)
    requires i in w.servers && j in w.servers && !Leads(w, i) && w.servers[i].log == w.servers[j].log
    requires p in React(c, w, ElectionTimeout(i)).out
    ensures p.msg.RequestVote? && !Behind(p.msg, w.servers[j].log)
  {
  }

  // ---- acknowledged positions and the commit index ----

  predicate Acks(c: Cluster, w: World, e: Event, i: Id) {
    && e.Deliver? && Leads(w, i) && Arrives(c, w, e, i, e.packet) && e.packet.msg.AppendResponse?
    && e.packet.msg.success && e.packet.msg.term == w.servers[i].term
  }

  /** The position `peer` last acknowledged to leader `i` since its election. */
  function AckOf(c: Cluster, es: seq<Event>, i: Id, peer: Id): int {
    if es == [] then -1
    else
      var init, e := es[..|es| - 1], es[|es| - 1];
      if Wins(Run(c, init), Run(c, es), i) then -1
      else if Acks(c, Run(c, init), e, i) && e.packet.msg.sender == peer then e.packet.msg.matchIndex
      else AckOf(c, init, i, peer)
  }

  ghost predicate FromMembers(c: Cluster, w: World) {
    && (forall p :: p in w.net ==> p.msg.sender in c.ids)
    && (forall i :: i in w.servers ==> w.servers[i].matchIndex.Keys <= c.Peers(i))
  }

  lemma {:induction false} StepFromMembers(c: Cluster, w: World, e: Event)
    requires w.servers.Keys == c.ids && FromMembers(c, w)
    ensures FromMembers(c, Step(c, w, e))
  {
    if e.id in c.ids {
      SendsAsItself(c, w, e);
      KeepsPeers(c, w, e);
    }
  }

  lemma {:induction false} SendsAsItself(c: Cluster, w: World, e: Event)
    requires e.id in w.servers
    ensures forall p :: p in React(c, w, e).out ==> p.msg.sender == e.id
  {
  }

  lemma {:induction false} KeepsPeers(c: Cluster, w: World, e: Event)
    requires w.servers.Keys == c.ids && FromMembers(c, w) && e.id in c.ids
    ensures React(c, w, e).server.matchIndex.Keys <= c.Peers(e.id)
  {
  }

  lemma {:induction false} RunFromMembers(c: Cluster, es: seq<Event>)
    ensures FromMembers(c, Run(c, es))
  {
    if es != [] {
      RunHasMembers(c, es[..|es| - 1]);
      RunFromMembers(c, es[..|es| - 1]);
      StepFromMembers(c, Run(c, es[..|es| - 1]), es[|es| - 1]);
    }
  }

  lemma {:induction false} AckAfter(c: Cluster, w: World, e: Event, i: Id, peer: Id)
    requires w.servers.Keys == c.ids && FromMembers(c, w) && Leads(Step(c, w, e), i) && peer in c.Peers(i)
    requires Leads(w, i) ==> peer in w.servers[i].matchIndex
    ensures i in w.servers && peer in Step(c, w, e).servers[i].matchIndex
    ensures Step(c, w, e).servers[i].matchIndex[peer] ==
      if Wins(w, Step(c, w, e), i) then -1
      else if Acks(c, w, e, i) && e.packet.msg.sender == peer then e.packet.msg.matchIndex
      else w.servers[i].matchIndex[peer]
  {
  }

  /** A leader's record of each peer is the peer's last acknowledgement since the election. */
  lemma {:induction false} AcksAreRecorded(c: Cluster, es: seq<Event>, i: Id, peer: Id)
    requires Leads(Run(c, es), i) && i in c.ids && peer in c.Peers(i)
    ensures peer in Run(c, es).servers[i].matchIndex && Run(c, es).servers[i].matchIndex[peer] == AckOf(c, es, i, peer)
  {
    if es != [] {
      var init, e := es[..|es| - 1], es[|es| - 1];
      var w := Run(c, init);
      RunHasMembers(c, init);
      RunFromMembers(c, init);
      if Leads(w, i) { AcksAreRecorded(c, init, i, peer); }
      AckAfter(c, w, e, i, peer);
    }
  }

  /** Schedulers known to leader `i` to hold position `k`: itself and whoever acknowledged that far. */
  ghost function Holders(c: Cluster, es: seq<Event>, i: Id, k: int): set<Id> {
    {i} + set p | p in c.Peers(i) && AckOf(c, es, i, p) >= k
  }

  /** The commit index moves by a restart, by a leader's word, or by an acknowledgement; by nothing else. */
  lemma {:induction false} CommitAfter(c: Cluster, w: World, e: Event, i: Id)
    requires i in w.servers && !Acks(c, w, e, i)
    ensures Step(c, w, e).servers[i].commitIndex ==
      if e == Restart(i) then -1
      else if Copies(c, w, e, i) && e.packet.msg.leaderCommit > w.servers[i].commitIndex then e.packet.msg.leaderCommit
      else w.servers[i].commitIndex
  {
  }

  lemma {:induction false} AckCommits(c: Cluster, w: World, e: Event, i: Id)
    requires i in w.servers && Acks(c, w, e, i)
    ensures var s, s' := w.servers[i], Step(c, w, e).servers[i];
      && (s'.commitIndex == s.commitIndex ||
          (s.commitIndex < s'.commitIndex < |s.log| &&
           Replicas(s'.matchIndex, s'.commitIndex) >= Quorum(c.Peers(i))))
      && (forall k :: s.commitIndex < k < |s.log| && s'.commitIndex < k ==>
            Replicas(s'.matchIndex, k) < Quorum(c.Peers(i)))
      && s'.role == Leader && s'.log == s.log
  {
  }

  lemma {:induction false} ReplicasAreHolders(c: Cluster, es: seq<Event>, i: Id, k: int)
    requires Leads(Run(c, es), i) && i in c.ids
    ensures Replicas(Run(c, es).servers[i].matchIndex, k) == |Holders(c, es, i, k)|
  {
    var m := Run(c, es).servers[i].matchIndex;
    RunFromMembers(c, es);
    forall p | p in c.Peers(i) ensures p in m && m[p] == AckOf(c, es, i, p) { AcksAreRecorded(c, es, i, p); }
    var far := set p | p in m && m[p] >= k;
    assert far == set p | p in c.Peers(i) && AckOf(c, es, i, p) >= k;
    assert Holders(c, es, i, k) == {i} + far && i !in far;
  }

  /** An acknowledgement commits the furthest position that more than half the cluster is known to hold. */
  lemma {:induction false} CommitIsMajority(c: Cluster, es: seq<Event>, e: Event, i: Id)
    requires i in c.ids && Acks(c, Run(c, es), e, i)
    ensures var all := es + [e];
      var s, s' := Run(c, es).servers[i], Run(c, all).servers[i];
      && (s'.commitIndex == s.commitIndex ||
          (s.commitIndex < s'.commitIndex < |s.log| && 2 * |Holders(c, all, i, s'.commitIndex)| > |c.ids|))
      && (forall k :: s.commitIndex < k < |s.log| && s'.commitIndex < k ==> 2 * |Holders(c, all, i, k)| <= |c.ids|)
  {
    var all := es + [e];
    RunHasMembers(c, es);
    RunSnoc(c, es, e);
    AckCommits(c, Run(c, es), e, i);
    assert |c.Peers(i)| == |c.ids| - 1;
    forall k { ReplicasAreHolders(c, all, i, k); }
  }

  // ---- who is thought to lead ----

  /** Itself when it has won, else the sender of the last log it took, until it hears of a later term elsewhere. */
  function LeaderOf(c: Cluster, es: seq<Event>, i: Id): Option<Id> {
    if es == [] then None
    else
      var init, e := es[..|es| - 1], es[|es| - 1];
      var w := Run(c, init);
      if e == Restart(i) then None
      else if Wins(w, Run(c, es), i) then Some(i)
      else if Copies(c, w, e, i) then Some(e.packet.msg.sender)
      else if Raises(c, w, e, i) then None
      else LeaderOf(c, init, i)
  }

  lemma {:induction false} LeaderIdAfter(c: Cluster, w: World, e: Event, i: Id)
    requires i in w.servers
    ensures Step(c, w, e).servers[i].leaderId ==
      if e == Restart(i) then None
      else if Wins(w, Step(c, w, e), i) then Some(i)
      else if Copies(c, w, e, i) then Some(e.packet.msg.sender)
      else if Raises(c, w, e, i) then None
      else w.servers[i].leaderId
  {
  }

  lemma {:induction false} LeaderIsHistory(c: Cluster, es: seq<Event>, i: Id)
    requires i in c.ids
    ensures i in Run(c, es).servers && Run(c, es).servers[i].leaderId == LeaderOf(c, es, i)
  {
    RunHasMembers(c, es);
    if es != [] {
      LeaderIsHistory(c, es[..|es| - 1], i);
      LeaderIdAfter(c, Run(c, es[..|es| - 1]), es[|es| - 1], i);
    }
  }

  /** A proposal reaches the log of whoever leads, or is sent on to who is thought to lead. */
  lemma {:induction false} ProposalGoesToLeader(c: Cluster, w: World, i: Id, action: string, data: string)
    requires i in w.servers
    ensures var s, out := w.servers[i], React(c, w, ClientProposal(i, action, data)).out;
      if s.role == Leader then
        out == [Packet(None, AppendEntries(i, s.term, s.log + [Entry(s.term, action, data)], s.commitIndex))]
      else if s.leaderId.Some? then out == [Packet(s.leaderId, Propose(i, action, data))]
      else out == []
  {
  }

  /** A leader's tick repeats its whole log and commit index; nobody else's tick says anything. */
  lemma {:induction false} TickRepeatsLog(c: Cluster, w: World, i: Id)
    requires i in w.servers
    ensures var s := w.servers[i];
      React(c, w, HeartbeatTick(i)).out ==
        if s.role == Leader then [Packet(None, AppendEntries(i, s.term, s.log, s.commitIndex))] else []
  {
  }
}
