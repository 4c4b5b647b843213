/** A proposal that nothing disturbs is replicated, acknowledged, committed and learnt by everybody. */
module ConsensusProgress {
  import opened Common
  import opened Consensus
  import opened ConsensusRuns
  import opened ConsensusSafety
  import opened ConsensusElections

  function Log(a: Id, entries: seq<Entry>, commit: int): Packet {
    Packet(None, AppendEntries(a, 1, entries, commit))
  }

  function Ack(v: Id, a: Id, m: int): Packet {
    Packet(Some(a), AppendResponse(v, 1, true, m))
  }

  predicate Acked(w: World, a: Id, m: int, voters: set<Id>) {
    forall v :: v in voters ==> Ack(v, a, m) in w.net
  }

  predicate AllHold(w: World, voters: set<Id>, log: seq<Entry>, commit: int) {
    forall v :: v in voters ==> Holding(w, v, log, commit)
  }

  lemma {:induction false} OneCopy(c: Cluster, w: World, a: Id, v: Id, entries: seq<Entry>, before: seq<Entry>,
                                   commit: int)
    requires v in c.ids && v != a && Log(a, entries, commit) in w.net && Holding(w, v, before, -1) && commit >= -1
    ensures var w' := Step(c, w, Deliver(v, Log(a, entries, commit)));
      Holding(w', v, entries, commit) && Ack(v, a, |entries| - 1) in w'.net
  {
    var eff := React(c, w, Deliver(v, Log(a, entries, commit)));
    assert eff.out[0] == Ack(v, a, |entries| - 1);
  }

  lemma {:induction false} OthersStillHold(c: Cluster, w: World, w': World, touched: set<Id>, voters: set<Id>,
                                           log: seq<Entry>, commit: int)
    requires Evolves(c, w, w', touched) && voters <= c.ids - touched && AllHold(w, voters, log, commit)
    ensures AllHold(w', voters, log, commit)
  {
  }

  lemma {:induction false} AllAndOne(c: Cluster, w: World, w': World, a: Id, v: Id, voters: set<Id>, log: seq<Entry>,
                                     commit: int)
    requires Evolves(c, w, w', {v}) && v in voters && voters <= c.ids
    requires AllHold(w, voters - {v}, log, commit) && Acked(w, a, |log| - 1, voters - {v})
    requires Holding(w', v, log, commit) && Ack(v, a, |log| - 1) in w'.net
    ensures AllHold(w', voters, log, commit) && Acked(w', a, |log| - 1, voters)
  {
    forall u | u in voters ensures Holding(w', u, log, commit) && Ack(u, a, |log| - 1) in w'.net {
      assert u != v ==> u in voters - {v};
    }
  }

  /** A leader's log, delivered to followers of its term, is taken and acknowledged by each of them. */
  lemma {:induction false} AllCopy(c: Cluster, base: seq<Event>, a: Id, voters: set<Id>, entries: seq<Entry>,
                                   before: seq<Entry>, commit: int)
    returns (es: seq<Event>)
    requires voters <= c.ids - {a} && Log(a, entries, commit) in Run(c, base).net && commit >= -1
    requires AllHold(Run(c, base), voters, before, -1)
    ensures GoesOn(base, es, {}) && Evolves(c, Run(c, base), Run(c, es), voters)
    ensures AllHold(Run(c, es), voters, entries, commit) && Acked(Run(c, es), a, |entries| - 1, voters)
    decreases voters
  {
    es := base;
    RunHasMembers(c, base);
    if voters != {} {
      var v :| v in voters;
      es := AllCopy(c, base, a, voters - {v}, entries, before, commit);
      OneStep(c, es, Deliver(v, Log(a, entries, commit)));
      assert Run(c, es).servers[v] == Run(c, base).servers[v];
      OneCopy(c, Run(c, es), a, v, entries, before, commit);
      AllAndOne(c, Run(c, es), Run(c, es + [Deliver(v, Log(a, entries, commit))]), a, v, voters, entries, commit);
      es := es + [Deliver(v, Log(a, entries, commit))];
    }
  }

  // Leader `a` with one entry has heard from `heard`, and commits once that makes a majority.
  ghost predicate Collecting(c: Cluster, w: World, a: Id, entry: Entry, heard: set<Id>) {
    && LeadsIn(w, a, 1) && w.servers[a].log == [entry]
    && (forall p :: p in heard ==> p in w.servers[a].matchIndex && w.servers[a].matchIndex[p] == 0)
    && (forall p :: p in w.servers[a].matchIndex && p !in heard ==> w.servers[a].matchIndex[p] == -1)
    && w.servers[a].commitIndex == if |heard| + 1 >= Quorum(c.Peers(a)) then 0 else -1
  }

  lemma {:induction false} OneAck(c: Cluster, w: World, a: Id, entry: Entry, v: Id, heard: set<Id>)
    requires a in c.ids && v in c.ids && v != a && v !in heard && Ack(v, a, 0) in w.net
    requires Collecting(c, w, a, entry, heard)
    ensures Collecting(c, Step(c, w, Deliver(a, Ack(v, a, 0))), a, entry, heard + {v})
  {
    var m := w.servers[a].matchIndex[v := 0];
    assert (set p | p in m && m[p] >= 0) == heard + {v};
    assert |heard + {v}| == |heard| + 1;
  }

  lemma {:induction false} AllAck(c: Cluster, base: seq<Event>, a: Id, entry: Entry, voters: set<Id>)
    returns (es: seq<Event>)
    requires c.Valid() && a in c.ids && voters <= c.ids - {a} && Acked(Run(c, base), a, 0, voters)
    requires Collecting(c, Run(c, base), a, entry, {})
    ensures GoesOn(base, es, {}) && Evolves(c, Run(c, base), Run(c, es), {a})
    ensures Collecting(c, Run(c, es), a, entry, voters)
    decreases voters
  {
    es := base;
    RunHasMembers(c, base);
    if voters != {} {
      var v :| v in voters;
      es := AllAck(c, base, a, entry, voters - {v});
      OneStep(c, es, Deliver(a, Ack(v, a, 0)));
      assert voters - {v} + {v} == voters && Ack(v, a, 0) in Run(c, base).net;
      OneAck(c, Run(c, es), a, entry, v, voters - {v});
      es := es + [Deliver(a, Ack(v, a, 0))];
    }
  }

  lemma {:induction false} NewEntryIsUnheard(c: Cluster, w: World, a: Id, action: string)
    requires c.Valid() && a in c.ids && Leading(w, a)
    ensures Collecting(c, Step(c, w, ClientProposal(a, action, "")), a, Entry(1, action, ""), {})
  {
    assert |c.Peers(a)| == |c.ids| - 1;
    assert [] + [Entry(1, action, "")] == [Entry(1, action, "")];
  }

  lemma {:induction false} Say(c: Cluster, base: seq<Event>, a: Id, action: string) returns (es: seq<Event>)
    requires c.Valid() && a in c.ids && Leading(Run(c, base), a)
    ensures GoesOn(base, es, {}) && Evolves(c, Run(c, base), Run(c, es), {a})
    ensures Collecting(c, Run(c, es), a, Entry(1, action, ""), {})
    ensures Log(a, [Entry(1, action, "")], -1) in Run(c, es).net
  {
    var e := ClientProposal(a, action, "");
    es := base + [e];
    OneStep(c, base, e);
    NewEntryIsUnheard(c, Run(c, base), a, action);
    var eff := React(c, Run(c, base), e);
    assert eff.out[0] == Log(a, [Entry(1, action, "")], -1);
  }

  lemma {:induction false} StillCollecting(c: Cluster, w: World, w': World, touched: set<Id>, a: Id, entry: Entry,
                                           heard: set<Id>)
    requires Evolves(c, w, w', touched) && a in c.ids && a !in touched && Collecting(c, w, a, entry, heard)
    ensures Collecting(c, w', a, entry, heard)
  {
  }

  // The proposal, its copies and their acknowledgements.
  lemma {:induction false} Replicate(c: Cluster, base: seq<Event>, a: Id, action: string) returns (es: seq<Event>)
    requires c.Valid() && a in c.ids && Leading(Run(c, base), a) && AllHold(Run(c, base), c.ids - {a}, [], -1)
    ensures GoesOn(base, es, {}) && Collecting(c, Run(c, es), a, Entry(1, action, ""), c.ids - {a})
    ensures AllHold(Run(c, es), c.ids - {a}, [Entry(1, action, "")], -1)
  {
    var others, entry := c.ids - {a}, Entry(1, action, "");
    var said := Say(c, base, a, action);
    OthersStillHold(c, Run(c, base), Run(c, said), {a}, others, [], -1);
    var copied := AllCopy(c, said, a, others, [entry], [], -1);
    StillCollecting(c, Run(c, said), Run(c, copied), others, a, entry, {});
    es := AllAck(c, copied, a, entry, others);
    OthersStillHold(c, Run(c, copied), Run(c, es), {a}, others, [entry], -1);
  }

  lemma {:induction false} TellCommit(c: Cluster, base: seq<Event>, a: Id, entry: Entry) returns (es: seq<Event>)
    requires c.Valid() && a in c.ids && Collecting(c, Run(c, base), a, entry, c.ids - {a})
    requires AllHold(Run(c, base), c.ids - {a}, [entry], -1)
    ensures GoesOn(base, es, {}) && AllHold(Run(c, es), c.ids - {a}, [entry], 0)
    ensures LeadsIn(Run(c, es), a, 1) && Run(c, es).servers[a].log == [entry] && Run(c, es).servers[a].commitIndex == 0
  {
    assert |c.ids - {a}| == |c.ids| - 1 && |c.Peers(a)| == |c.ids| - 1;
    OneStep(c, base, HeartbeatTick(a));
    var told := base + [HeartbeatTick(a)];
    var eff := React(c, Run(c, base), HeartbeatTick(a));
    assert eff.out[0] == Log(a, [entry], 0);
    es := AllCopy(c, told, a, c.ids - {a}, [entry], [entry], 0);
  }

  /** In every cluster, under either routing, a proposal can be brought to everybody's log and committed there. */
  lemma {:induction false} ProposalCommits(c: Cluster, a: Id, action: string) returns (es: seq<Event>)
    requires c.Valid() && a in c.ids
    ensures Restarted(es, 0) == {}
    ensures forall i :: i in c.ids ==>
      && i in Run(c, es).servers && Run(c, es).servers[i].log == [Entry(1, action, "")]
      && Run(c, es).servers[i].commitIndex == 0
  {
    EmptyRun(c);
    var won := ElectedByAll(c, [], a);
    var known := Replicate(c, won, a, action);
    es := TellCommit(c, known, a, Entry(1, action, ""));
    assert forall i :: i in c.ids ==> i == a || i in c.ids - {a};
  }
}
