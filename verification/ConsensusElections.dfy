/** Building blocks for runs: standing, voting, counting and restarting, one scheduler at a time. */
module ConsensusElections {
  import opened Common
  import opened Consensus
  import opened ConsensusRuns
  import opened ConsensusSafety

  function Ballot(a: Id): Packet {
    Packet(None, RequestVote(a, 1, -1, 0))
  }

  function Vote(v: Id, a: Id): Packet {
    Packet(Some(a), VoteResponse(v, 1, true))
  }

  predicate Running(w: World, x: Id, votes: set<Id>) {
    && x in w.servers && w.servers[x].role == Candidate && w.servers[x].term == 1
    && w.servers[x].votes == votes && w.servers[x].log == [] && w.servers[x].votedFor == Some(x)
    && w.servers[x].commitIndex == -1 && w.servers[x].matchIndex == map[]
  }

  // `x` leads term 1 with an empty log, and its first heartbeat is out.
  predicate Leading(w: World, x: Id) {
    && LeadsIn(w, x, 1) && w.servers[x].log == [] && Heartbeat(x, w.servers[x]) in w.net
    && w.servers[x].commitIndex == -1
    && forall p :: p in w.servers[x].matchIndex ==> w.servers[x].matchIndex[p] == -1
  }

  // A follower of term 1 that holds `log`.
  predicate Holding(w: World, v: Id, log: seq<Entry>, commit: int) {
    && v in w.servers && w.servers[v].role == Follower && w.servers[v].term == 1
    && w.servers[v].log == log && w.servers[v].commitIndex == commit
  }

  predicate Asleep(w: World, ids: set<Id>) {
    forall v :: v in ids ==> v in w.servers && w.servers[v] == FRESH
  }

  predicate Published(w: World, a: Id, voters: set<Id>) {
    forall v :: v in voters ==> Vote(v, a) in w.net
  }

  // From `w` to `w'` only the schedulers in `touched` have changed.
  ghost predicate Evolves(c: Cluster, w: World, w': World, touched: set<Id>) {
    && w.servers.Keys == w'.servers.Keys == c.ids && w.net <= w'.net
    && forall j :: j in c.ids && j !in touched ==> w'.servers[j] == w.servers[j]
  }

  // `es` goes on from `base`, in which `restarted` have restarted besides.
  ghost predicate GoesOn(base: seq<Event>, es: seq<Event>, restarted: set<Id>) {
    base <= es && Restarted(es, 0) == Restarted(base, 0) + restarted
  }

  lemma {:induction false} PrefixOf(base: seq<Event>, es: seq<Event>)
    requires base <= es
    ensures es[..|base|] == base
  {
  }

  lemma {:induction false} StepEvolves(c: Cluster, w: World, e: Event)
    requires w.servers.Keys == c.ids
    ensures Evolves(c, w, Step(c, w, e), {e.id})
  {
  }

  lemma {:induction false} OneStep(c: Cluster, base: seq<Event>, e: Event)
    ensures Run(c, base + [e]) == Step(c, Run(c, base), e)
    ensures GoesOn(base, base + [e], RestartOf(e))
    ensures Evolves(c, Run(c, base), Run(c, base + [e]), {e.id})
  {
    RunSnoc(c, base, e);
    RunHasMembers(c, base);
    StepEvolves(c, Run(c, base), e);
  }

  lemma {:induction false} EmptyRun(c: Cluster)
    ensures Asleep(Run(c, []), c.ids) && Restarted([], 0) == {}
  {
  }

  lemma {:induction false} Stand(c: Cluster, base: seq<Event>, x: Id) returns (es: seq<Event>)
    requires x in c.ids && Asleep(Run(c, base), {x})
    ensures GoesOn(base, es, {}) && Evolves(c, Run(c, base), Run(c, es), {x})
    ensures Running(Run(c, es), x, {x}) && Ballot(x) in Run(c, es).net
  {
    es := base + [ElectionTimeout(x)];
    OneStep(c, base, ElectionTimeout(x));
    var eff := OnTimeout(x, FRESH);
    assert eff.out[0] == Ballot(x);
  }

  lemma {:induction false} OneVote(c: Cluster, w: World, x: Id, v: Id)
    requires v in c.ids && v != x && Asleep(w, {v}) && Ballot(x) in w.net
    ensures var w' := Step(c, w, Deliver(v, Ballot(x)));
      Vote(v, x) in w'.net && Holding(w', v, [], -1) && w'.servers[v].votedFor == Some(x)
  {
    var eff := OnRequestVote(v, FRESH, Ballot(x).msg);
    assert eff.out[0] == Vote(v, x);
  }

  lemma {:induction false} VotersAndOne(c: Cluster, w: World, w': World, x: Id, v: Id, voters: set<Id>)
    requires Evolves(c, w, w', {v}) && v in voters && voters <= c.ids
    requires Published(w, x, voters - {v}) && forall u :: u in voters - {v} ==> Holding(w, u, [], -1)
    requires Vote(v, x) in w'.net && Holding(w', v, [], -1)
    ensures Published(w', x, voters) && forall u :: u in voters ==> Holding(w', u, [], -1)
  {
    forall u | u in voters ensures Holding(w', u, [], -1) && Vote(u, x) in w'.net {
      assert u != v ==> u in voters - {v};
    }
  }

  /** Schedulers that know nothing vote for the first candidate they hear of. */
  lemma {:induction false} AllVote(c: Cluster, base: seq<Event>, x: Id, voters: set<Id>) returns (es: seq<Event>)
    requires voters <= c.ids - {x} && Asleep(Run(c, base), voters) && Ballot(x) in Run(c, base).net
    ensures GoesOn(base, es, {}) && Evolves(c, Run(c, base), Run(c, es), voters)
    ensures Published(Run(c, es), x, voters) && forall v :: v in voters ==> Holding(Run(c, es), v, [], -1)
    decreases voters
  {
    es := base;
    RunHasMembers(c, base);
    if voters != {} {
      var v :| v in voters;
      es := AllVote(c, base, x, voters - {v});
      OneStep(c, es, Deliver(v, Ballot(x)));
      assert Run(c, es).servers[v] == Run(c, base).servers[v];
      OneVote(c, Run(c, es), x, v);
      VotersAndOne(c, Run(c, es), Run(c, es + [Deliver(v, Ballot(x))]), x, v, voters);
      es := es + [Deliver(v, Ballot(x))];
    }
  }

  // Candidate `x` has counted the votes of `counted`, whoever they were cast for.
  ghost predicate Counted(c: Cluster, w: World, x: Id, counted: set<Id>) {
    if |counted| + 1 >= Quorum(c.Peers(x)) then Leading(w, x)
    else Running(w, x, {x} + counted)
  }

  lemma {:induction false} CountOne(c: Cluster, w: World, x: Id, a: Id, v: Id, counted: set<Id>)
    requires w.servers.Keys == c.ids && Counted(c, w, x, counted) && x in c.ids
    requires v !in counted && v != x && x !in counted
    requires Vote(v, a) in w.net && c.Accepts(x, Vote(v, a))
    ensures Counted(c, Step(c, w, Deliver(x, Vote(v, a))), x, counted + {v})
  {
    assert |counted + {v}| == |counted| + 1;
    assert ({x} + counted) + {v} == {x} + (counted + {v});
    assert |{x} + (counted + {v})| == |counted| + 2;
  }

  lemma {:induction false} NoneCounted(c: Cluster, w: World, x: Id)
    requires c.Valid() && x in c.ids && Running(w, x, {x})
    ensures Counted(c, w, x, {})
  {
    assert {x} + {} == {x};
    assert |c.Peers(x)| == |c.ids| - 1;
  }

  lemma {:induction false} CountNext(c: Cluster, base: seq<Event>, es: seq<Event>, x: Id, a: Id, v: Id, voters: set<Id>)
    requires GoesOn(base, es, {}) && Evolves(c, Run(c, base), Run(c, es), {x})
    requires x in c.ids && x !in voters && v in voters
    requires Counted(c, Run(c, es), x, voters - {v}) && Vote(v, a) in Run(c, es).net && c.Accepts(x, Vote(v, a))
    ensures var more := es + [Deliver(x, Vote(v, a))];
      GoesOn(base, more, {}) && Evolves(c, Run(c, base), Run(c, more), {x}) && Counted(c, Run(c, more), x, voters)
  {
    OneStep(c, es, Deliver(x, Vote(v, a)));
    assert voters - {v} + {v} == voters;
    CountOne(c, Run(c, es), x, a, v, voters - {v});
  }

  /** A candidate that is handed every vote for `a` ends up having counted them all. */
  lemma {:induction false} CountAll(c: Cluster, base: seq<Event>, x: Id, a: Id, voters: set<Id>)
    returns (es: seq<Event>)
    requires c.Valid() && (c.routing == Wildcard || x == a) && x in c.ids && x !in voters
    requires Running(Run(c, base), x, {x}) && Published(Run(c, base), a, voters)
    ensures GoesOn(base, es, {}) && Evolves(c, Run(c, base), Run(c, es), {x})
    ensures Counted(c, Run(c, es), x, voters)
    decreases voters
  {
    if voters == {} {
      es := base;
      RunHasMembers(c, base);
      NoneCounted(c, Run(c, base), x);
    } else {
      var v :| v in voters;
      es := CountAll(c, base, x, a, voters - {v});
      assert Vote(v, a) in Run(c, base).net;
      CountNext(c, base, es, x, a, v, voters);
      es := es + [Deliver(x, Vote(v, a))];
    }
  }

  /** A candidate heard first by a quorum's worth of sleeping schedulers is elected. */
  lemma {:induction false} Elect(c: Cluster, base: seq<Event>, x: Id, voters: set<Id>) returns (es: seq<Event>)
    requires c.Valid() && x in c.ids && voters <= c.ids - {x} && |voters| >= |c.ids| / 2
    requires Running(Run(c, base), x, {x}) && Ballot(x) in Run(c, base).net && Asleep(Run(c, base), voters)
    ensures GoesOn(base, es, {}) && Evolves(c, Run(c, base), Run(c, es), voters + {x})
    ensures Leading(Run(c, es), x) && Published(Run(c, es), x, voters)
    ensures forall v :: v in voters ==> Holding(Run(c, es), v, [], -1)
  {
    var voted := AllVote(c, base, x, voters);
    es := CountAll(c, voted, x, x, voters);
    assert |c.Peers(x)| == |c.ids| - 1;
  }

  lemma {:induction false} OneRestart(c: Cluster, base: seq<Event>, v: Id)
    requires v in c.ids
    ensures GoesOn(base, base + [Restart(v)], {v}) && Asleep(Run(c, base + [Restart(v)]), {v})
    ensures Evolves(c, Run(c, base), Run(c, base + [Restart(v)]), {v})
  {
    OneStep(c, base, Restart(v));
    RunHasMembers(c, base);
  }

  lemma {:induction false} AllRestart(c: Cluster, base: seq<Event>, ids: set<Id>) returns (es: seq<Event>)
    requires ids <= c.ids
    ensures GoesOn(base, es, ids) && Evolves(c, Run(c, base), Run(c, es), ids) && Asleep(Run(c, es), ids)
    decreases ids
  {
    es := base;
    RunHasMembers(c, base);
    if ids != {} {
      var v :| v in ids;
      es := AllRestart(c, base, ids - {v});
      OneRestart(c, es, v);
      es := es + [Restart(v)];
    }
  }

  function FirstProposal(w: World, x: Id, action: string): Packet
    requires x in w.servers
  {
    Packet(None, AppendEntries(x, 1, [Entry(1, action, "")], w.servers[x].commitIndex))
  }

  /** A new leader that is given a proposal publishes a log with just that. */
  lemma {:induction false} ProposeOne(c: Cluster, base: seq<Event>, x: Id, action: string)
    returns (es: seq<Event>, p: Packet)
    requires x in c.ids && Leading(Run(c, base), x)
    ensures GoesOn(base, es, {}) && Evolves(c, Run(c, base), Run(c, es), {x})
    ensures p in Run(c, es).net && p == FirstProposal(Run(c, base), x, action)
  {
    var w, e := Run(c, base), ClientProposal(x, action, "");
    OneStep(c, base, e);
    es, p := base + [e], FirstProposal(w, x, action);
    var eff := React(c, w, e);
    assert eff.server.log == [Entry(1, action, "")];
    assert eff.out[0] == p;
  }

  lemma {:induction false} TwoMembers(c: Cluster) returns (a: Id, b: Id)
    requires c.Valid()
    ensures a in c.ids && b in c.ids && a != b
  {
    a :| a in c.ids;
    assert |c.ids - {a}| >= 1;
    b :| b in c.ids - {a};
  }

  lemma {:induction false} SubsetOfSize(s: set<Id>, n: nat) returns (t: set<Id>)
    requires n <= |s|
    ensures t <= s && |t| == n
  {
    t := {};
    if n > 0 {
      t := SubsetOfSize(s, n - 1);
      assert t != s;
      var x :| x in s && x !in t;
      t := t + {x};
    }
  }

  // Both stand in term 1, and nobody else has heard of it.
  lemma {:induction false} BothStand(c: Cluster, a: Id, b: Id) returns (es: seq<Event>)
    requires a in c.ids && b in c.ids && a != b
    ensures Restarted(es, 0) == {} && Run(c, es).servers.Keys == c.ids && Asleep(Run(c, es), c.ids - {a, b})
    ensures Running(Run(c, es), a, {a}) && Running(Run(c, es), b, {b})
    ensures Ballot(a) in Run(c, es).net && Ballot(b) in Run(c, es).net
  {
    EmptyRun(c);
    var one := Stand(c, [], a);
    es := Stand(c, one, b);
  }

  // Half the cluster votes first; those of it in both quorums turn, and join everybody who has not voted.
  lemma {:induction false} Camps(c: Cluster, a: Id, b: Id) returns (voters: set<Id>, turned: set<Id>, late: set<Id>)
    requires |c.ids| >= 3 && a in c.ids && b in c.ids && a != b
    ensures voters <= c.ids - {a, b} && |voters| == |c.ids| / 2
    ensures turned <= voters && |turned| == Overlap(c)
    ensures late == c.ids - {a, b} - voters + turned && |late| == |c.ids| / 2
  {
    var others := c.ids - {a, b};
    assert |others| == |c.ids| - 2;
    voters := SubsetOfSize(others, |c.ids| / 2);
    turned := SubsetOfSize(voters, Overlap(c));
    late := others - voters + turned;
    assert |others - voters| == |others| - |voters| && |late| == |others - voters| + |turned|;
  }

  lemma {:induction false} FirstElected(c: Cluster, a: Id, b: Id, voters: set<Id>) returns (es: seq<Event>)
    requires a in c.ids && b in c.ids && a != b && voters <= c.ids - {a, b} && c.Valid() && |voters| >= |c.ids| / 2
    ensures Restarted(es, 0) == {} && Leading(Run(c, es), a) && Running(Run(c, es), b, {b})
    ensures Ballot(a) in Run(c, es).net && Ballot(b) in Run(c, es).net
    ensures Asleep(Run(c, es), c.ids - {a, b} - voters)
  {
    var stood := BothStand(c, a, b);
    es := Elect(c, stood, a, voters);
  }

  // Voters that forget are as good as asleep; everybody else is as before.
  lemma {:induction false} VotersForget(c: Cluster, base: seq<Event>, a: Id, b: Id, turned: set<Id>, late: set<Id>)
    returns (es: seq<Event>)
    requires turned <= c.ids - {a, b} && late <= c.ids - {a, b} && Asleep(Run(c, base), late - turned)
    requires a in c.ids && b in c.ids && Leading(Run(c, base), a) && Running(Run(c, base), b, {b})
    requires Ballot(b) in Run(c, base).net
    ensures GoesOn(base, es, turned) && Asleep(Run(c, es), late)
    ensures Leading(Run(c, es), a) && Running(Run(c, es), b, {b}) && Ballot(b) in Run(c, es).net
  {
    es := AllRestart(c, base, turned);
  }

  // One candidate, elected by everybody.
  lemma {:induction false} ElectedByAll(c: Cluster, base: seq<Event>, a: Id) returns (es: seq<Event>)
    requires c.Valid() && a in c.ids && Asleep(Run(c, base), c.ids)
    ensures GoesOn(base, es, {}) && Leading(Run(c, es), a) && Published(Run(c, es), a, c.ids - {a})
    ensures forall v :: v in c.ids - {a} ==> Holding(Run(c, es), v, [], -1)
  {
    assert |c.ids - {a}| == |c.ids| - 1;
    var stood := Stand(c, base, a);
    es := Elect(c, stood, a, c.ids - {a});
  }

  // Stale votes are as good as new ones.
  lemma {:induction false} ElectedAgain(c: Cluster, base: seq<Event>, a: Id) returns (es: seq<Event>)
    requires c.Valid() && a in c.ids && Published(Run(c, base), a, c.ids - {a})
    ensures GoesOn(base, es, {a}) && Leading(Run(c, es), a) && Run(c, base).net <= Run(c, es).net
  {
    assert |c.ids - {a}| == |c.ids| - 1;
    var forgot := AllRestart(c, base, {a});
    var again := Stand(c, forgot, a);
    es := CountAll(c, again, a, a, c.ids - {a});
  }
}
