/**
 Exactly how far elections, logs and votes can be relied on.  A vote response does not name the
 candidate it was cast for, so a scheduler that receives every response counts votes cast for its
 rival; and a scheduler that restarts has forgotten whom it voted for.
 */
module ConsensusLimits {
  import opened Common
  import opened Consensus
  import opened ConsensusRuns
  import opened ConsensusSafety
  import opened ConsensusElections

  /** Every cluster of three or more under the wildcard subscription has a run with two leaders of term 1. */
  lemma {:induction false} WildcardElectsTwo(c: Cluster, a: Id, b: Id) returns (es: seq<Event>)
    requires c.routing == Wildcard && |c.ids| >= 3
    requires a in c.ids && b in c.ids && a != b
    ensures Restarted(es, 0) == {} && Leading(Run(c, es), a) && Leading(Run(c, es), b)
  {
    var voters := c.ids - {a, b};
    assert |voters| == |c.ids| - 2 && |c.Peers(b)| == |c.ids| - 1;
    var stood := BothStand(c, a, b);
    var won := Elect(c, stood, a, voters);
    es := CountAll(c, won, b, a, voters);
  }

  /** Under either routing, as many restarts as quorums overlap elect two leaders of term 1. */
  lemma {:induction false} RestartsElectTwo(c: Cluster, a: Id, b: Id) returns (es: seq<Event>)
    requires |c.ids| >= 3 && a in c.ids && b in c.ids && a != b
    ensures |Restarted(es, 0)| == Overlap(c) && Leading(Run(c, es), a) && Leading(Run(c, es), b)
  {
    var voters, turned, late := Camps(c, a, b);
    var won := FirstElected(c, a, b, voters);
    var forgot := VotersForget(c, won, a, b, turned, late);
    es := Elect(c, forgot, b, late);
  }

  /** In a cluster of two, both restarting elects the other in the term the first one led. */
  lemma {:induction false} PairElectsTwo(c: Cluster, a: Id, b: Id) returns (es: seq<Event>, n: nat)
    requires |c.ids| == 2 && a in c.ids && b in c.ids && a != b
    ensures Restarted(es, 0) == c.ids && BothLead(c, es, n, a, b, 1)
  {
    EmptyRun(c);
    var won := ElectedByAll(c, [], a);
    var forgot := AllRestart(c, won, c.ids);
    es := ElectedByAll(c, forgot, b);
    n := |won|;
    PrefixOf(won, es);
  }

  /** In every cluster, as many restarts as quorums overlap put two leaders in one term. */
  lemma {:induction false} OverlapElectsTwo(c: Cluster, a: Id, b: Id) returns (es: seq<Event>, n: nat)
    requires c.Valid() && a in c.ids && b in c.ids && a != b
    ensures |Restarted(es, 0)| == Overlap(c) && BothLead(c, es, n, a, b, 1)
  {
    if |c.ids| >= 3 {
      es := RestartsElectTwo(c, a, b);
      n := |es|;
      PrefixOf(es, es);
    } else {
      es, n := PairElectsTwo(c, a, b);
    }
  }

  /**
   No term has two leaders while at most `k` schedulers restart, exactly when a vote can only be counted by
   its own candidate and `k` is less than what two quorums share: one in an odd cluster, two in an even one.
   */
  lemma {:induction false} ElectionSafeIff(c: Cluster, k: nat)
    requires c.Valid()
    ensures ElectionSafe(c, k) <==> VotesReachOnlyTheirCandidate(c) && QuorumsOutlast(c, k)
  {
    if VotesReachOnlyTheirCandidate(c) && QuorumsOutlast(c, k) {
      forall es, n, a, b, t | BothLead(c, es, n, a, b, t) && |Restarted(es, 0)| <= k ensures a == b {
        SafeUnderAddressing(c, es, n, a, b, t);
      }
    } else {
      var a, b := TwoMembers(c);
      var es, n;
      if VotesReachOnlyTheirCandidate(c) {
        es, n := OverlapElectsTwo(c, a, b);
      } else {
        es := WildcardElectsTwo(c, a, b);
        n := |es|;
        PrefixOf(es, es);
      }
      assert BothLead(c, es, n, a, b, 1);
    }
  }

  // ---- logs of one term ----

  predicate Diverge(p: Packet, q: Packet) {
    SameTermLogs(p, q) && !(p.msg.entries <= q.msg.entries) && !(q.msg.entries <= p.msg.entries)
  }

  lemma {:induction false} ProposalsDiverge(w: World, a: Id, v: World, b: Id)
    requires a in w.servers && b in v.servers
    ensures Diverge(FirstProposal(w, a, "left"), FirstProposal(v, b, "right"))
  {
    assert FirstProposal(w, a, "left").msg.entries[0].action != FirstProposal(v, b, "right").msg.entries[0].action;
  }

  /** Two leaders of one term then publish logs of which neither extends the other. */
  lemma {:induction false} WildcardLogsDiverge(c: Cluster, a: Id, b: Id) returns (es: seq<Event>, p: Packet, q: Packet)
    requires c.routing == Wildcard && |c.ids| >= 3
    requires a in c.ids && b in c.ids && a != b
    ensures Restarted(es, 0) == {} && p in Run(c, es).net && q in Run(c, es).net && Diverge(p, q)
  {
    var both := WildcardElectsTwo(c, a, b);
    var one;
    one, p := ProposeOne(c, both, a, "left");
    es, q := ProposeOne(c, one, b, "right");
    ProposalsDiverge(Run(c, both), a, Run(c, one), b);
  }

  /** A leader that restarts is elected again in its term by the votes still in flight, and starts a new log. */
  lemma {:induction false} RestartRewritesLog(c: Cluster, a: Id) returns (es: seq<Event>, p: Packet, q: Packet)
    requires c.Valid() && a in c.ids
    ensures Restarted(es, 0) == {a} && p in Run(c, es).net && q in Run(c, es).net && Diverge(p, q)
  {
    EmptyRun(c);
    var won := ElectedByAll(c, [], a);
    var said, back;
    said, p := ProposeOne(c, won, a, "left");
    back := ElectedAgain(c, said, a);
    es, q := ProposeOne(c, back, a, "right");
    ProposalsDiverge(Run(c, won), a, Run(c, back), a);
  }

  /** Logs of one term are comparable exactly when votes reach only their candidate and nobody restarts. */
  lemma {:induction false} LogsComparableIff(c: Cluster, k: nat)
    requires c.Valid()
    ensures LogsComparable(c, k) <==> VotesReachOnlyTheirCandidate(c) && k == 0
  {
    if VotesReachOnlyTheirCandidate(c) && k == 0 {
      forall es, p, q
        | |Restarted(es, 0)| <= k && p in Run(c, es).net && q in Run(c, es).net && SameTermLogs(p, q)
        ensures Comparable(p, q)
      {
        LogsCompare(c, es, p, q);
      }
    } else {
      var a, b := TwoMembers(c);
      var es, p, q;
      if VotesReachOnlyTheirCandidate(c) {
        es, p, q := RestartRewritesLog(c, a);
      } else {
        es, p, q := WildcardLogsDiverge(c, a, b);
      }
      assert |Restarted(es, 0)| <= k && !Comparable(p, q);
    }
  }

  // ---- votes of one term ----

  // A leader's heartbeat frees candidate `b`, whose vote then goes to whoever asks.
  lemma {:induction false} FreedCandidateVotes(c: Cluster, w: World, a: Id, b: Id, p: Packet)
    requires w.servers.Keys == c.ids && a in c.ids && b in c.ids && a != b
    requires Running(w, b, {b}) && Ballot(a) in w.net
    requires p in w.net && p.to == None && p.msg.AppendEntries? && p.msg.sender == a
    requires p.msg.term == 1 && p.msg.entries == []
    ensures var w' := Step(c, Step(c, w, Deliver(b, p)), Deliver(b, Ballot(a)));
      b in w'.servers && w'.servers[b].term == 1 && w'.servers[b].votedFor == Some(a)
  {
    assert Ballot(a) in Step(c, w, Deliver(b, p)).net;
  }

  lemma {:induction false} RivalTakesVote(c: Cluster, base: seq<Event>, a: Id, b: Id) returns (es: seq<Event>)
    requires a in c.ids && b in c.ids && a != b && Leading(Run(c, base), a)
    requires Running(Run(c, base), b, {b}) && Ballot(a) in Run(c, base).net
    ensures GoesOn(base, es, {}) && b in Run(c, es).servers
    ensures Run(c, es).servers[b].term == 1 && Run(c, es).servers[b].votedFor == Some(a)
  {
    RunHasMembers(c, base);
    var p := Heartbeat(a, Run(c, base).servers[a]);
    FreedCandidateVotes(c, Run(c, base), a, b, p);
    OneStep(c, base, Deliver(b, p));
    OneStep(c, base + [Deliver(b, p)], Deliver(b, Ballot(a)));
    es := base + [Deliver(b, p)] + [Deliver(b, Ballot(a))];
  }

  /** In every cluster of three or more, a candidate's vote for itself is cleared and given to its rival. */
  lemma {:induction false} VoteIsRegranted(c: Cluster, a: Id, b: Id) returns (es: seq<Event>, n: nat)
    requires |c.ids| >= 3 && a in c.ids && b in c.ids && a != b
    ensures Restarted(es, 0) == {} && VotesTwice(c, es, n, b, b, a)
  {
    assert |c.ids - {a, b}| == |c.ids| - 2;
    var won := FirstElected(c, a, b, c.ids - {a, b});
    es := RivalTakesVote(c, won, a, b);
    n := |won|;
    PrefixOf(won, es);
  }

  /** One restart is enough for a second vote in a term, in every cluster. */
  lemma {:induction false} RestartVotesAgain(c: Cluster, a: Id, b: Id) returns (es: seq<Event>, n: nat)
    requires a in c.ids && b in c.ids && a != b
    ensures Restarted(es, 0) == {b} && VotesTwice(c, es, n, b, b, a)
  {
    var stood := BothStand(c, a, b);
    var forgot := AllRestart(c, stood, {b});
    OneStep(c, forgot, Deliver(b, Ballot(a)));
    OneVote(c, Run(c, forgot), a, b);
    es, n := forgot + [Deliver(b, Ballot(a))], |stood|;
    PrefixOf(stood, es);
  }

  /** One vote per term holds exactly in clusters of two where nobody restarts. */
  lemma {:induction false} OneVotePerTermIff(c: Cluster, k: nat)
    requires c.Valid()
    ensures OneVotePerTerm(c, k) <==> |c.ids| <= 2 && k == 0
  {
    if |c.ids| <= 2 && k == 0 {
      forall es: seq<Event>, n: nat, i: Id, x: Id, y: Id | VotesTwice(c, es, n, i, x, y)
        ensures |Restarted(es, 0)| > k
      {
        if Restarted(es, 0) == {} {
          RunHasMembers(c, es);
          VoteIsKept(c, es, n, i);
        }
      }
    } else {
      var a, b := TwoMembers(c);
      var es, n;
      if |c.ids| <= 2 {
        es, n := RestartVotesAgain(c, a, b);
      } else {
        es, n := VoteIsRegranted(c, a, b);
      }
      assert VotesTwice(c, es, n, b, b, a) && |Restarted(es, 0)| <= k;
    }
  }
}
