/**
 Election safety, and the growth of a leader's log, for the deliveries and restarts that leave it
 standing.  `lost` is the set of schedulers that have restarted, and so may have forgotten a vote.
 */
module ConsensusSafety {
  import opened Common
  import opened Consensus
  import opened ConsensusRuns

  /** Deliveries under which a vote can only be counted by the candidate it was cast for. */
  predicate VotesReachOnlyTheirCandidate(c: Cluster) {
    c.routing == Addressed || |c.ids| <= 2
  }

  /** How many members any two quorums share at least: two in an even cluster, one in an odd one. */
  function Overlap(c: Cluster): int {
    2 * (|c.ids| / 2 + 1) - |c.ids|
  }

  /** Fewer schedulers restart than any two quorums share. */
  predicate QuorumsOutlast(c: Cluster, k: nat) { k < Overlap(c) }

  predicate IsGrant(p: Packet) {
    p.msg.VoteResponse? && p.msg.granted
  }

  predicate Granted(net: set<Packet>, v: Id, cand: Id, t: nat) {
    Packet(Some(cand), VoteResponse(v, t, true)) in net
  }

  ghost predicate HasLed(net: set<Packet>, i: Id, t: nat) {
    exists p :: p in net && p.to == None && p.msg.AppendEntries? && p.msg.sender == i && p.msg.term == t
  }

  /** The schedulers known to stand behind `a` in term `t`: itself and everyone who voted for it. */
  ghost function Supporters(c: Cluster, net: set<Packet>, a: Id, t: nat): set<Id> {
    set v | v in c.ids && (v == a || Granted(net, v, a, t))
  }

  // What a running candidate or leader knows about its own votes.
  ghost predicate OwnVotes(c: Cluster, net: set<Packet>, i: Id, s: Server) {
    s.role != Follower ==>
      && s.votedFor == Some(i)
      && i in s.votes && s.votes <= c.ids
      && forall v :: v in s.votes && v != i ==> Granted(net, v, i, s.term)
  }

  ghost predicate ServersInv(c: Cluster, w: World) {
    && w.servers.Keys == c.ids
    && (forall p :: p in w.net ==> p.msg.sender in c.ids)
    && (forall i :: i in w.servers ==> OwnVotes(c, w.net, i, w.servers[i]))
    && (forall i | i in w.servers && w.servers[i].role == Leader :: HasLed(w.net, i, w.servers[i].term))
  }

  // A vote goes to another member.
  ghost predicate Cast(c: Cluster, p: Packet) {
    p.to.Some? && p.to.value in c.ids && p.to.value != p.msg.sender
  }

  // A grant binds the voter for the rest of the term: it is a follower of that one candidate.
  ghost predicate Binding(w: World, p: Packet)
    requires p.msg.sender in w.servers && p.msg.VoteResponse?
  {
    var v := w.servers[p.msg.sender];
    v.term >= p.msg.term && (v.term == p.msg.term ==> v.role == Follower && v.votedFor == p.to)
  }

  ghost predicate SameVote(p: Packet, q: Packet)
    requires IsGrant(p) && IsGrant(q)
  {
    p.msg.sender == q.msg.sender && p.msg.term == q.msg.term ==> p.to == q.to
  }

  ghost predicate GrantsInv(c: Cluster, w: World, lost: set<Id>)
    requires ServersInv(c, w)
  {
    && (forall p :: p in w.net && IsGrant(p) ==> Cast(c, p) && (p.msg.sender !in lost ==> Binding(w, p)))
    && (forall p, q | p in w.net && q in w.net && IsGrant(p) && IsGrant(q) && p.msg.sender !in lost :: SameVote(p, q))
  }

  // Whoever has ever led a term never voted for another candidate of that term, and leads it still unless it
  // has moved to a later one.
  ghost predicate Reigns(w: World, p: Packet)
    requires p.msg.AppendEntries? && p.msg.sender in w.servers
  {
    var a, t, s := p.msg.sender, p.msg.term, w.servers[p.msg.sender];
    && s.term >= t
    && (s.term == t ==> s.role == Leader && p.msg.entries <= s.log)
    && forall q :: q in w.net && IsGrant(q) && q.msg.sender == a ==> q.msg.term != t
  }

  // It had a quorum, and if it never restarted it reigns.
  ghost predicate Elected(c: Cluster, w: World, lost: set<Id>, p: Packet)
    requires p.msg.AppendEntries? && p.msg.sender in w.servers
  {
    && |Supporters(c, w.net, p.msg.sender, p.msg.term)| >= Quorum(c.Peers(p.msg.sender))
    && (p.msg.sender !in lost ==> Reigns(w, p))
  }

  ghost predicate Agree(lost: set<Id>, p: Packet, q: Packet)
    requires p.msg.AppendEntries? && q.msg.AppendEntries?
  {
    p.msg.term == q.msg.term ==> p.msg.sender == q.msg.sender && (p.msg.sender !in lost ==> Comparable(p, q))
  }

  ghost predicate LeadersInv(c: Cluster, w: World, lost: set<Id>)
    requires ServersInv(c, w)
  {
    && (forall p :: p in w.net && p.msg.AppendEntries? ==> Elected(c, w, lost, p))
    && (forall p, q | p in w.net && q in w.net && p.msg.AppendEntries? && q.msg.AppendEntries? :: Agree(lost, p, q))
  }

  ghost predicate Inv(c: Cluster, w: World, lost: set<Id>) {
    && c.Valid() && |lost| < Overlap(c)
    && ServersInv(c, w) && GrantsInv(c, w, lost) && LeadersInv(c, w, lost)
  }

  /**
   What one reaction of scheduler `i` may do.  Every handler obeys it, and it is all the
   election argument needs: a follower keeps its vote for the term, a leader keeps leading
   and only extends its log, and nobody leads without a counted quorum.
   */
  ghost predicate Disciplined(c: Cluster, w: World, i: Id, eff: Effect)
    requires i in w.servers
  {
    var s, s', out := w.servers[i], eff.server, eff.out;
    var same := s'.term == s.term;
    && s'.term >= s.term
    && OwnVotes(c, w.net, i, s')
    && (same && s.role == Follower ==>
          s'.role == Follower && (s.votedFor.Some? ==> s'.votedFor == s.votedFor))
    && (same && s.role == Leader ==> s'.role == Leader && s.log <= s'.log)
    && (s'.role == Leader ==>
          same && (s.role == Leader ||
                   (s.role == Candidate && |s'.votes| >= Quorum(c.Peers(i)) &&
                    Heartbeat(i, s') in out)))
    && forall p :: p in out ==>
         && p.msg.sender == i
         && (IsGrant(p) ==> s'.role == Follower && p.to == s'.votedFor && p.to.Some? &&
                            p.to.value in c.ids - {i} && p.msg.term == s'.term)
         && (p.msg.AppendEntries? ==> s'.role == Leader && p == Heartbeat(i, s'))
  }

  lemma {:induction false} SupportGrows(c: Cluster, net: set<Packet>, more: set<Packet>, a: Id, t: nat)
    requires net <= more
    ensures |Supporters(c, net, a, t)| <= |Supporters(c, more, a, t)|
  {
    SubsetSize(Supporters(c, net, a, t), Supporters(c, more, a, t));
  }

  lemma {:induction false} SubsetSize<T>(a: set<T>, b: set<T>)
    requires a <= b
    ensures |a| <= |b|
  {
    assert b == a + (b - a);
  }

  /** With fewer restarts than quorums overlap, two quorums share a member that has forgotten nothing. */
  lemma {:induction false} QuorumsMeet(c: Cluster, i: Id, j: Id, q: set<Id>, r: set<Id>, lost: set<Id>) returns (v: Id)
    requires i in c.ids && j in c.ids && q <= c.ids && r <= c.ids && |lost| < Overlap(c)
    requires |q| >= Quorum(c.Peers(i)) && |r| >= Quorum(c.Peers(j))
    ensures v in q && v in r && v !in lost
  {
    SubsetSize(q + r, c.ids);
    assert |q + r| + |q * r| == |q| + |r|;
    assert |c.Peers(i)| == |c.ids| - 1 && |c.Peers(j)| == |c.ids| - 1;
    assert |q * r| >= Overlap(c);
    if q * r <= lost { SubsetSize(q * r, lost); }
    assert exists v :: v in q * r && v !in lost;
    v :| v in q * r && v !in lost;
  }

  lemma {:induction false} StepKeepsServers(c: Cluster, w: World, lost: set<Id>, i: Id, eff: Effect)
    requires Inv(c, w, lost) && i in c.ids && Disciplined(c, w, i, eff)
    ensures ServersInv(c, Commit(w, i, eff))
  {
    var w' := Commit(w, i, eff);
    forall j | j in w'.servers && w'.servers[j].role == Leader
      ensures HasLed(w'.net, j, w'.servers[j].term)
    {
      if j == i && w.servers[i].role != Leader {
        assert Heartbeat(i, eff.server) in w'.net;
      } else {
        var t := w.servers[j].term;
        var p :| p in w.net && p.to == None && p.msg.AppendEntries? && p.msg.sender == j && p.msg.term == t;
        assert p in w'.net;
      }
    }
  }

  lemma {:induction false} StepKeepsGrants(c: Cluster, w: World, lost: set<Id>, i: Id, eff: Effect)
    requires Inv(c, w, lost) && i in c.ids && Disciplined(c, w, i, eff)
    requires ServersInv(c, Commit(w, i, eff))
    ensures GrantsInv(c, Commit(w, i, eff), lost)
  {
    var w' := Commit(w, i, eff);
    forall p | p in w'.net && IsGrant(p) && p.msg.sender !in lost
      ensures Binding(w', p)
    {
      if p in w.net { assert Binding(w, p); }
    }
    forall p, q | p in w'.net && q in w'.net && IsGrant(p) && IsGrant(q) && p.msg.sender !in lost
      ensures SameVote(p, q)
    {
      if p in w.net { assert Binding(w, p); }
      if q in w.net && q.msg.sender !in lost { assert Binding(w, q); }
    }
  }

  // A supporter of a past leader that has forgotten nothing is not among the votes of another winner.
  lemma {:induction false} LoyalVoter(c: Cluster, w: World, lost: set<Id>, i: Id, eff: Effect, p: Packet, v: Id)
    requires Inv(c, w, lost) && i in c.ids && Disciplined(c, w, i, eff)
    requires eff.server.role == Leader && w.servers[i].role != Leader
    requires p in w.net && p.msg.AppendEntries? && p.msg.term == eff.server.term && p.msg.sender != i
    requires v in Supporters(c, w.net, p.msg.sender, p.msg.term) && v !in lost
    ensures v !in eff.server.votes
  {
    var a, t := p.msg.sender, p.msg.term;
    var forA, forI := Packet(Some(a), VoteResponse(v, t, true)), Packet(Some(i), VoteResponse(v, t, true));
    assert v != a ==> forA in w.net && Binding(w, forA);
    assert v == a ==> forI !in w.net;
  }

  /** A scheduler that wins an election in `t` is the only one that ever led `t`. */
  lemma {:induction false} WinnerIsAlone(c: Cluster, w: World, lost: set<Id>, i: Id, eff: Effect, p: Packet)
    requires Inv(c, w, lost) && i in c.ids && Disciplined(c, w, i, eff)
    requires eff.server.role == Leader
    requires p in w.net && p.msg.AppendEntries? && p.msg.term == eff.server.term
    ensures p.msg.sender == i && (i !in lost ==> w.servers[i].role == Leader)
  {
    var a, t := p.msg.sender, p.msg.term;
    assert Elected(c, w, lost, p);
    if w.servers[i].role == Leader {
      LeaderHearsNoRival(c, w, lost, i, p);
    } else if a != i {
      var v := QuorumsMeet(c, a, i, Supporters(c, w.net, a, t), eff.server.votes, lost);
      LoyalVoter(c, w, lost, i, eff, p, v);
    }
  }

  lemma {:induction false} StepKeepsReign(c: Cluster, w: World, lost: set<Id>, i: Id, eff: Effect, p: Packet)
    requires Inv(c, w, lost) && i in c.ids && Disciplined(c, w, i, eff)
    requires ServersInv(c, Commit(w, i, eff)) && GrantsInv(c, Commit(w, i, eff), lost)
    requires p in Commit(w, i, eff).net && p.msg.AppendEntries? && p.msg.sender !in lost
    ensures Reigns(Commit(w, i, eff), p)
  {
    var w' := Commit(w, i, eff);
    var a, t := p.msg.sender, p.msg.term;
    if p in w.net {
      assert Reigns(w, p);
      forall q | q in w'.net && IsGrant(q) && q.msg.sender == a
        ensures q.msg.term != t
      {
        assert q !in w.net ==> a == i && q.msg.term == eff.server.term;
      }
    } else {
      assert a == i && eff.server.role == Leader && t == eff.server.term;
      forall q | q in w'.net && IsGrant(q) && q.msg.sender == i
        ensures q.msg.term != t
      {
        assert Binding(w', q);
      }
    }
  }

  lemma {:induction false} StepKeepsSupport(c: Cluster, w: World, lost: set<Id>, i: Id, eff: Effect, p: Packet)
    requires Inv(c, w, lost) && i in c.ids && Disciplined(c, w, i, eff)
    requires ServersInv(c, Commit(w, i, eff))
    requires p in Commit(w, i, eff).net && p.msg.AppendEntries?
    ensures |Supporters(c, Commit(w, i, eff).net, p.msg.sender, p.msg.term)| >= Quorum(c.Peers(p.msg.sender))
  {
    var w' := Commit(w, i, eff);
    var a, t := p.msg.sender, p.msg.term;
    SupportGrows(c, w.net, w'.net, a, t);
    if p in w.net {
      assert Elected(c, w, lost, p);
    } else if w.servers[i].role == Leader {
      var q :| q in w.net && q.msg.AppendEntries? && q.msg.sender == i && q.msg.term == t;
      assert Elected(c, w, lost, q);
    } else {
      SubsetSize(eff.server.votes, Supporters(c, w'.net, i, t));
    }
  }

  lemma {:induction false} StepKeepsLeaders(c: Cluster, w: World, lost: set<Id>, i: Id, eff: Effect)
    requires Inv(c, w, lost) && i in c.ids && Disciplined(c, w, i, eff)
    requires ServersInv(c, Commit(w, i, eff)) && GrantsInv(c, Commit(w, i, eff), lost)
    ensures LeadersInv(c, Commit(w, i, eff), lost)
  {
    var w' := Commit(w, i, eff);
    forall p | p in w'.net && p.msg.AppendEntries?
      ensures Elected(c, w', lost, p)
    {
      StepKeepsSupport(c, w, lost, i, eff, p);
      if p.msg.sender !in lost { StepKeepsReign(c, w, lost, i, eff, p); }
    }
    forall p, q | p in w'.net && q in w'.net && p.msg.AppendEntries? && q.msg.AppendEntries?
      ensures Agree(lost, p, q)
    {
      if p.msg.term == q.msg.term {
        if p !in w.net && q in w.net {
          WinnerIsAlone(c, w, lost, i, eff, q);
          assert Elected(c, w, lost, q);
        } else if q !in w.net && p in w.net {
          WinnerIsAlone(c, w, lost, i, eff, p);
          assert Elected(c, w, lost, p);
        } else if p in w.net {
          assert Agree(lost, p, q);
        }
      }
    }
  }

  /** A delivered vote was cast for the candidate that receives it. */
  lemma {:induction false} VoteIsMine(c: Cluster, w: World, lost: set<Id>, i: Id, p: Packet)
    requires Inv(c, w, lost) && VotesReachOnlyTheirCandidate(c) && i in c.ids
    requires p in w.net && IsGrant(p) && c.Accepts(i, p)
    ensures p.to == Some(i)
  {
    assert Cast(c, p);
    if p.to != Some(i) {
      SubsetSize({p.to.value, i, p.msg.sender}, c.ids);
    }
  }

  lemma {:induction false} LeaderHearsNoRival(c: Cluster, w: World, lost: set<Id>, i: Id, p: Packet)
    requires Inv(c, w, lost) && i in c.ids && w.servers[i].role == Leader
    requires p in w.net && p.msg.AppendEntries? && p.msg.term == w.servers[i].term
    ensures p.msg.sender == i
  {
    var q :| q in w.net && q.msg.AppendEntries? && q.msg.sender == i && q.msg.term == p.msg.term;
    assert Agree(lost, q, p);
  }

  lemma {:induction false} VotingIsDisciplined(c: Cluster, w: World, lost: set<Id>, i: Id, m: Message)
    requires Inv(c, w, lost) && i in c.ids && m.RequestVote? && m.sender in c.ids - {i}
    ensures Disciplined(c, w, i, OnRequestVote(i, w.servers[i], m))
  {
    assert OwnVotes(c, w.net, i, w.servers[i]);
  }

  lemma {:induction false} CountingIsDisciplined(c: Cluster, w: World, lost: set<Id>, i: Id, p: Packet)
    requires Inv(c, w, lost) && VotesReachOnlyTheirCandidate(c) && i in c.ids
    requires p in w.net && c.Accepts(i, p) && p.msg.VoteResponse?
    ensures Disciplined(c, w, i, OnVoteResponse(i, c.Peers(i), w.servers[i], p.msg))
  {
    assert OwnVotes(c, w.net, i, w.servers[i]);
    if p.msg.granted { VoteIsMine(c, w, lost, i, p); }
  }

  lemma {:induction false} FollowingIsDisciplined(c: Cluster, w: World, lost: set<Id>, i: Id, p: Packet)
    requires Inv(c, w, lost) && i in c.ids && p in w.net && c.Accepts(i, p) && p.msg.AppendEntries?
    ensures Disciplined(c, w, i, OnAppendEntries(i, w.servers[i], p.msg))
  {
    var s := w.servers[i];
    assert OwnVotes(c, w.net, i, s);
    if p.msg.term == s.term && s.role == Leader { LeaderHearsNoRival(c, w, lost, i, p); }
  }

  lemma {:induction false} DeliveryIsDisciplined(c: Cluster, w: World, lost: set<Id>, i: Id, p: Packet)
    requires Inv(c, w, lost) && VotesReachOnlyTheirCandidate(c) && i in c.ids
    requires p in w.net && c.Accepts(i, p)
    ensures Disciplined(c, w, i, Handle(i, c.Peers(i), w.servers[i], p.msg))
  {
    match p.msg {
      case RequestVote(_, _, _, _) => VotingIsDisciplined(c, w, lost, i, p.msg);
      case VoteResponse(_, _, _) => CountingIsDisciplined(c, w, lost, i, p);
      case AppendEntries(_, _, _, _) => FollowingIsDisciplined(c, w, lost, i, p);
      case AppendResponse(_, _, _, _) => assert OwnVotes(c, w.net, i, w.servers[i]);
      case Propose(_, _, _) => assert OwnVotes(c, w.net, i, w.servers[i]);
    }
  }

  lemma {:induction false} ReactionIsDisciplined(c: Cluster, w: World, lost: set<Id>, e: Event)
    requires Inv(c, w, lost) && VotesReachOnlyTheirCandidate(c) && e.id in c.ids && !e.Restart?
    ensures Disciplined(c, w, e.id, React(c, w, e))
  {
    assert OwnVotes(c, w.net, e.id, w.servers[e.id]);
    if e.Deliver? && e.packet in w.net && c.Accepts(e.id, e.packet) {
      DeliveryIsDisciplined(c, w, lost, e.id, e.packet);
    }
  }

  lemma {:induction false} RestartKeepsServers(c: Cluster, w: World, i: Id)
    requires ServersInv(c, w) && i in c.ids
    ensures ServersInv(c, Commit(w, i, Effect(FRESH, [])))
  {
    var w' := Commit(w, i, Effect(FRESH, []));
    assert w'.net == w.net;
    forall j | j in w'.servers && w'.servers[j].role == Leader ensures HasLed(w'.net, j, w'.servers[j].term) {
      assert HasLed(w.net, j, w.servers[j].term);
    }
  }

  lemma {:induction false} RestartKeepsLeaders(c: Cluster, w: World, lost: set<Id>, i: Id)
    requires ServersInv(c, w) && LeadersInv(c, w, lost) && ServersInv(c, Commit(w, i, Effect(FRESH, [])))
    ensures LeadersInv(c, Commit(w, i, Effect(FRESH, [])), lost + {i})
  {
    var w' := Commit(w, i, Effect(FRESH, []));
    assert w'.net == w.net;
    forall p | p in w'.net && p.msg.AppendEntries? ensures Elected(c, w', lost + {i}, p) {
      assert Elected(c, w, lost, p);
    }
    forall p, q | p in w'.net && q in w'.net && p.msg.AppendEntries? && q.msg.AppendEntries?
      ensures Agree(lost + {i}, p, q)
    {
      assert Agree(lost, p, q);
    }
  }

  // A restarted scheduler promises nothing, and nothing is asked of it any more.
  lemma {:induction false} RestartKeepsInv(c: Cluster, w: World, lost: set<Id>, i: Id)
    requires Inv(c, w, lost) && i in c.ids && |lost + {i}| < Overlap(c)
    ensures Inv(c, Commit(w, i, Effect(FRESH, [])), lost + {i})
  {
    RestartKeepsServers(c, w, i);
    RestartKeepsLeaders(c, w, lost, i);
    assert Commit(w, i, Effect(FRESH, [])).net == w.net;
  }

  lemma {:induction false} StepKeepsInv(c: Cluster, w: World, lost: set<Id>, e: Event)
    requires Inv(c, w, lost) && VotesReachOnlyTheirCandidate(c) && |lost + RestartOf(e)| < Overlap(c)
    ensures Inv(c, Step(c, w, e), lost + RestartOf(e))
  {
    if e.id !in c.ids {
      MoreLost(c, w, lost, RestartOf(e));
    } else if e.Restart? {
      RestartKeepsInv(c, w, lost, e.id);
    } else {
      var eff := React(c, w, e);
      assert lost + RestartOf(e) == lost;
      ReactionIsDisciplined(c, w, lost, e);
      StepKeepsServers(c, w, lost, e.id, eff);
      StepKeepsGrants(c, w, lost, e.id, eff);
      StepKeepsLeaders(c, w, lost, e.id, eff);
    }
  }

  lemma {:induction false} MoreLost(c: Cluster, w: World, lost: set<Id>, more: set<Id>)
    requires Inv(c, w, lost) && |lost + more| < Overlap(c)
    ensures Inv(c, w, lost + more)
  {
    forall p | p in w.net && p.msg.AppendEntries? ensures Elected(c, w, lost + more, p) {
      assert Elected(c, w, lost, p);
    }
    forall p, q | p in w.net && q in w.net && p.msg.AppendEntries? && q.msg.AppendEntries?
      ensures Agree(lost + more, p, q)
    {
      assert Agree(lost, p, q);
    }
  }

  /** While fewer schedulers restart than quorums overlap, every run keeps the invariant. */
  lemma {:induction false} RunKeepsInv(c: Cluster, es: seq<Event>)
    requires c.Valid() && VotesReachOnlyTheirCandidate(c) && |Restarted(es, 0)| < Overlap(c)
    ensures Inv(c, Run(c, es), Restarted(es, 0))
  {
    if es == [] {
      assert Restarted(es, 0) == {};
    } else {
      var init, e := es[..|es| - 1], es[|es| - 1];
      assert init + [e] == es;
      RestartedSnoc(init, e, 0);
      SubsetSize(Restarted(init, 0), Restarted(es, 0));
      RunKeepsInv(c, init);
      StepKeepsInv(c, Run(c, init), Restarted(init, 0), e);
    }
  }

  // Packets are never withdrawn, and whoever is not in `lost` never goes back to an earlier term.
  ghost predicate Grows(c: Cluster, w: World, w': World, lost: set<Id>) {
    && w.net <= w'.net && w.servers.Keys == w'.servers.Keys == c.ids
    && forall i :: i in c.ids && i !in lost ==> w.servers[i].term <= w'.servers[i].term
  }

  lemma {:induction false} StepGrows(c: Cluster, w: World, e: Event)
    requires w.servers.Keys == c.ids
    ensures Grows(c, w, Step(c, w, e), RestartOf(e))
  {
  }

  lemma {:induction false} GrowsOn(c: Cluster, w: World, w': World, w'': World, lost: set<Id>, more: set<Id>)
    requires Grows(c, w, w', lost) && Grows(c, w', w'', more)
    ensures Grows(c, w, w'', lost + more)
  {
  }

  lemma {:induction false} RunHasMembers(c: Cluster, es: seq<Event>)
    ensures Run(c, es).servers.Keys == c.ids
  {
    if es != [] {
      RunHasMembers(c, es[..|es| - 1]);
      StepGrows(c, Run(c, es[..|es| - 1]), es[|es| - 1]);
    }
  }

  /** Packets are never withdrawn, and no scheduler goes back to an earlier term without a restart. */
  lemma {:induction false} RunGrows(c: Cluster, es: seq<Event>, n: nat)
    requires n <= |es|
    ensures Grows(c, Run(c, es[..n]), Run(c, es), Restarted(es, n))
    decreases |es|
  {
    RunHasMembers(c, es);
    if n == |es| {
      assert es[..n] == es;
    } else {
      var init, e := es[..|es| - 1], es[|es| - 1];
      assert init[..n] == es[..n] && init + [e] == es;
      RunGrows(c, init, n);
      RestartedSnoc(init, e, n);
      StepGrows(c, Run(c, init), e);
      GrowsOn(c, Run(c, es[..n]), Run(c, init), Run(c, es), Restarted(init, n), RestartOf(e));
    }
  }

  lemma {:induction false} FewerRestarted(es: seq<Event>, n: nat)
    requires n <= |es|
    ensures Restarted(es[..n], 0) <= Restarted(es, 0) && |Restarted(es[..n], 0)| <= |Restarted(es, 0)|
  {
    forall i | i in Restarted(es[..n], 0) ensures i in Restarted(es, 0) {
      var k :| 0 <= k < n && es[..n][k].Restart? && es[..n][k].id == i;
      assert es[k] == es[..n][k];
    }
    SubsetSize(Restarted(es[..n], 0), Restarted(es, 0));
  }

  lemma {:induction false} SafeUnderAddressing(c: Cluster, es: seq<Event>, n: nat, a: Id, b: Id, t: nat)
    requires c.Valid() && VotesReachOnlyTheirCandidate(c) && |Restarted(es, 0)| < Overlap(c)
    requires BothLead(c, es, n, a, b, t)
    ensures a == b
  {
    FewerRestarted(es, n);
    RunKeepsInv(c, es[..n]);
    RunKeepsInv(c, es);
    RunGrows(c, es, n);
    var w0, w := Run(c, es[..n]), Run(c, es);
    var p :| p in w0.net && p.msg.AppendEntries? && p.msg.sender == a && p.msg.term == t;
    var q :| q in w.net && q.msg.AppendEntries? && q.msg.sender == b && q.msg.term == t;
    assert Agree(Restarted(es, 0), p, q);
  }

  // Inside one term a follower stays one, and a leader steps down or keeps its log and adds to it.
  ghost predicate TermOrder(s: Server, s': Server) {
    && (s.role == Follower ==> s'.role == Follower)
    && (s.role == Leader ==> s'.role == Follower || (s'.role == Leader && s.log <= s'.log))
  }

  lemma {:induction false} StepWithinTerm(c: Cluster, w: World, e: Event, a: Id)
    requires a in w.servers && Step(c, w, e).servers[a].term == w.servers[a].term && a !in RestartOf(e)
    ensures TermOrder(w.servers[a], Step(c, w, e).servers[a])
  {
  }

  // As long as `a` is in the term it was in at `w0`: a follower stays one, a leader has stepped down or
  // extended its log.
  ghost predicate OrderedSince(w0: World, w: World, a: Id) {
    && a in w0.servers && a in w.servers && w0.servers[a].term <= w.servers[a].term
    && (w0.servers[a].term == w.servers[a].term ==> TermOrder(w0.servers[a], w.servers[a]))
  }

  lemma {:induction false} StepStaysOrdered(c: Cluster, w0: World, w: World, e: Event, a: Id)
    requires w.servers.Keys == c.ids && OrderedSince(w0, w, a) && a !in RestartOf(e)
    ensures OrderedSince(w0, Step(c, w, e), a)
  {
    StepGrows(c, w, e);
    if Step(c, w, e).servers[a].term == w.servers[a].term { StepWithinTerm(c, w, e, a); }
  }

  /** Under either routing, a leader's log only grows for as long as it leads its term and does not restart. */
  lemma {:induction false} LeaderLogOnlyGrows(c: Cluster, es: seq<Event>, n: nat, a: Id)
    requires n <= |es| && a in c.ids && a !in Restarted(es, n)
    ensures OrderedSince(Run(c, es[..n]), Run(c, es), a)
    decreases |es|
  {
    RunHasMembers(c, es);
    if n == |es| {
      assert es[..n] == es;
    } else {
      var init, e := es[..|es| - 1], es[|es| - 1];
      assert init[..n] == es[..n] && init + [e] == es;
      RestartedSnoc(init, e, n);
      LeaderLogOnlyGrows(c, init, n, a);
      RunHasMembers(c, init);
      StepStaysOrdered(c, Run(c, es[..n]), Run(c, init), e, a);
    }
  }

  // As long as `a` is in the term it led at `w0`, it leads it.
  ghost predicate LeadsOn(w0: World, w: World, a: Id) {
    && a in w0.servers && a in w.servers && w0.servers[a].term <= w.servers[a].term
    && (w0.servers[a].term == w.servers[a].term && w0.servers[a].role == Leader ==> w.servers[a].role == Leader)
  }

  lemma {:induction false} StepLeadsOn(c: Cluster, w0: World, w: World, lost: set<Id>, e: Event, a: Id)
    requires Inv(c, w, lost) && VotesReachOnlyTheirCandidate(c) && LeadsOn(w0, w, a) && a !in RestartOf(e)
    ensures LeadsOn(w0, Step(c, w, e), a)
  {
    StepGrows(c, w, e);
    if e.id == a { ReactionIsDisciplined(c, w, lost, e); }
  }

  /** Where votes are counted by their candidate only and restarts are few, a leader never steps down inside
      its term. */
  lemma {:induction false} LeaderStays(c: Cluster, es: seq<Event>, n: nat, a: Id)
    requires c.Valid() && VotesReachOnlyTheirCandidate(c) && |Restarted(es, 0)| < Overlap(c)
    requires n <= |es| && a in c.ids && a !in Restarted(es, n)
    ensures LeadsOn(Run(c, es[..n]), Run(c, es), a)
    decreases |es|
  {
    RunHasMembers(c, es);
    if n == |es| {
      assert es[..n] == es;
    } else {
      var init, e := es[..|es| - 1], es[|es| - 1];
      assert init[..n] == es[..n] && init + [e] == es;
      RestartedSnoc(init, e, n);
      FewerRestarted(es, |es| - 1);
      LeaderStays(c, init, n, a);
      RunKeepsInv(c, init);
      StepLeadsOn(c, Run(c, es[..n]), Run(c, init), Restarted(init, 0), e, a);
    }
  }

  lemma {:induction false} LogsCompare(c: Cluster, es: seq<Event>, p: Packet, q: Packet)
    requires c.Valid() && VotesReachOnlyTheirCandidate(c) && Restarted(es, 0) == {}
    requires p in Run(c, es).net && q in Run(c, es).net && SameTermLogs(p, q)
    ensures Comparable(p, q)
  {
    RunKeepsInv(c, es);
    assert Agree({}, p, q);
  }

  // ---- one vote per term ----

  // With two schedulers a leader has the other's vote, so the other is not a candidate of that term.
  lemma {:induction false} RivalIsFollower(c: Cluster, w: World, i: Id, p: Packet)
    requires Inv(c, w, {}) && |c.ids| == 2 && i in c.ids
    requires p in w.net && p.msg.AppendEntries? && p.msg.sender != i && p.msg.term == w.servers[i].term
    ensures w.servers[i].role == Follower
  {
    var a, t := p.msg.sender, p.msg.term;
    var support := Supporters(c, w.net, a, t);
    assert Elected(c, w, {}, p);
    assert |c.Peers(a)| == 1;
    if i !in support { SubsetSize(support, c.ids - {i}); }
    assert Binding(w, Packet(Some(a), VoteResponse(i, t, true)));
  }

  lemma {:induction false} StepKeepsVote(c: Cluster, w: World, e: Event, i: Id)
    requires Inv(c, w, {}) && |c.ids| == 2 && i in c.ids && w.servers[i].votedFor.Some? && !e.Restart?
    requires Step(c, w, e).servers[i].term == w.servers[i].term
    ensures Step(c, w, e).servers[i].votedFor == w.servers[i].votedFor
  {
    if e.id == i && e.Deliver? && e.packet in w.net && c.Accepts(i, e.packet) {
      var p := e.packet;
      if p.msg.AppendEntries? && p.msg.term == w.servers[i].term { RivalIsFollower(c, w, i, p); }
    }
  }

  // As long as `i` is in the term it was in at `w0`, it keeps the vote it had there.
  ghost predicate KeepsVote(w0: World, w: World, i: Id) {
    && i in w0.servers && i in w.servers && w0.servers[i].term <= w.servers[i].term
    && (w0.servers[i].term == w.servers[i].term && w0.servers[i].votedFor.Some? ==>
          w.servers[i].votedFor == w0.servers[i].votedFor)
  }

  lemma {:induction false} StepStillKeepsVote(c: Cluster, w0: World, w: World, e: Event, i: Id)
    requires Inv(c, w, {}) && |c.ids| == 2 && i in c.ids && KeepsVote(w0, w, i) && !e.Restart?
    ensures KeepsVote(w0, Step(c, w, e), i)
  {
    StepGrows(c, w, e);
    if Step(c, w, e).servers[i].term == w.servers[i].term && w.servers[i].votedFor.Some? {
      StepKeepsVote(c, w, e, i);
    }
  }

  lemma {:induction false} VoteIsKept(c: Cluster, es: seq<Event>, n: nat, i: Id)
    requires c.Valid() && |c.ids| <= 2 && n <= |es| && i in c.ids && Restarted(es, 0) == {}
    ensures KeepsVote(Run(c, es[..n]), Run(c, es), i)
    decreases |es|
  {
    RunHasMembers(c, es);
    if n == |es| {
      assert es[..n] == es;
    } else {
      var init, e := es[..|es| - 1], es[|es| - 1];
      assert init[..n] == es[..n] && init + [e] == es;
      RestartedSnoc(init, e, 0);
      assert Restarted(init, 0) == {} && RestartOf(e) == {};
      VoteIsKept(c, init, n, i);
      RunKeepsInv(c, init);
      StepStillKeepsVote(c, Run(c, es[..n]), Run(c, init), e, i);
    }
  }
}
