/**
 One scheduler of the consensus cluster: the state each handler updates under its lock,
 written once as value functions (used by the run and the proofs) and once in the
 source's own form, a class whose methods assign fields.
 */
module Consensus {
  import opened Common

  type Id = string

  datatype Role = Follower | Candidate | Leader

  datatype Entry = Entry(term: nat, action: string, data: string)

  /** Every message names its sender; the `candidate_id`, `leader_id` and `peer_id` fields
      of the wire format always repeat it. */
  datatype Message =
    | RequestVote(sender: Id, term: nat, lastLogIndex: int, lastLogTerm: nat)
    | VoteResponse(sender: Id, term: nat, granted: bool)
    | AppendEntries(sender: Id, term: nat, entries: seq<Entry>, leaderCommit: int)
    | AppendResponse(sender: Id, term: nat, success: bool, matchIndex: int)
    | Propose(sender: Id, action: string, data: string)

  /** A published sample: `to` is the last segment of its key, `None` the broadcast key. */
  datatype Packet = Packet(to: Option<Id>, msg: Message)

  datatype Server = Server(
    role: Role,
    term: nat,
    votedFor: Option<Id>,
    votes: set<Id>,
    log: seq<Entry>,
    commitIndex: int,
    matchIndex: map<Id, int>,
    leaderId: Option<Id>)

  datatype Effect = Effect(server: Server, out: seq<Packet>)

  const FRESH := Server(Follower, 0, None, {}, [], -1, map[], None)

  /** Votes (or replicas) a cluster of `1 + |peers|` schedulers requires. */
  function Quorum(peers: set<Id>): nat {
    (|peers| + 1) / 2 + 1
  }

  function LastTerm(log: seq<Entry>): nat {
    if log == [] then 0 else log[|log| - 1].term
  }

  function Heartbeat(me: Id, s: Server): Packet {
    Packet(None, AppendEntries(me, s.term, s.log, s.commitIndex))
  }

  function StartElection(me: Id, s: Server): Effect {
    var s' := s.(role := Candidate, term := s.term + 1, votedFor := Some(me), votes := {me});
    Effect(s', [Packet(None, RequestVote(me, s'.term, |s.log| - 1, LastTerm(s.log)))])
  }

  /** The timeout loop leaves a leader alone. */
  function OnTimeout(me: Id, s: Server): Effect {
    if s.role == Leader then Effect(s, []) else StartElection(me, s)
  }

  function OnHeartbeatTick(me: Id, s: Server): Effect {
    if s.role == Leader then Effect(s, [Heartbeat(me, s)]) else Effect(s, [])
  }

  function BecomeLeader(me: Id, peers: set<Id>, s: Server): Effect {
    var s' := s.(role := Leader, leaderId := Some(me),
                 matchIndex := s.matchIndex + map p | p in peers :: -1);
    Effect(s', [Heartbeat(me, s')])
  }

  predicate LogIsCurrent(m: Message, log: seq<Entry>)
    requires m.RequestVote?
  {
    m.lastLogTerm > LastTerm(log) ||
    (m.lastLogTerm == LastTerm(log) && m.lastLogIndex >= |log| - 1)
  }

  function OnRequestVote(me: Id, s: Server, m: Message): Effect
    requires m.RequestVote?
  {
    var s1 := if m.term > s.term
              then s.(term := m.term, role := Follower, votedFor := None, leaderId := None)
              else s;
    var free := s1.votedFor == None || s1.votedFor == Some(m.sender);
    if m.term == s1.term && free && LogIsCurrent(m, s1.log) then
      Effect(s1.(votedFor := Some(m.sender)),
             [Packet(Some(m.sender), VoteResponse(me, s1.term, true))])
    else
      Effect(s1, [Packet(Some(m.sender), VoteResponse(me, s1.term, false))])
  }

  function OnVoteResponse(me: Id, peers: set<Id>, s: Server, m: Message): Effect
    requires m.VoteResponse?
  {
    if s.role != Candidate || m.term != s.term || !m.granted then Effect(s, [])
    else
      var s1 := s.(votes := s.votes + {m.sender});
      if |s1.votes| >= Quorum(peers) then BecomeLeader(me, peers, s1) else Effect(s1, [])
  }

  function OnAppendEntries(me: Id, s: Server, m: Message): Effect
    requires m.AppendEntries?
  {
    if m.term < s.term then
      Effect(s, [Packet(Some(m.sender), AppendResponse(me, s.term, false, |s.log| - 1))])
    else
      var s1 := if m.term > s.term || s.role != Follower
                then s.(term := m.term, role := Follower, votedFor := None) else s;
      var commit := if m.leaderCommit > s1.commitIndex then m.leaderCommit else s1.commitIndex;
      var s2 := s1.(leaderId := Some(m.sender), log := m.entries, commitIndex := commit);
      Effect(s2, [Packet(Some(m.sender), AppendResponse(me, s2.term, true, |s2.log| - 1))])
  }

  /** Replicas of log position `n`, the leader's own copy included. */
  function Replicas(matchIndex: map<Id, int>, n: int): nat {
    1 + |set p | p in matchIndex && matchIndex[p] >= n|
  }

  /** The highest position in `floor+1..n` a quorum holds, else `floor`. */
  function CommitPoint(matchIndex: map<Id, int>, quorum: nat, floor: int, n: int): (r: int)
    ensures r == floor || (floor < r <= n && Replicas(matchIndex, r) >= quorum)
    ensures forall k :: floor < k <= n && r < k ==> Replicas(matchIndex, k) < quorum
    decreases n - floor
  {
    if n <= floor then floor
    else if Replicas(matchIndex, n) >= quorum then n
    else CommitPoint(matchIndex, quorum, floor, n - 1)
  }

  function OnAppendResponse(me: Id, peers: set<Id>, s: Server, m: Message): Effect
    requires m.AppendResponse?
  {
    if m.term > s.term then
      Effect(s.(term := m.term, role := Follower, votedFor := None, leaderId := None), [])
    else if s.role != Leader || m.term != s.term || !m.success then Effect(s, [])
    else
      var matches := s.matchIndex[m.sender := m.matchIndex];
      var commit := CommitPoint(matches, Quorum(peers), s.commitIndex, |s.log| - 1);
      Effect(s.(matchIndex := matches, commitIndex := commit), [])
  }

  function Append(me: Id, s: Server, action: string, data: string): Effect {
    var s' := s.(log := s.log + [Entry(s.term, action, data)]);
    Effect(s', [Heartbeat(me, s')])
  }

  function OnPropose(me: Id, s: Server, m: Message): Effect
    requires m.Propose?
  {
    if s.role == Leader then Append(me, s, m.action, m.data) else Effect(s, [])
  }

  /** A local `propose` on a cluster with peers: append when leading, else forward. */
  function OnClientProposal(me: Id, s: Server, action: string, data: string): Effect {
    if s.role == Leader then Append(me, s, action, data)
    else if s.leaderId.Some? then Effect(s, [Packet(s.leaderId, Propose(me, action, data))])
    else Effect(s, [])
  }

  /** What `propose` tells its caller, short of a leader's wait for the commit event. */
  datatype Proposal = AwaitsCommit(index: nat) | Replicated | TimedOut | NoLeader

  predicate Asks(e: Entry, action: string, data: string) { e.action == action && e.data == data }

  /** What a forwarding scheduler polls for: its entry, committed, at a position its log did not have. */
  ghost predicate Confirmed(s: Server, start: nat, action: string, data: string) {
    exists i :: start <= i <= s.commitIndex && i < |s.log| && Asks(s.log[i], action, data)
  }

  function Handle(me: Id, peers: set<Id>, s: Server, m: Message): Effect {
    match m
    case RequestVote(_, _, _, _) => OnRequestVote(me, s, m)
    case VoteResponse(_, _, _) => OnVoteResponse(me, peers, s, m)
    case AppendEntries(_, _, _, _) => OnAppendEntries(me, s, m)
    case AppendResponse(_, _, _, _) => OnAppendResponse(me, peers, s, m)
    case Propose(_, _, _) => OnPropose(me, s, m)
  }

  /** The engine as the source writes it: fields assigned one by one by each handler. */
  class ConsensusEngine {
    const me: Id
    const peers: set<Id>
    var role: Role
    var term: nat
    var votedFor: Option<Id>
    var votes: set<Id>
    var log: seq<Entry>
    var commitIndex: int
    var matchIndex: map<Id, int>
    var leaderId: Option<Id>

    constructor (me: Id, peers: set<Id>)
      ensures View() == FRESH && this.me == me && this.peers == peers
    {
      this.me, this.peers := me, peers;
      role, term, votedFor, votes := Follower, 0, None, {};
      log, commitIndex, matchIndex, leaderId := [], -1, map[], None;
    }

    ghost function View(): Server
      reads this
    {
      Server(role, term, votedFor, votes, log, commitIndex, matchIndex, leaderId)
    }

    method ElectionTimeout() returns (out: seq<Packet>)
      modifies this
      ensures Effect(View(), out) == OnTimeout(me, old(View()))
    {
      if role == Leader {
        return [];
      }
      role := Candidate;
      term := term + 1;
      votedFor := Some(me);
      votes := {me};
      var lastTerm := if log == [] then 0 else log[|log| - 1].term;
      out := [Packet(None, RequestVote(me, term, |log| - 1, lastTerm))];
    }

    method SendHeartbeats() returns (out: seq<Packet>)
      ensures out == [Heartbeat(me, View())]
    {
      out := [Packet(None, AppendEntries(me, term, log, commitIndex))];
    }

    method HandleRequestVote(m: Message) returns (out: seq<Packet>)
      requires m.RequestVote?
      modifies this
      ensures Effect(View(), out) == OnRequestVote(me, old(View()), m)
    {
      if m.term > term {
        term := m.term;
        role := Follower;
        votedFor := None;
        leaderId := None;
      }
      if m.term < term {
        return [Packet(Some(m.sender), VoteResponse(me, term, false))];
      }
      var lastTerm := LastTerm(log);
      var logOk := m.lastLogTerm > lastTerm ||
                   (m.lastLogTerm == lastTerm && m.lastLogIndex >= |log| - 1);
      if (votedFor == None || votedFor == Some(m.sender)) && logOk {
        votedFor := Some(m.sender);
        out := [Packet(Some(m.sender), VoteResponse(me, term, true))];
      } else {
        out := [Packet(Some(m.sender), VoteResponse(me, term, false))];
      }
    }

    method HandleVoteResponse(m: Message) returns (out: seq<Packet>)
      requires m.VoteResponse?
      modifies this
      ensures Effect(View(), out) == OnVoteResponse(me, peers, old(View()), m)
    {
      out := [];
      if role != Candidate || m.term != term {
        return;
      }
      if m.granted {
        votes := votes + {m.sender};
        if |votes| >= (|peers| + 1) / 2 + 1 {
          role := Leader;
          leaderId := Some(me);
          matchIndex := matchIndex + map p | p in peers :: -1;
          out := SendHeartbeats();
        }
      }
    }

    method HandleAppendEntries(m: Message) returns (out: seq<Packet>)
      requires m.AppendEntries?
      modifies this
      ensures Effect(View(), out) == OnAppendEntries(me, old(View()), m)
      ensures m.term < old(term) ==> View() == old(View())
      ensures m.term >= old(term) ==>
        && role == Follower && term == m.term && leaderId == Some(m.sender) && log == m.entries
        && commitIndex >= m.leaderCommit && commitIndex in {old(commitIndex), m.leaderCommit}
    {
      if m.term >= term {
        if m.term > term || role != Follower {
          term := m.term;
          role := Follower;
          votedFor := None;
        }
        leaderId := Some(m.sender);
      }
      if m.term < term {
        return [Packet(Some(m.sender), AppendResponse(me, term, false, |log| - 1))];
      }
      log := m.entries;
      if m.leaderCommit > commitIndex {
        commitIndex := m.leaderCommit;
      }
      out := [Packet(Some(m.sender), AppendResponse(me, term, true, |log| - 1))];
    }

    /** The counting loop over `match_index`. */
    method CountReplicas(n: int) returns (count: nat)
      ensures count == Replicas(matchIndex, n)
    {
      count := 1;
      var todo := matchIndex.Keys;
      ghost var counted: set<Id> := {};
      while todo != {}
        invariant todo <= matchIndex.Keys
        invariant counted == set p | p in matchIndex.Keys - todo && matchIndex[p] >= n
        invariant count == 1 + |counted|
        decreases todo
      {
        var p :| p in todo;
        todo := todo - {p};
        if matchIndex[p] >= n {
          count, counted := count + 1, counted + {p};
        }
      }
      assert counted == set p | p in matchIndex && matchIndex[p] >= n;
    }

    method HandleAppendResponse(m: Message) returns (out: seq<Packet>)
      requires m.AppendResponse?
      modifies this
      ensures Effect(View(), out) == OnAppendResponse(me, peers, old(View()), m)
    {
      out := [];
      if m.term > term {
        term := m.term;
        role := Follower;
        votedFor := None;
        leaderId := None;
        return;
      }
      if role != Leader || m.term != term || !m.success {
        return;
      }
      matchIndex := matchIndex[m.sender := m.matchIndex];
      var n := |log| - 1;
      ghost var goal := CommitPoint(matchIndex, Quorum(peers), commitIndex, n);
      while n > commitIndex
        invariant View() == old(View()).(matchIndex := old(matchIndex)[m.sender := m.matchIndex])
        invariant goal == CommitPoint(matchIndex, Quorum(peers), commitIndex, n)
        decreases n - commitIndex
      {
        var count := CountReplicas(n);
        if count >= (|peers| + 1) / 2 + 1 {
          commitIndex := n;
          return;
        }
        n := n - 1;
      }
    }

    method HandlePropose(m: Message) returns (out: seq<Packet>)
      requires m.Propose?
      modifies this
      ensures Effect(View(), out) == OnPropose(me, old(View()), m)
    {
      out := [];
      if role == Leader {
        log := log + [Entry(term, m.action, m.data)];
        out := SendHeartbeats();
      }
    }

    /** One poll for a forwarded entry: committed positions from `start` on that the log holds. */
    method PollForwarded(start: nat, action: string, data: string) returns (found: bool)
      ensures found == Confirmed(View(), start, action, data)
    {
      found := false;
      var i: int := start;
      while i <= commitIndex
        invariant start <= i
        invariant forall k :: start <= k < i && k <= commitIndex && k < |log| ==> !Asks(log[k], action, data)
        decreases commitIndex - i
      {
        if i < |log| && log[i].action == action && log[i].data == data { return true; }
        i := i + 1;
      }
    }

    /**
     A local `propose` on a cluster with peers, up to a leader's wait for its commit event.  A follower
     polls with the lock held, so nothing it looks at changes: whatever the number of polls, it times out.
     */
    method ProposeLocally(action: string, data: string, polls: nat) returns (out: seq<Packet>, result: Proposal)
      modifies this
      ensures Effect(View(), out) == OnClientProposal(me, old(View()), action, data)
      ensures result == if old(role) == Leader then AwaitsCommit(|old(log)|)
                        else if old(leaderId).Some? then TimedOut else NoLeader
    {
      out := [];
      if role == Leader {
        log := log + [Entry(term, action, data)];
        result := AwaitsCommit(|log| - 1);
        out := SendHeartbeats();
      } else if leaderId.Some? {
        out := [Packet(leaderId, Propose(me, action, data))];
        var start := |log|;
        for _ := 0 to polls
          invariant View() == old(View())
        {
          var found := PollForwarded(start, action, data);
          if found { return out, Replicated; }
        }
        result := TimedOut;
      } else {
        result := NoLeader;
      }
    }
  }
}
