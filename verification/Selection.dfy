/** Dampened greedy node selection, and what repeated selection does to the load of the fleet. */
module Selection {
  import opened Common
  import opened RegistryModel
  import opened RegistryHeap

  predicate Serves(r: Registry, model: string, n: Node) {
    model in n.models && n.id in r.heartbeats && r.heartbeats[n.id].status != Offline
  }

  predicate Eligible(r: Registry, model: string, i: nat)
    requires i < |r.nodes|
  {
    Serves(r, model, r.nodes[i])
  }

  function Base(n: Node, h: Heartbeat): real {
    var ratio := if n.vramTotal > 0.0 then h.vramFree / n.vramTotal else 0.0;
    h.queue as real * 0.4 + h.gpu / 100.0 * 0.3 + h.cpu / 100.0 * 0.1 + (1.0 - ratio) * 0.2
  }

  function Score(r: Registry, i: nat): real
    requires i < |r.nodes| && r.nodes[i].id in r.heartbeats
  {
    Base(r.nodes[i], r.heartbeats[r.nodes[i].id]) + Dampener(r.dampeners, r.nodes[i].id)
  }

  /** Among the first `n` nodes, `k` is eligible, no eligible one scores lower and no earlier one ties. */
  ghost predicate FirstLeast(r: Registry, model: string, n: nat, k: nat)
    requires n <= |r.nodes|
  {
    && k < n && Eligible(r, model, k)
    && (forall i :: 0 <= i < n && Eligible(r, model, i) ==> Score(r, k) <= Score(r, i))
    && (forall i :: 0 <= i < k && Eligible(r, model, i) ==> Score(r, k) < Score(r, i))
  }

  /** The selected position among the first `n` nodes, if any is eligible. */
  function Pick(r: Registry, model: string, n: nat): (p: Option<nat>)
    requires n <= |r.nodes|
    ensures p.None? <==> forall i :: 0 <= i < n ==> !Eligible(r, model, i)
    ensures p.Some? ==> FirstLeast(r, model, n, p.value)
  {
    if n == 0 then None
    else
      var p := Pick(r, model, n - 1);
      if Eligible(r, model, n - 1) && (p.None? || Score(r, n - 1) < Score(r, p.value)) then Some(n - 1) else p
  }

  /** One selection: the chosen node's dampener rises, and a refused request changes nothing. */
  function Select(r: Registry, model: string): Registry {
    var p := Pick(r, model, |r.nodes|);
    if p.None? then r else r.(dampeners := Bump(r.dampeners, r.nodes[p.value].id))
  }

  class Scheduler {
    const registry: NodeRegistry

    constructor (registry: NodeRegistry)
      ensures this.registry == registry
    {
      this.registry := registry;
    }

    /** Score the eligible nodes in listing order. */
    method ScoreEligible(model: string) returns (scored: seq<(nat, real)>)
      ensures Scored(registry.Memory(), model, |registry.nodes|, scored)
    {
      scored := [];
      ghost var r := registry.Memory();
      for n := 0 to |registry.nodes|
        invariant Scored(r, model, n, scored)
      {
        var node := registry.nodes[n];
        if model !in node.models { continue; }
        if node.id !in registry.heartbeats { continue; }
        var h := registry.heartbeats[node.id];
        if h.status == Offline { continue; }
        var dampener := if node.id in registry.dampeners then registry.dampeners[node.id] else 0.0;
        var ratio := if node.vramTotal > 0.0 then h.vramFree / node.vramTotal else 0.0;
        var score := h.queue as real * 0.4 + h.gpu / 100.0 * 0.3 + h.cpu / 100.0 * 0.1 + (1.0 - ratio) * 0.2 + dampener;
        assert score == Score(r, n);
        scored := scored + [(n, score)];
      }
    }

    /** The stable minimum of the scored nodes, charged on selection; `None` is the raise. */
    method SelectNode(model: string) returns (chosen: Option<nat>)
      modifies registry
      ensures chosen == Pick(old(registry.Memory()), model, |old(registry.nodes)|)
      ensures registry.View() == old(registry.View()).(registry := Select(old(registry.Memory()), model))
    {
      var scored := ScoreEligible(model);
      if scored == [] {
        NothingScored(registry.Memory(), model, |registry.nodes|);
        return None;
      }
      var least := Least(scored);
      var i := scored[least].0;
      ScoredFirstLeast(registry.Memory(), model, |registry.nodes|, scored, least);
      var _ := registry.BumpDampener(registry.nodes[i].id);
      chosen := Some(i);
    }
  }

  /** Exactly the eligible nodes among the first `n`, in listing order, with their scores. */
  ghost predicate Scored(r: Registry, model: string, n: nat, scored: seq<(nat, real)>)
    requires n <= |r.nodes|
  {
    && (forall k :: 0 <= k < |scored| ==>
          && scored[k].0 < n && Eligible(r, model, scored[k].0) && scored[k].1 == Score(r, scored[k].0))
    && (forall k, l :: 0 <= k < l < |scored| ==> scored[k].0 < scored[l].0)
    && (forall i :: 0 <= i < n && Eligible(r, model, i) ==> (i, Score(r, i)) in scored)
  }

  ghost predicate StableMin(scored: seq<(nat, real)>, least: nat) {
    && least < |scored|
    && (forall l :: 0 <= l < |scored| ==> scored[least].1 <= scored[l].1)
    && (forall l :: 0 <= l < least ==> scored[least].1 < scored[l].1)
  }

  /** Python's `min`: the first of the smallest. */
  method Least(scored: seq<(nat, real)>) returns (least: nat)
    requires scored != []
    ensures StableMin(scored, least)
  {
    least := 0;
    for k := 1 to |scored|
      invariant least < k
      invariant forall l :: 0 <= l < k ==> scored[least].1 <= scored[l].1
      invariant forall l :: 0 <= l < least ==> scored[least].1 < scored[l].1
    {
      if scored[k].1 < scored[least].1 { least := k; }
    }
  }

  lemma {:induction false} NothingScored(r: Registry, model: string, n: nat)
    requires n <= |r.nodes| && Scored(r, model, n, [])
    ensures Pick(r, model, n) == None
  {
  }

  lemma {:induction false} ScoredFirstLeast(r: Registry, model: string, n: nat, scored: seq<(nat, real)>, least: nat)
    requires n <= |r.nodes| && Scored(r, model, n, scored) && StableMin(scored, least)
    ensures Pick(r, model, n) == Some(scored[least].0)
  {
    var first := scored[least].0;
    forall i | 0 <= i < n && Eligible(r, model, i)
      ensures Score(r, first) <= Score(r, i)
      ensures i < first ==> Score(r, first) < Score(r, i)
    {
      var k :| 0 <= k < |scored| && scored[k] == (i, Score(r, i));
      if least < k { assert scored[least].0 < scored[k].0; }
    }
    FirstLeastIsUnique(r, model, n, first, Pick(r, model, n).value);
  }

  lemma {:induction false} FirstLeastIsUnique(r: Registry, model: string, n: nat, i: nat, j: nat)
    requires n <= |r.nodes| && FirstLeast(r, model, n, i) && FirstLeast(r, model, n, j)
    ensures i == j
  {
  }

  // ---- runs of requests between heartbeats ----

  function Serve(r: Registry, requests: seq<string>): (q: Registry)
    ensures q.nodes == r.nodes && q.heartbeats == r.heartbeats
  {
    if requests == [] then r
    else Select(Serve(r, requests[..|requests| - 1]), requests[|requests| - 1])
  }

  /** The node that took the last request. */
  function LastPick(r: Registry, requests: seq<string>): (p: Option<nat>)
    requires requests != []
    ensures p.Some? ==> p.value < |r.nodes|
  {
    Pick(Serve(r, requests[..|requests| - 1]), requests[|requests| - 1], |r.nodes|)
  }

  /** How many of the requests node `i` took. */
  function Times(r: Registry, requests: seq<string>, i: nat): nat {
    if requests == [] then 0
    else Times(r, requests[..|requests| - 1], i) + if LastPick(r, requests) == Some(i) then 1 else 0
  }

  /** The model for which node `i` was chosen most recently. */
  function LastModel(r: Registry, requests: seq<string>, i: nat): Option<string> {
    if requests == [] then None
    else if LastPick(r, requests) == Some(i) then Some(requests[|requests| - 1])
    else LastModel(r, requests[..|requests| - 1], i)
  }

  /** A node's score carries 0.1 for every request it took. */
  lemma {:induction false} ScoreCountsPicks(r: Registry, requests: seq<string>, i: nat)
    requires Keyed(r.nodes) && i < |r.nodes| && r.nodes[i].id in r.heartbeats
    ensures Score(Serve(r, requests), i) == Score(r, i) + 0.1 * Times(r, requests, i) as real
  {
    if requests != [] {
      var init := requests[..|requests| - 1];
      ScoreCountsPicks(r, init, i);
      var p := LastPick(r, requests);
      if p.Some? && p.value != i {
        assert r.nodes[p.value].id != r.nodes[i].id;
      }
    }
  }

  /** Over every mix of models: whoever last took a request for `model` is no further than one
      assignment above any node that could have taken it. */
  lemma {:induction false} LoadIsBalanced(r: Registry, requests: seq<string>, i: nat, j: nat, model: string)
    requires Keyed(r.nodes) && i < |r.nodes| && j < |r.nodes| && r.nodes[i].id in r.heartbeats
    requires LastModel(r, requests, i) == Some(model) && Eligible(r, model, j)
    ensures Times(r, requests, i) > 0
    ensures Score(r, i) + 0.1 * (Times(r, requests, i) - 1) as real <= Score(r, j) + 0.1 * Times(r, requests, j) as real
  {
    var init := requests[..|requests| - 1];
    if LastPick(r, requests) == Some(i) {
      ScoreCountsPicks(r, init, i);
      ScoreCountsPicks(r, init, j);
      assert Eligible(Serve(r, init), model, j);
    } else {
      LoadIsBalanced(r, init, i, j, model);
    }
  }

  ghost predicate Only(requests: seq<string>, model: string) {
    forall k :: 0 <= k < |requests| ==> requests[k] == model
  }

  lemma {:induction false} OnlyModelIsLast(r: Registry, requests: seq<string>, model: string, i: nat)
    requires Only(requests, model) && Times(r, requests, i) > 0
    ensures i < |r.nodes| && Eligible(r, model, i) && LastModel(r, requests, i) == Some(model)
  {
    var init := requests[..|requests| - 1];
    if LastPick(r, requests) == Some(i) {
      assert Eligible(Serve(r, init), model, i);
    } else {
      OnlyModelIsLast(r, init, model, i);
    }
  }

  /** Requests for one model: nodes that start level stay within one assignment of each other. */
  lemma {:induction false} EqualNodesShareEqually(r: Registry, requests: seq<string>, model: string, i: nat, j: nat)
    requires Keyed(r.nodes) && Only(requests, model) && i < |r.nodes| && j < |r.nodes|
    requires Eligible(r, model, i) && Eligible(r, model, j) && Score(r, i) == Score(r, j)
    ensures -1 <= Times(r, requests, i) - Times(r, requests, j) <= 1
  {
    if Times(r, requests, i) > 0 {
      OnlyModelIsLast(r, requests, model, i);
      LoadIsBalanced(r, requests, i, j, model);
    }
    if Times(r, requests, j) > 0 {
      OnlyModelIsLast(r, requests, model, j);
      LoadIsBalanced(r, requests, j, i, model);
    }
  }

  // ---- against every other way of sharing the same requests ----

  function Sum(counts: seq<nat>): nat {
    if counts == [] then 0 else Sum(counts[..|counts| - 1]) + counts[|counts| - 1]
  }

  function Counts(r: Registry, requests: seq<string>): seq<nat> {
    seq(|r.nodes|, (i: nat) => Times(r, requests, i))
  }

  lemma {:induction false} SumOfUpdate(counts: seq<nat>, k: nat)
    requires k < |counts|
    ensures Sum(counts[k := counts[k] + 1]) == Sum(counts) + 1
  {
    var more := counts[k := counts[k] + 1];
    var init := counts[..|counts| - 1];
    if k == |counts| - 1 {
      assert more[..|more| - 1] == init;
    } else {
      SumOfUpdate(init, k);
      assert more[..|more| - 1] == init[k := init[k] + 1];
    }
  }

  lemma {:induction false} SumOfZeros(counts: seq<nat>)
    requires forall i :: 0 <= i < |counts| ==> counts[i] == 0
    ensures Sum(counts) == 0
  {
    if counts != [] { SumOfZeros(counts[..|counts| - 1]); }
  }

  /** Somewhere the sequence with one smaller entry and no smaller sum is larger. */
  lemma {:induction false} SumForcesLarger(a: seq<nat>, b: seq<nat>) returns (j: nat)
    requires |a| == |b| && Sum(a) < Sum(b)
    ensures j < |a| && a[j] < b[j]
  {
    j := |a| - 1;
    if a[j] >= b[j] { j := SumForcesLarger(a[..j], b[..j]); }
  }

  lemma {:induction false} SmallerElsewhereLarger(a: seq<nat>, b: seq<nat>, i: nat) returns (j: nat)
    requires |a| == |b| && Sum(a) == Sum(b) && i < |a| && a[i] > b[i]
    ensures j < |a| && a[j] < b[j]
  {
    var raised := b[i := b[i] + 1];
    SumOfUpdate(b, i);
    j := SumForcesLarger(a, raised);
  }

  lemma {:induction false} OnePickOneCount(r: Registry, requests: seq<string>)
    requires requests != [] && LastPick(r, requests).Some?
    ensures Sum(Counts(r, requests)) == Sum(Counts(r, requests[..|requests| - 1])) + 1
  {
    var k, before := LastPick(r, requests).value, Counts(r, requests[..|requests| - 1]);
    assert Counts(r, requests) == before[k := before[k] + 1];
    SumOfUpdate(before, k);
  }

  /** No request is lost or counted twice while somebody is eligible. */
  lemma {:induction false} EveryRequestIsTaken(r: Registry, requests: seq<string>, model: string, e: nat)
    requires Only(requests, model) && e < |r.nodes| && Eligible(r, model, e)
    ensures Sum(Counts(r, requests)) == |requests|
  {
    if requests == [] {
      SumOfZeros(Counts(r, requests));
    } else {
      var init := requests[..|requests| - 1];
      EveryRequestIsTaken(r, init, model, e);
      assert Eligible(Serve(r, init), model, e);
      OnePickOneCount(r, requests);
    }
  }

  /** Greedy is minimax: however else the same number of requests is shared among eligible nodes, some
      node is then given a request at a score at least as high as any greedy ever paid. */
  lemma {:induction false} GreedyIsMinimax(r: Registry, requests: seq<string>, model: string, share: seq<nat>, i: nat)
    returns (j: nat)
    requires Keyed(r.nodes) && Only(requests, model) && i < |r.nodes| && Times(r, requests, i) > 0
    requires |share| == |r.nodes| && Sum(share) == |requests|
    requires forall k :: 0 <= k < |share| && share[k] > 0 ==> Eligible(r, model, k)
    ensures j < |share| && share[j] > 0 && Eligible(r, model, j) && Eligible(r, model, i)
    ensures Score(r, j) + 0.1 * (share[j] - 1) as real >= Score(r, i) + 0.1 * (Times(r, requests, i) - 1) as real
  {
    OnlyModelIsLast(r, requests, model, i);
    EveryRequestIsTaken(r, requests, model, i);
    var counts := Counts(r, requests);
    if share[i] >= counts[i] {
      j := i;
    } else {
      j := SmallerElsewhereLarger(counts, share, i);
      LoadIsBalanced(r, requests, i, j, model);
    }
  }

  // ---- what a score is made of ----

  /** A node that serves `model`, has been heard from and is not offline. */
  predicate Candidate(r: Registry, model: string, i: nat) {
    && i < |r.nodes| && model in r.nodes[i].models && r.nodes[i].id in r.heartbeats
    && r.heartbeats[r.nodes[i].id].status in {Online, Busy, Unknown}
  }

  /** A request is refused exactly when there is no candidate, and goes to the first of the lowest-scored ones. */
  lemma {:induction false} PickIsCandidate(r: Registry, model: string)
    ensures Pick(r, model, |r.nodes|) == None <==> forall i :: 0 <= i < |r.nodes| ==> !Candidate(r, model, i)
    ensures Pick(r, model, |r.nodes|).Some? ==>
      var k := Pick(r, model, |r.nodes|).value;
      && Candidate(r, model, k)
      && forall i :: 0 <= i < |r.nodes| && Candidate(r, model, i) ==>
           Score(r, k) <= Score(r, i) && (i < k ==> Score(r, k) < Score(r, i))
  {
    assert forall i :: 0 <= i < |r.nodes| ==> (Candidate(r, model, i) <==> Eligible(r, model, i));
  }

  /** An idle node with all its memory free scores nothing but its dampener. */
  lemma {:induction false} IdleScoresNothing(n: Node, h: Heartbeat)
    requires h.queue == 0 && h.gpu == 0.0 && h.cpu == 0.0 && n.vramTotal > 0.0 && h.vramFree == n.vramTotal
    ensures Base(n, h) == 0.0
  {
  }

  /** Each queued request weighs 0.4, a fully used GPU 0.3, a fully used CPU 0.1 and fully used memory 0.2. */
  lemma {:induction false} WhatLoadWeighs(n: Node, h: Heartbeat, queue: int, gpu: real, cpu: real, used: real)
    requires n.vramTotal > 0.0
    ensures Base(n, h.(queue := h.queue + queue)) == Base(n, h) + 0.4 * queue as real
    ensures Base(n, h.(gpu := h.gpu + 100.0 * gpu)) == Base(n, h) + 0.3 * gpu
    ensures Base(n, h.(cpu := h.cpu + 100.0 * cpu)) == Base(n, h) + 0.1 * cpu
    ensures Base(n, h.(vramFree := h.vramFree - used * n.vramTotal)) == Base(n, h) + 0.2 * used
  {
    assert (h.vramFree - used * n.vramTotal) / n.vramTotal == h.vramFree / n.vramTotal - used;
  }

  /** A node without a GPU counts as one whose memory is all in use, whatever it reports. */
  lemma {:induction false} NoMemoryIsFullMemory(n: Node, full: Node, h: Heartbeat)
    requires n.vramTotal <= 0.0 && full.vramTotal > 0.0
    ensures Base(n, h) == Base(full, h.(vramFree := 0.0))
  {
  }
}
