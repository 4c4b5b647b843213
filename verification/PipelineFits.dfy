/** When the layers of a model fit on the ranked nodes at all, and that the engine then places them. */
module PipelineFits {
  import opened Common
  import opened Sequences
  import opened PipelineModel

  /** A node with `vram` can hold `n` layers; without a positive cost per layer it can hold any number. */
  predicate CanHold(vram: real, perLayer: real, n: int) {
    n == 0 || perLayer <= 0.0 || n as real * perLayer <= vram
  }

  lemma {:induction false} FloorIsMost(q: real, n: int)
    ensures n as real <= q <==> n <= q.Floor
  {
  }

  lemma {:induction false} QuotientAtLeast(x: real, y: real, q: real)
    requires y > 0.0
    ensures q <= x / y <==> q * y <= x
  {
    var r := x / y;
    assert r * y == x;
    if q <= r { ScaleUp(q, r, y); }
    if q > r { ScaledStrictly(r, q, y); }
  }

  lemma ScaledStrictly(x: real, y: real, c: real)
    requires x < y && c > 0.0
    ensures x * c < y * c
  {
  }

  /** A node's capacity is all it can hold: that many layers fit and one more does not. */
  lemma {:induction false} CapacityIsMost(vram: real, perLayer: real, layers: int, n: int)
    ensures perLayer > 0.0 && n > 0 ==> (CanHold(vram, perLayer, n) <==> n <= LayerCapacity(vram, perLayer, layers))
    ensures perLayer <= 0.0 ==> LayerCapacity(vram, perLayer, layers) == layers
  {
    if perLayer > 0.0 && n > 0 {
      QuotientAtLeast(vram, perLayer, n as real);
      FloorIsMost(vram / perLayer, n);
    }
  }

  // ---- assignments ----

  function Sum(counts: seq<nat>): nat {
    if counts == [] then 0 else Sum(counts[..|counts| - 1]) + counts[|counts| - 1]
  }

  /** A way of giving all the layers to the ranked nodes within every node's VRAM. */
  ghost predicate Assigns(ranked: seq<Ranked>, perLayer: real, layers: int, counts: seq<nat>) {
    && |counts| == |ranked| && Sum(counts) == layers
    && forall i :: 0 <= i < |ranked| ==> CanHold(ranked[i].vram, perLayer, counts[i])
  }

  ghost predicate Assignable(ranked: seq<Ranked>, perLayer: real, layers: int) {
    exists counts :: Assigns(ranked, perLayer, layers, counts)
  }

  lemma {:induction false} EachWithinSum(counts: seq<nat>, i: nat)
    requires i < |counts|
    ensures counts[i] <= Sum(counts)
  {
    if i < |counts| - 1 { EachWithinSum(counts[..|counts| - 1], i); }
  }

  lemma {:induction false} AssignedWithinCapacity(ranked: seq<Ranked>, perLayer: real, layers: int, counts: seq<nat>)
    requires |counts| == |ranked| && forall i :: 0 <= i < |counts| ==> counts[i] <= layers
    requires forall i :: 0 <= i < |ranked| ==> CanHold(ranked[i].vram, perLayer, counts[i])
    ensures Sum(counts) <= CapSum(Slots(ranked, perLayer, layers))
  {
    if ranked != [] {
      var init, k := ranked[..|ranked| - 1], |ranked| - 1;
      AssignedWithinCapacity(init, perLayer, layers, counts[..k]);
      CapacityIsMost(ranked[k].vram, perLayer, layers, counts[k]);
      SlotsStep(ranked, perLayer, layers);
    }
  }

  lemma {:induction false} SlotsStep(ranked: seq<Ranked>, perLayer: real, layers: int)
    requires ranked != []
    ensures var init, n := ranked[..|ranked| - 1], ranked[|ranked| - 1];
      var cap := LayerCapacity(n.vram, perLayer, layers);
      CapSum(Slots(ranked, perLayer, layers)) == CapSum(Slots(init, perLayer, layers)) + if cap > 0 then cap else 0
  {
    var s := Slots(ranked, perLayer, layers);
    assert LayerCapacity(ranked[|ranked| - 1].vram, perLayer, layers) > 0 ==>
      s[..|s| - 1] == Slots(ranked[..|ranked| - 1], perLayer, layers);
  }

  /** Whatever the capacities cover can be assigned. */
  lemma {:induction false} CapacityAssigns(ranked: seq<Ranked>, perLayer: real, layers: int, k: nat)
    returns (counts: seq<nat>)
    requires k <= CapSum(Slots(ranked, perLayer, layers))
    ensures Assigns(ranked, perLayer, k, counts)
  {
    counts := [];
    if ranked != [] {
      var init, n := ranked[..|ranked| - 1], ranked[|ranked| - 1];
      var before := CapSum(Slots(init, perLayer, layers));
      SlotsStep(ranked, perLayer, layers);
      CapacityIsNotNegative(init, perLayer, layers);
      var taken := if k <= before then k else before;
      var rest := CapacityAssigns(init, perLayer, layers, taken);
      CapacityIsMost(n.vram, perLayer, layers, k - taken);
      counts := rest + [k - taken];
      AssignsMore(ranked, perLayer, taken, rest, k - taken);
    }
  }

  lemma {:induction false} AssignsMore(ranked: seq<Ranked>, perLayer: real, layers: nat, counts: seq<nat>, more: nat)
    requires ranked != [] && Assigns(ranked[..|ranked| - 1], perLayer, layers, counts)
    requires CanHold(ranked[|ranked| - 1].vram, perLayer, more)
    ensures Assigns(ranked, perLayer, layers + more, counts + [more])
  {
    assert (counts + [more])[..|counts|] == counts;
    forall i | 0 <= i < |ranked| ensures CanHold(ranked[i].vram, perLayer, (counts + [more])[i]) {
      assert i < |counts| ==> ranked[..|ranked| - 1][i] == ranked[i];
    }
  }

  lemma {:induction false} CapacityIsNotNegative(ranked: seq<Ranked>, perLayer: real, layers: int)
    ensures CapSum(Slots(ranked, perLayer, layers)) >= 0
  {
    if ranked != [] {
      CapacityIsNotNegative(ranked[..|ranked| - 1], perLayer, layers);
      SlotsStep(ranked, perLayer, layers);
    }
  }

  lemma {:induction false} CoveredIffAssignable(ranked: seq<Ranked>, perLayer: real, layers: nat)
    ensures layers <= CapSum(Slots(ranked, perLayer, layers)) <==> Assignable(ranked, perLayer, layers)
  {
    if layers <= CapSum(Slots(ranked, perLayer, layers)) {
      var counts := CapacityAssigns(ranked, perLayer, layers, layers);
    }
    if counts :| Assigns(ranked, perLayer, layers, counts) {
      forall i | 0 <= i < |counts| ensures counts[i] <= layers { EachWithinSum(counts, i); }
      AssignedWithinCapacity(ranked, perLayer, layers, counts);
    }
  }

  // ---- greedy mode ----

  /** No number of stages is asked for: zero in the first field counts as absent. */
  predicate AsksForNone(t: Task) {
    t.numStages in {None, Some(0)} && t.targetStages == None
  }

  /** `n` stages are asked for, by the first field or, where that is absent or zero, by the second. */
  predicate AsksFor(t: Task, n: int) {
    (t.numStages == Some(n) && n != 0) || (t.numStages in {None, Some(0)} && t.targetStages == Some(n))
  }

  lemma {:induction false} EveryTaskAsks(t: Task)
    ensures AsksForNone(t) || exists n :: AsksFor(t, n)
  {
    if t.numStages.Some? && t.numStages.value != 0 {
      assert AsksFor(t, t.numStages.value);
    } else if t.targetStages.Some? {
      assert AsksFor(t, t.targetStages.value);
    }
  }

  /** Why a schedule without a stage count is refused. */
  function Because(tooFew: bool, nobody: bool): Refusal {
    if tooFew then BadLayerCount else if nobody then NoEligibleNode else InsufficientCluster
  }

  /** Greedy mode refuses a positive number of layers exactly when no assignment of them fits; and it says why. */
  lemma {:induction false} GreedyPlacesIff(t: Task, ranked: seq<Ranked>)
    requires DistinctNodes(ranked) && AsksForNone(t)
    ensures Schedule(t, ranked).Ok? <==> 0 < t.layers && Assignable(ranked, t.perLayer, t.layers)
    ensures Schedule(t, ranked).Err? ==>
      Schedule(t, ranked) == Err(Because(t.layers <= 0, ranked == []))
  {
    GreedyScheduleIff(t, ranked);
    if 0 < t.layers { CoveredIffAssignable(ranked, t.perLayer, t.layers); }
  }

  /** The ranked nodes that can hold a layer, in rank order. */
  function Able(ranked: seq<Ranked>, perLayer: real): seq<Ranked> {
    Filter(ranked, (r: Ranked) => CanHold(r.vram, perLayer, 1))
  }

  lemma {:induction false} SlotsAreAble(ranked: seq<Ranked>, perLayer: real, layers: int)
    requires 0 < layers
    ensures var slots, able := Slots(ranked, perLayer, layers), Able(ranked, perLayer);
      && |slots| == |able| && CapSum(slots) >= 0
      && forall i :: 0 <= i < |slots| ==>
           slots[i].node == able[i] && slots[i].cap == LayerCapacity(able[i].vram, perLayer, layers) && slots[i].cap > 0
  {
    if ranked != [] {
      SlotsAreAble(ranked[..|ranked| - 1], perLayer, layers);
      CapacityIsMost(ranked[|ranked| - 1].vram, perLayer, layers, 1);
      SlotsStep(ranked, perLayer, layers);
    }
  }

  lemma {:induction false} GreedyShare(slots: seq<Slot>, layers: int, perLayer: real, i: nat)
    requires 0 < layers && Positive(slots) && i < |Greedy(slots, layers)|
    requires forall k :: 0 <= k < |slots| ==> slots[k].cap == LayerCapacity(slots[k].node.vram, perLayer, layers)
    ensures i < |slots| && Greedy(slots, layers)[i].slot == slots[i] && 0 < Greedy(slots, layers)[i].count
    ensures CanHold(slots[i].node.vram, perLayer, Greedy(slots, layers)[i].count)
    ensures perLayer > 0.0 && i < |Greedy(slots, layers)| - 1 ==>
      !CanHold(slots[i].node.vram, perLayer, Greedy(slots, layers)[i].count + 1)
  {
    GreedyFills(slots, layers);
    CapacityIsMost(slots[i].node.vram, perLayer, layers, Greedy(slots, layers)[i].count);
    CapacityIsMost(slots[i].node.vram, perLayer, layers, Greedy(slots, layers)[i].count + 1);
  }

  lemma {:induction false} BuiltStage(allocs: seq<Alloc>, model: string, i: nat)
    requires i < |allocs|
    ensures Width(Build(allocs, model)[i]) == allocs[i].count && Build(allocs, model)[i].node == allocs[i].slot.node.id
  {
    assert Build(allocs, model)[i] == StageFor(allocs, model, i);
  }

  /** Stage `i` sits on the `i`-th able node, which can hold it, and unless it is the last could hold no more. */
  predicate Packed(stages: seq<Stage>, able: seq<Ranked>, perLayer: real, i: nat)
    requires i < |stages|
  {
    && i < |able| && stages[i].node == able[i].id && CanHold(able[i].vram, perLayer, Width(stages[i]))
    && (perLayer > 0.0 && i < |stages| - 1 ==> !CanHold(able[i].vram, perLayer, Width(stages[i]) + 1))
  }

  lemma {:induction false} BuildIsPacked(ranked: seq<Ranked>, perLayer: real, layers: int, model: string, i: nat)
    requires 0 < layers && i < |Greedy(Slots(ranked, perLayer, layers), layers)|
    ensures Packed(Build(Greedy(Slots(ranked, perLayer, layers), layers), model), Able(ranked, perLayer), perLayer, i)
  {
    var slots := Slots(ranked, perLayer, layers);
    SlotsAreAble(ranked, perLayer, layers);
    GreedyShare(slots, layers, perLayer, i);
    BuiltStage(Greedy(slots, layers), model, i);
  }

  /** Greedy stages go to the able nodes in rank order, and each but the last takes all its node can hold. */
  lemma {:induction false} GreedyPacks(t: Task, ranked: seq<Ranked>)
    requires DistinctNodes(ranked) && AsksForNone(t) && Schedule(t, ranked).Ok?
    ensures var stages := Schedule(t, ranked).value;
      forall i :: 0 <= i < |stages| ==> Packed(stages, Able(ranked, t.perLayer), t.perLayer, i)
  {
    GreedyScheduleIff(t, ranked);
    GreedyScheduleSucceeds(t, ranked);
    var stages := Build(Greedy(Slots(ranked, t.perLayer, t.layers), t.layers), t.model);
    forall i | 0 <= i < |stages| ensures Packed(stages, Able(ranked, t.perLayer), t.perLayer, i) {
      BuildIsPacked(ranked, t.perLayer, t.layers, t.model, i);
    }
  }

  // ---- fixed-stage mode ----

  /** The `i`-th of `n` even shares: the first ones take the remainder. */
  function Share(layers: int, n: int, i: int): int
    requires n > 0
  {
    layers / n + if i < layers % n then 1 else 0
  }

  lemma {:induction false} SharesWithinCapacity(slots: seq<Slot>, layers: nat, n: nat, k: nat)
    requires 0 < n <= |slots| && k <= n && Positive(slots)
    requires forall i :: 0 <= i < n ==> EvenCount(layers, n, i) <= slots[i].cap
    ensures CountSum(Even(slots, layers, n)[..k]) <= CapSum(slots[..k])
  {
    if k > 0 {
      SharesWithinCapacity(slots, layers, n, k - 1);
      PrefixSum(Even(slots, layers, n), k - 1);
      assert slots[..k][..k - 1] == slots[..k - 1];
    }
  }

  lemma {:induction false} MoreSlotsHoldMore(slots: seq<Slot>, k: nat)
    requires k <= |slots| && Positive(slots)
    ensures CapSum(slots[..k]) <= CapSum(slots)
    decreases |slots|
  {
    if k < |slots| {
      MoreSlotsHoldMore(slots[..|slots| - 1], k);
      assert slots[..|slots| - 1][..k] == slots[..k];
    } else {
      assert slots[..k] == slots;
    }
  }

  lemma {:induction false} SharesCover(slots: seq<Slot>, layers: nat, n: nat)
    requires 0 < n <= |slots| && Positive(slots)
    requires forall i :: 0 <= i < n ==> EvenCount(layers, n, i) <= slots[i].cap
    ensures layers <= CapSum(slots)
  {
    SharesWithinCapacity(slots, layers, n, n);
    EvenSharesAll(slots, layers, n);
    assert Even(slots, layers, n)[..n] == Even(slots, layers, n);
    MoreSlotsHoldMore(slots, n);
  }

  /** The first `n` able nodes can hold their even shares, of at least a layer each. */
  ghost predicate SharesFit(t: Task, able: seq<Ranked>, n: int) {
    && 0 < n <= |able| && n <= t.layers
    && forall i :: 0 <= i < n ==> CanHold(able[i].vram, t.perLayer, Share(t.layers, n, i))
  }

  lemma {:induction false} ShareFitsIff(t: Task, ranked: seq<Ranked>, n: int, i: int)
    requires 0 < n <= t.layers && 0 <= i < n <= |Able(ranked, t.perLayer)|
    ensures |Slots(ranked, t.perLayer, t.layers)| == |Able(ranked, t.perLayer)|
    ensures EvenCount(t.layers, n, i) <= Slots(ranked, t.perLayer, t.layers)[i].cap <==>
      CanHold(Able(ranked, t.perLayer)[i].vram, t.perLayer, Share(t.layers, n, i))
  {
    SlotsAreAble(ranked, t.perLayer, t.layers);
    EveryShareIsPositive(t.layers, n);
    CapacityIsMost(Able(ranked, t.perLayer)[i].vram, t.perLayer, t.layers, Share(t.layers, n, i));
    ShareWithinLayers(t.layers, n, i);
  }

  lemma {:induction false} ShareWithinLayers(layers: int, n: int, i: int)
    requires 0 < n <= layers && 0 <= i < n
    ensures Share(layers, n, i) <= layers
  {
    assert layers == layers / n * n + layers % n;
    assert layers / n >= 1;
    if n > 1 { QuotientShrinks(layers, n); }
  }

  lemma {:induction false} QuotientShrinks(x: int, n: int)
    requires 1 < n <= x
    ensures x / n + 1 <= x
  {
    var q := x / n;
    assert x == q * n + x % n;
    TwiceFits(q, n);
  }

  lemma TwiceFits(q: int, n: int)
    requires q >= 0 && n >= 2
    ensures q * 2 <= q * n
  {
  }

  lemma {:induction false} EvenFitsIff(t: Task, ranked: seq<Ranked>, n: int)
    requires 0 < t.layers
    ensures EvenFits(t, Slots(ranked, t.perLayer, t.layers), n) <==> SharesFit(t, Able(ranked, t.perLayer), n)
  {
    var slots, able := Slots(ranked, t.perLayer, t.layers), Able(ranked, t.perLayer);
    SlotsAreAble(ranked, t.perLayer, t.layers);
    if 0 < n <= |able| && n <= t.layers {
      forall i | 0 <= i < n
        ensures EvenCount(t.layers, n, i) <= slots[i].cap <==> CanHold(able[i].vram, t.perLayer, Share(t.layers, n, i))
      {
        ShareFitsIff(t, ranked, n, i);
      }
      if forall i :: 0 <= i < n ==> EvenCount(t.layers, n, i) <= slots[i].cap {
        SharesCover(slots, t.layers, n);
      }
    }
  }

  lemma {:induction false} EvenIsBuilt(t: Task, ranked: seq<Ranked>, n: int)
    requires AsksFor(t, n) && Schedule(t, ranked).Ok?
    ensures 0 < n <= |Slots(ranked, t.perLayer, t.layers)|
    ensures Schedule(t, ranked) == Ok(Build(Even(Slots(ranked, t.perLayer, t.layers), t.layers, n), t.model))
  {
  }

  lemma {:induction false} EvenGives(ranked: seq<Ranked>, t: Task, n: nat, i: nat)
    requires 0 < t.layers && i < n <= |Slots(ranked, t.perLayer, t.layers)|
    ensures var stages := Build(Even(Slots(ranked, t.perLayer, t.layers), t.layers, n), t.model);
      |stages| == n && Gives(t, stages[i], Able(ranked, t.perLayer), n, i)
  {
    SlotsAreAble(ranked, t.perLayer, t.layers);
    BuiltStage(Even(Slots(ranked, t.perLayer, t.layers), t.layers, n), t.model, i);
  }

  /** Fixed-stage mode succeeds exactly when the first able nodes can hold their even shares, and gives them those. */
  lemma {:induction false} EvenPlacesIff(t: Task, ranked: seq<Ranked>, n: int)
    requires DistinctNodes(ranked) && AsksFor(t, n)
    ensures Schedule(t, ranked).Ok? <==> SharesFit(t, Able(ranked, t.perLayer), n)
    ensures Schedule(t, ranked).Ok? ==> |Schedule(t, ranked).value| == n && forall i :: 0 <= i < n ==>
      Gives(t, Schedule(t, ranked).value[i], Able(ranked, t.perLayer), n, i)
  {
    EvenScheduleIff(t, ranked);
    if 0 < t.layers { EvenFitsIff(t, ranked, n); }
    if Schedule(t, ranked).Ok? {
      EvenIsBuilt(t, ranked, n);
      var stages := Build(Even(Slots(ranked, t.perLayer, t.layers), t.layers, n), t.model);
      forall i | 0 <= i < n ensures |stages| == n && Gives(t, stages[i], Able(ranked, t.perLayer), n, i) {
        EvenGives(ranked, t, n, i);
      }
    }
  }

  predicate Gives(t: Task, s: Stage, able: seq<Ranked>, n: int, i: int)
    requires n > 0
  {
    0 <= i < |able| && s.node == able[i].id && Width(s) == Share(t.layers, n, i)
  }

  // ---- split mode ----

  /** Split mode refuses two layers or more exactly when no assignment of all but one fits. */
  lemma {:induction false} SplitPlacesIff(model: string, layers: int, perLayer: real, ranked: seq<Ranked>)
    requires DistinctNodes(ranked)
    ensures ScheduleSplit(model, layers, perLayer, ranked).Ok? <==>
      2 <= layers && Assignable(ranked, perLayer, layers - 1)
    ensures ScheduleSplit(model, layers, perLayer, ranked).Err? ==>
      ScheduleSplit(model, layers, perLayer, ranked) == Err(Because(layers < 2, ranked == []))
  {
    SplitScheduleIff(model, layers, perLayer, ranked);
    if 2 <= layers { CoveredIffAssignable(ranked, perLayer, layers - 1); }
  }

  // ---- restitching ----

  lemma {:induction false} FirstOfFilter<T>(s: seq<T>, f: T -> bool) returns (k: nat)
    requires Filter(s, f) != []
    ensures k < |s| && f(s[k]) && Filter(s, f)[0] == s[k] && forall j :: 0 <= j < k ==> !f(s[j])
  {
    var init := s[..|s| - 1];
    if Filter(init, f) != [] {
      k := FirstOfFilter(init, f);
    } else {
      k := |s| - 1;
      forall j | 0 <= j < k ensures !f(s[j]) {
        FilterIn(init, f, s[j]);
        assert init[j] == s[j];
      }
    }
  }

  /** The first active node that has not failed takes over every stage of the failed one. */
  lemma {:induction false} FirstActiveTakesOver(stages: seq<Stage>, failed: string, active: seq<string>)
    returns (k: nat)
    requires Restitch(stages, failed, active).Ok?
    ensures k < |active| && active[k] != failed && forall j :: 0 <= j < k ==> active[j] == failed
    ensures var after := Restitch(stages, failed, active).value;
      |after| == |stages| && forall i :: 0 <= i < |stages| ==>
        after[i] == stages[i].(node := if stages[i].node == failed then active[k] else stages[i].node)
  {
    k := FirstOfFilter(active, (n: string) => n != failed);
  }
}
