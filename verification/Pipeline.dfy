/** Layer partitioning across nodes, and the validator every pipeline is held to. */
module PipelineModel {
  import opened Common
  import opened Sequences

  datatype LayerRange = LayerRange(start: int, end: int)

  datatype StageType = ClientEmbedding | RemoteHidden | ClientLmHead | Compute

  datatype Stage = Stage(index: int, total: int, layers: LayerRange, node: string, model: string,
                         local: bool, kind: StageType, split: bool)

  /** What constructing a `PipelineStage` and its `LayerRange` accepts. */
  predicate StageOk(s: Stage) {
    0 <= s.index < s.total && 0 <= s.layers.start <= s.layers.end
  }

  /** `PipelineConfig.validate_bounds`. */
  predicate ConfigValid(totalLayers: int, stages: seq<Stage>) {
    stages == [] ||
    (&& (forall i :: 0 <= i < |stages| ==> stages[i].index == i)
     && stages[0].layers.start == 0
     && Last(stages).layers.end == LastLayer(totalLayers, stages)
     && (forall i :: 0 <= i < |stages| - 1 ==> JoinedAt(stages, i)))
  }

  predicate JoinedAt(stages: seq<Stage>, i: nat)
    requires i < |stages| - 1
  {
    stages[i].layers.end + 1 == stages[i + 1].layers.start
  }

  /** A split pipeline numbers the client's LM head as one layer more. */
  function LastLayer(totalLayers: int, stages: seq<Stage>): int
    requires stages != []
  {
    if IsSplit(Last(stages)) then totalLayers else totalLayers - 1
  }

  function Last(stages: seq<Stage>): Stage
    requires stages != []
  {
    stages[|stages| - 1]
  }

  predicate IsSplit(s: Stage) {
    s.split || s.local || s.kind == ClientLmHead
  }

  // ---- what a valid pipeline means ----

  predicate Holds(s: Stage, layer: int) {
    s.layers.start <= layer <= s.layers.end
  }

  lemma {:induction false} StartsAscend(totalLayers: int, stages: seq<Stage>, i: nat, j: nat)
    requires ConfigValid(totalLayers, stages) && (forall k :: 0 <= k < |stages| ==> StageOk(stages[k]))
    requires i < j < |stages|
    ensures stages[i].layers.end < stages[j].layers.start
    decreases j
  {
    assert JoinedAt(stages, j - 1);
    if i < j - 1 { StartsAscend(totalLayers, stages, i, j - 1); }
  }

  lemma {:induction false} LayerIsHeld(totalLayers: int, stages: seq<Stage>, layer: nat, n: nat) returns (i: nat)
    requires ConfigValid(totalLayers, stages) && (forall k :: 0 <= k < |stages| ==> StageOk(stages[k]))
    requires n < |stages| && layer <= stages[n].layers.end
    ensures i <= n && Holds(stages[i], layer)
    decreases n
  {
    if stages[n].layers.start <= layer {
      i := n;
    } else {
      assert JoinedAt(stages, n - 1);
      i := LayerIsHeld(totalLayers, stages, layer, n - 1);
    }
  }

  /** The validator accepts only tilings: every layer is held by exactly one stage. */
  lemma {:induction false} ValidConfigTiles(totalLayers: int, stages: seq<Stage>, layer: int)
    requires stages != [] && ConfigValid(totalLayers, stages)
    requires forall k :: 0 <= k < |stages| ==> StageOk(stages[k])
    ensures (exists i :: 0 <= i < |stages| && Holds(stages[i], layer)) <==> 0 <= layer <= LastLayer(totalLayers, stages)
    ensures forall i, j :: 0 <= i < j < |stages| ==> !(Holds(stages[i], layer) && Holds(stages[j], layer))
  {
    forall i, j | 0 <= i < j < |stages| ensures stages[i].layers.end < stages[j].layers.start {
      StartsAscend(totalLayers, stages, i, j);
    }
    if 0 <= layer <= LastLayer(totalLayers, stages) {
      var i := LayerIsHeld(totalLayers, stages, layer, |stages| - 1);
    }
    forall i | 0 <= i < |stages| && Holds(stages[i], layer) ensures layer <= LastLayer(totalLayers, stages) {
      if i < |stages| - 1 { StartsAscend(totalLayers, stages, i, |stages| - 1); }
    }
  }

  // ---- capacities ----

  /** A ranked node with its available VRAM (heartbeat's figure, else the registered one). */
  datatype Ranked = Ranked(id: string, vram: real)

  datatype Slot = Slot(node: Ranked, cap: int)

  function LayerCapacity(vram: real, perLayer: real, layers: int): int {
    if perLayer > 0.0 then (vram / perLayer).Floor else layers
  }

  /** Ranked nodes that can hold at least one layer. */
  function Slots(ranked: seq<Ranked>, perLayer: real, layers: int): seq<Slot> {
    if ranked == [] then []
    else
      var init, n := Slots(ranked[..|ranked| - 1], perLayer, layers), ranked[|ranked| - 1];
      var cap := LayerCapacity(n.vram, perLayer, layers);
      if cap > 0 then init + [Slot(n, cap)] else init
  }

  function CapSum(slots: seq<Slot>): int {
    if slots == [] then 0 else CapSum(slots[..|slots| - 1]) + slots[|slots| - 1].cap
  }

  predicate DistinctNodes(ranked: seq<Ranked>) {
    forall i, j :: 0 <= i < j < |ranked| ==> ranked[i].id != ranked[j].id
  }

  ghost predicate SlotsOk(slots: seq<Slot>, perLayer: real) {
    && (forall i :: 0 <= i < |slots| ==> 0 < slots[i].cap && Fits(slots[i], slots[i].cap, perLayer))
    && (forall i, j :: 0 <= i < j < |slots| ==> slots[i].node.id != slots[j].node.id)
  }

  predicate Fits(s: Slot, layers: int, perLayer: real) {
    perLayer > 0.0 ==> layers as real * perLayer <= s.node.vram
  }

  lemma ScaleUp(x: real, y: real, c: real)
    requires x <= y && c >= 0.0
    ensures x * c <= y * c
  {
  }

  lemma {:induction false} FloorFits(vram: real, perLayer: real, layers: int)
    requires perLayer > 0.0 && layers <= (vram / perLayer).Floor
    ensures layers as real * perLayer <= vram
  {
    ScaleUp(layers as real, vram / perLayer, perLayer);
  }

  lemma {:induction false} SlotsAreOk(ranked: seq<Ranked>, perLayer: real, layers: int)
    requires DistinctNodes(ranked)
    ensures SlotsOk(Slots(ranked, perLayer, layers), perLayer)
    ensures forall i :: 0 <= i < |Slots(ranked, perLayer, layers)| ==> Slots(ranked, perLayer, layers)[i].node in ranked
  {
    if ranked != [] {
      var init, n := ranked[..|ranked| - 1], ranked[|ranked| - 1];
      SlotsAreOk(init, perLayer, layers);
      var cap := LayerCapacity(n.vram, perLayer, layers);
      if perLayer > 0.0 { FloorFits(n.vram, perLayer, cap); }
      assert forall i :: 0 <= i < |init| ==> init[i].id != n.id;
    }
  }

  // ---- the two partitions ----

  datatype Alloc = Alloc(slot: Slot, count: int)

  function CountSum(allocs: seq<Alloc>): int {
    if allocs == [] then 0 else CountSum(allocs[..|allocs| - 1]) + allocs[|allocs| - 1].count
  }

  function Min(a: int, b: int): int { if a <= b then a else b }

  /** Fill nodes in rank order until no layer remains. */
  function Greedy(slots: seq<Slot>, layers: int): seq<Alloc> {
    if slots == [] then []
    else
      var before, s := Greedy(slots[..|slots| - 1], layers), slots[|slots| - 1];
      var remaining := layers - CountSum(before);
      if remaining <= 0 then before else before + [Alloc(s, Min(remaining, s.cap))]
  }

  ghost predicate Positive(slots: seq<Slot>) {
    forall i :: 0 <= i < |slots| ==> 0 < slots[i].cap
  }

  lemma {:induction false} GreedySum(slots: seq<Slot>, layers: int)
    requires 0 < layers && Positive(slots)
    ensures CountSum(Greedy(slots, layers)) == Min(layers, CapSum(slots))
    ensures |Greedy(slots, layers)| <= |slots|
    ensures CapSum(slots) < layers ==> |Greedy(slots, layers)| == |slots|
  {
    if slots != [] {
      var init := slots[..|slots| - 1];
      GreedySum(init, layers);
      var before, g := Greedy(init, layers), Greedy(slots, layers);
      assert g != before ==> g[..|g| - 1] == before;
    }
  }

  // Once the layers fit, a further node changes nothing; until then it takes what remains or all it can.
  lemma {:induction false} GreedyStep(slots: seq<Slot>, layers: int)
    requires 0 < layers && slots != [] && Positive(slots)
    ensures var init, s := slots[..|slots| - 1], slots[|slots| - 1];
      if layers <= CapSum(init) then Greedy(slots, layers) == Greedy(init, layers)
      else |Greedy(init, layers)| == |init| &&
           Greedy(slots, layers) == Greedy(init, layers) + [Alloc(s, Min(layers - CapSum(init), s.cap))]
  {
    GreedySum(slots[..|slots| - 1], layers);
  }

  // Every stage but the last takes its node's whole capacity.
  ghost predicate FullButLast(slots: seq<Slot>, g: seq<Alloc>) {
    && |g| <= |slots|
    && (forall i :: 0 <= i < |g| ==> g[i].slot == slots[i] && 0 < g[i].count <= slots[i].cap)
    && (forall i :: 0 <= i < |g| - 1 ==> g[i].count == slots[i].cap)
  }

  ghost predicate AllFull(slots: seq<Slot>, g: seq<Alloc>) {
    |g| <= |slots| && forall i :: 0 <= i < |g| ==> g[i].count == slots[i].cap
  }

  lemma {:induction false} OneMoreSlot(slots: seq<Slot>, s: Slot, g: seq<Alloc>)
    requires FullButLast(slots, g)
    ensures FullButLast(slots + [s], g)
  {
  }

  lemma {:induction false} OneMoreShare(slots: seq<Slot>, s: Slot, g: seq<Alloc>, count: int)
    requires FullButLast(slots, g) && AllFull(slots, g) && |g| == |slots| && 0 < count <= s.cap
    ensures FullButLast(slots + [s], g + [Alloc(s, count)])
    ensures count == s.cap ==> AllFull(slots + [s], g + [Alloc(s, count)])
  {
  }

  lemma {:induction false} GreedyFills(slots: seq<Slot>, layers: int)
    requires 0 < layers && Positive(slots)
    ensures FullButLast(slots, Greedy(slots, layers))
    ensures CapSum(slots) <= layers ==> AllFull(slots, Greedy(slots, layers))
  {
    if slots != [] {
      var init, s := slots[..|slots| - 1], slots[|slots| - 1];
      assert slots == init + [s];
      GreedyFills(init, layers);
      GreedyStep(slots, layers);
      if layers <= CapSum(init) {
        OneMoreSlot(init, s, Greedy(init, layers));
      } else {
        OneMoreShare(init, s, Greedy(init, layers), Min(layers - CapSum(init), s.cap));
      }
    }
  }

  /**
   Greedy uses the shortest sufficient prefix of the capacity list: without its last node the
   layers would not fit.
   */
  lemma {:induction false} GreedyIsShortest(slots: seq<Slot>, layers: int)
    requires 0 < layers <= CapSum(slots) && Positive(slots)
    ensures var n := |Greedy(slots, layers)|;
      0 < n <= |slots| && CapSum(slots[..n - 1]) < layers <= CapSum(slots[..n])
  {
    var init, n := slots[..|slots| - 1], |Greedy(slots, layers)|;
    GreedySum(init, layers);
    GreedySum(slots, layers);
    if CapSum(init) >= layers {
      GreedyIsShortest(init, layers);
      assert slots[..n] == init[..n] && slots[..n - 1] == init[..n - 1];
    } else {
      assert slots[..n] == slots && slots[..n - 1] == init;
    }
  }

  function EvenCount(layers: int, stages: int, i: int): int
    requires stages > 0
  {
    layers / stages + if i < layers % stages then 1 else 0
  }

  function Even(slots: seq<Slot>, layers: int, stages: nat): seq<Alloc>
    requires 0 < stages <= |slots|
  {
    seq(stages, (i: nat) requires i < stages => Alloc(slots[i], EvenCount(layers, stages, i)))
  }

  lemma {:induction false} EvenPrefix(slots: seq<Slot>, layers: nat, stages: nat, n: nat)
    requires 0 < stages <= |slots| && n <= stages
    ensures CountSum(Even(slots, layers, stages)[..n]) == (layers / stages) * n + Min(n, layers % stages)
  {
    if n > 0 {
      var e := Even(slots, layers, stages);
      EvenPrefix(slots, layers, stages, n - 1);
      assert e[..n][..n - 1] == e[..n - 1] && e[..n][n - 1] == e[n - 1];
      assert (layers / stages) * n == (layers / stages) * (n - 1) + layers / stages;
    }
  }

  /** The even partition hands out every layer, and no two stages differ by more than one. */
  lemma {:induction false} EvenSharesAll(slots: seq<Slot>, layers: nat, stages: nat)
    requires 0 < stages <= |slots|
    ensures CountSum(Even(slots, layers, stages)) == layers
    ensures forall i, j :: 0 <= i < stages && 0 <= j < stages ==>
      Even(slots, layers, stages)[i].count <= Even(slots, layers, stages)[j].count + 1
  {
    EvenPrefix(slots, layers, stages, stages);
    assert Even(slots, layers, stages)[..stages] == Even(slots, layers, stages);
  }

  // ---- building stages ----

  function StageFor(allocs: seq<Alloc>, model: string, i: nat): Stage
    requires i < |allocs|
  {
    var start, node := CountSum(allocs[..i]), allocs[i].slot.node.id;
    Stage(i, |allocs|, LayerRange(start, start + allocs[i].count - 1), node, model, false, Compute, false)
  }

  function Build(allocs: seq<Alloc>, model: string): seq<Stage> {
    seq(|allocs|, (i: nat) requires i < |allocs| => StageFor(allocs, model, i))
  }

  lemma {:induction false} PrefixSum(allocs: seq<Alloc>, n: nat)
    requires n < |allocs|
    ensures CountSum(allocs[..n + 1]) == CountSum(allocs[..n]) + allocs[n].count
  {
    assert allocs[..n + 1][..n] == allocs[..n];
  }

  lemma {:induction false} PrefixSumsPositive(allocs: seq<Alloc>, n: nat)
    requires n <= |allocs| && forall i :: 0 <= i < |allocs| ==> 0 < allocs[i].count
    ensures 0 <= CountSum(allocs[..n])
  {
    if n > 0 {
      PrefixSum(allocs, n - 1);
      PrefixSumsPositive(allocs, n - 1);
    }
  }

  /** Positive shares adding up to the layer count build a pipeline the validator accepts. */
  lemma {:induction false} BuildIsValid(allocs: seq<Alloc>, model: string, layers: int)
    requires allocs != [] && CountSum(allocs) == layers
    requires forall i :: 0 <= i < |allocs| ==> 0 < allocs[i].count
    ensures ConfigValid(layers, Build(allocs, model))
    ensures forall i :: 0 <= i < |allocs| ==> StageOk(Build(allocs, model)[i])
  {
    var n := |allocs|;
    assert allocs[..n] == allocs;
    PrefixSum(allocs, n - 1);
    forall i | 0 <= i < n ensures StageOk(Build(allocs, model)[i]) { PrefixSumsPositive(allocs, i); }
    forall i | 0 <= i < n - 1
      ensures JoinedAt(Build(allocs, model), i)
    {
      PrefixSum(allocs, i);
    }
  }

  // ---- scheduling ----

  datatype Refusal =
    | BadLayerCount | NoEligibleNode | InsufficientCluster | BadStageCount | TooFewNodes
    | NodeTooSmall | LayersRemain | InvalidStage | InvalidBoundary

  datatype Task = Task(model: string, layers: int, perLayer: real, numStages: Option<int>, targetStages: Option<int>)

  /** An absent or zero `num_stages` defers to `target_stages`. */
  function Requested(t: Task): Option<int> {
    if t.numStages.Some? && t.numStages.value != 0 then t.numStages else t.targetStages
  }

  function Finish(allocs: seq<Alloc>, model: string): Result<seq<Stage>, Refusal> {
    if exists i :: 0 <= i < |allocs| && !StageOk(StageFor(allocs, model, i)) then Err(InvalidStage)
    else Ok(Build(allocs, model))
  }

  function Schedule(t: Task, ranked: seq<Ranked>): Result<seq<Stage>, Refusal> {
    var slots := Slots(ranked, t.perLayer, t.layers);
    if t.layers <= 0 then Err(BadLayerCount)
    else if ranked == [] then Err(NoEligibleNode)
    else if CapSum(slots) < t.layers then Err(InsufficientCluster)
    else if Requested(t).Some? then
      var n := Requested(t).value;
      if n <= 0 then Err(BadStageCount)
      else if |slots| < n then Err(TooFewNodes)
      else if exists i :: 0 <= i < n && Even(slots, t.layers, n)[i].count > slots[i].cap then Err(NodeTooSmall)
      else Finish(Even(slots, t.layers, n), t.model)
    else
      var allocs := Greedy(slots, t.layers);
      if CountSum(allocs) < t.layers then Err(LayersRemain) else Finish(allocs, t.model)
  }

  function Width(s: Stage): int { s.layers.end - s.layers.start + 1 }

  /** The stage sits on a ranked node whose available VRAM covers its layers. */
  ghost predicate Placed(perLayer: real, ranked: seq<Ranked>, s: Stage) {
    exists n :: n in ranked && n.id == s.node && (perLayer > 0.0 ==> Width(s) as real * perLayer <= n.vram)
  }

  ghost predicate DistinctStages(stages: seq<Stage>) {
    forall i, j :: 0 <= i < j < |stages| ==> stages[i].node != stages[j].node
  }

  ghost predicate GoodPipeline(t: Task, ranked: seq<Ranked>, stages: seq<Stage>) {
    && stages != [] && ConfigValid(t.layers, stages) && !IsSplit(Last(stages))
    && (forall i :: 0 <= i < |stages| ==> StageOk(stages[i]) && Placed(t.perLayer, ranked, stages[i]))
    && (forall i :: 0 <= i < |stages| ==> Remote(stages[i], |stages|, t.model))
    && DistinctStages(stages)
  }

  /** An ordinary stage of this model in a pipeline of `total`. */
  predicate Remote(s: Stage, total: int, model: string) {
    s.total == total && s.model == model && !s.local && s.kind == Compute && !s.split
  }

  lemma {:induction false} FitsFewer(s: Slot, cap: int, layers: int, perLayer: real)
    requires Fits(s, cap, perLayer) && layers <= cap
    ensures Fits(s, layers, perLayer)
  {
    if perLayer > 0.0 { ScaleUp(layers as real, cap as real, perLayer); }
  }

  // Shares within the slots' capacities, in the slots' order.
  ghost predicate Within(slots: seq<Slot>, allocs: seq<Alloc>) {
    && 0 < |allocs| <= |slots|
    && forall i :: 0 <= i < |allocs| ==> allocs[i].slot == slots[i] && 0 < allocs[i].count <= slots[i].cap
  }

  lemma {:induction false} StageIsPlaced(perLayer: real, ranked: seq<Ranked>, slots: seq<Slot>, allocs: seq<Alloc>,
                                         i: nat, s: Stage)
    requires SlotsOk(slots, perLayer) && (forall k :: 0 <= k < |slots| ==> slots[k].node in ranked)
    requires Within(slots, allocs) && i < |allocs|
    requires s.node == allocs[i].slot.node.id && Width(s) == allocs[i].count
    ensures Placed(perLayer, ranked, s)
  {
    FitsFewer(slots[i], slots[i].cap, allocs[i].count, perLayer);
    assert slots[i].node in ranked && slots[i].node.id == s.node;
  }

  lemma {:induction false} BuildIsGood(t: Task, ranked: seq<Ranked>, slots: seq<Slot>, allocs: seq<Alloc>)
    requires SlotsOk(slots, t.perLayer) && (forall k :: 0 <= k < |slots| ==> slots[k].node in ranked)
    requires Within(slots, allocs) && CountSum(allocs) == t.layers
    ensures GoodPipeline(t, ranked, Build(allocs, t.model))
    ensures Finish(allocs, t.model) == Ok(Build(allocs, t.model))
  {
    BuildIsValid(allocs, t.model, t.layers);
    var stages := Build(allocs, t.model);
    forall i | 0 <= i < |stages| ensures StageOk(stages[i]) && Placed(t.perLayer, ranked, stages[i]) {
      StageIsPlaced(t.perLayer, ranked, slots, allocs, i, stages[i]);
    }
    assert forall i :: 0 <= i < |stages| ==> stages[i] == StageFor(allocs, t.model, i);
  }

  /** The layers fit on the first `n` nodes of the list and on no fewer. */
  ghost predicate ShortestPrefix(slots: seq<Slot>, n: nat, layers: int) {
    0 < n <= |slots| && CapSum(slots[..n - 1]) < layers <= CapSum(slots[..n])
  }

  lemma {:induction false} GreedyAllocates(slots: seq<Slot>, layers: int)
    requires 0 < layers <= CapSum(slots) && Positive(slots)
    ensures Within(slots, Greedy(slots, layers)) && CountSum(Greedy(slots, layers)) == layers
    ensures ShortestPrefix(slots, |Greedy(slots, layers)|, layers)
  {
    GreedySum(slots, layers);
    GreedyFills(slots, layers);
    GreedyIsShortest(slots, layers);
  }

  ghost predicate InOrder(slots: seq<Slot>, stages: seq<Stage>) {
    |stages| <= |slots| && forall i :: 0 <= i < |stages| ==> stages[i].node == slots[i].node.id
  }

  lemma {:induction false} BuildInOrder(slots: seq<Slot>, allocs: seq<Alloc>, model: string)
    requires Within(slots, allocs)
    ensures InOrder(slots, Build(allocs, model)) && |Build(allocs, model)| == |allocs|
  {
    var stages := Build(allocs, model);
    assert forall i :: 0 <= i < |stages| ==> stages[i].node == allocs[i].slot.node.id;
  }

  lemma {:induction false} GreedyScheduleSucceeds(t: Task, ranked: seq<Ranked>)
    requires DistinctNodes(ranked) && Requested(t) == None
    requires 0 < t.layers <= CapSum(Slots(ranked, t.perLayer, t.layers))
    ensures Schedule(t, ranked) == Ok(Build(Greedy(Slots(ranked, t.perLayer, t.layers), t.layers), t.model))
    ensures GoodPipeline(t, ranked, Schedule(t, ranked).value)
  {
    var slots := Slots(ranked, t.perLayer, t.layers);
    SlotsAreOk(ranked, t.perLayer, t.layers);
    GreedyAllocates(slots, t.layers);
    BuildIsGood(t, ranked, slots, Greedy(slots, t.layers));
  }

  /** Greedy mode succeeds exactly when the cluster can hold the layers, on the shortest prefix of nodes. */
  lemma {:induction false} GreedyScheduleIff(t: Task, ranked: seq<Ranked>)
    requires DistinctNodes(ranked) && Requested(t) == None
    ensures Schedule(t, ranked).Ok? <==> 0 < t.layers <= CapSum(Slots(ranked, t.perLayer, t.layers))
    ensures Schedule(t, ranked).Ok? ==>
      var slots, stages := Slots(ranked, t.perLayer, t.layers), Schedule(t, ranked).value;
      GoodPipeline(t, ranked, stages) && InOrder(slots, stages) && ShortestPrefix(slots, |stages|, t.layers)
  {
    var slots := Slots(ranked, t.perLayer, t.layers);
    if 0 < t.layers <= CapSum(slots) {
      GreedyScheduleSucceeds(t, ranked);
      SlotsAreOk(ranked, t.perLayer, t.layers);
      GreedyAllocates(slots, t.layers);
      BuildInOrder(slots, Greedy(slots, t.layers), t.model);
    }
  }

  /** The check after the greedy loop can never fail. */
  lemma {:induction false} LayersNeverRemain(t: Task, ranked: seq<Ranked>)
    requires DistinctNodes(ranked)
    ensures Schedule(t, ranked) != Err(LayersRemain)
  {
    if Requested(t) == None && 0 < t.layers <= CapSum(Slots(ranked, t.perLayer, t.layers)) {
      GreedyScheduleSucceeds(t, ranked);
    }
  }

  ghost predicate EvenFits(t: Task, slots: seq<Slot>, n: int) {
    && 0 < n <= |slots| && n <= t.layers <= CapSum(slots)
    && forall i :: 0 <= i < n ==> EvenCount(t.layers, n, i) <= slots[i].cap
  }

  // More stages than layers leaves an empty stage, which cannot be constructed.
  lemma {:induction false} EmptyStageIsRefused(t: Task, slots: seq<Slot>, n: nat)
    requires 0 < t.layers < n <= |slots|
    ensures Finish(Even(slots, t.layers, n), t.model) == Err(InvalidStage)
  {
    var e := Even(slots, t.layers, n);
    assert e[n - 1].count == 0;
    assert !StageOk(StageFor(e, t.model, n - 1));
  }

  lemma {:induction false} EvenScheduleFails(t: Task, ranked: seq<Ranked>)
    requires Requested(t).Some? && !EvenFits(t, Slots(ranked, t.perLayer, t.layers), Requested(t).value)
    ensures Schedule(t, ranked).Err?
  {
    var slots, n := Slots(ranked, t.perLayer, t.layers), Requested(t).value;
    if 0 < t.layers <= CapSum(slots) && 0 < n <= |slots| {
      if t.layers < n {
        EmptyStageIsRefused(t, slots, n);
      } else {
        var i :| 0 <= i < n && EvenCount(t.layers, n, i) > slots[i].cap;
        assert Even(slots, t.layers, n)[i].count > slots[i].cap;
      }
    }
  }

  ghost predicate EvenlyShared(stages: seq<Stage>) {
    forall i, j :: 0 <= i < |stages| && 0 <= j < |stages| ==> Width(stages[i]) <= Width(stages[j]) + 1
  }

  lemma {:induction false} EvenAllocates(t: Task, slots: seq<Slot>, n: nat)
    requires EvenFits(t, slots, n)
    ensures Within(slots, Even(slots, t.layers, n)) && CountSum(Even(slots, t.layers, n)) == t.layers
    ensures EvenlyShared(Build(Even(slots, t.layers, n), t.model))
  {
    var e := Even(slots, t.layers, n);
    EvenSharesAll(slots, t.layers, n);
    EveryShareIsPositive(t.layers, n);
    assert forall i :: 0 <= i < n ==> Width(Build(e, t.model)[i]) == e[i].count;
  }

  lemma {:induction false} EvenScheduleSucceeds(t: Task, ranked: seq<Ranked>)
    requires DistinctNodes(ranked) && Requested(t).Some?
    requires EvenFits(t, Slots(ranked, t.perLayer, t.layers), Requested(t).value)
    ensures Schedule(t, ranked).Ok? && GoodPipeline(t, ranked, Schedule(t, ranked).value)
    ensures |Schedule(t, ranked).value| == Requested(t).value && EvenlyShared(Schedule(t, ranked).value)
  {
    var slots, n := Slots(ranked, t.perLayer, t.layers), Requested(t).value;
    SlotsAreOk(ranked, t.perLayer, t.layers);
    EvenAllocates(t, slots, n);
    BuildIsGood(t, ranked, slots, Even(slots, t.layers, n));
  }

  /** Fixed-stage mode: exactly when it succeeds, and how evenly it then shares. */
  lemma {:induction false} EvenScheduleIff(t: Task, ranked: seq<Ranked>)
    requires DistinctNodes(ranked) && Requested(t).Some?
    ensures Schedule(t, ranked).Ok? <==> EvenFits(t, Slots(ranked, t.perLayer, t.layers), Requested(t).value)
    ensures Schedule(t, ranked).Ok? ==>
      var stages := Schedule(t, ranked).value;
      GoodPipeline(t, ranked, stages) && |stages| == Requested(t).value && EvenlyShared(stages)
  {
    if EvenFits(t, Slots(ranked, t.perLayer, t.layers), Requested(t).value) {
      EvenScheduleSucceeds(t, ranked);
    } else {
      EvenScheduleFails(t, ranked);
    }
  }

  lemma {:induction false} EveryShareIsPositive(layers: int, stages: int)
    requires 0 < stages <= layers
    ensures forall i :: 0 <= i < stages ==> 0 < EvenCount(layers, stages, i)
  {
    assert layers / stages >= 1;
  }

  // ---- split inference: the client keeps the embedding and the head ----

  const CLIENT := "client_local"

  function RemoteStage(allocs: seq<Alloc>, model: string, i: nat): Stage
    requires i < |allocs|
  {
    var start := 1 + CountSum(allocs[..i]);
    Stage(i + 1, |allocs| + 2, LayerRange(start, start + allocs[i].count - 1), allocs[i].slot.node.id, model,
          false, RemoteHidden, true)
  }

  function SplitStages(allocs: seq<Alloc>, model: string, layers: int): seq<Stage> {
    var n := |allocs| + 2;
    [Stage(0, n, LayerRange(0, 0), CLIENT, model, true, ClientEmbedding, true)] +
    seq(|allocs|, (i: nat) requires i < |allocs| => RemoteStage(allocs, model, i)) +
    [Stage(n - 1, n, LayerRange(layers, layers), CLIENT, model, true, ClientLmHead, true)]
  }

  /** The validation block that closes `schedule_split_inference_pipeline`. */
  predicate BoundaryOk(stages: seq<Stage>, layers: int)
    requires |stages| >= 3
  {
    var first, head := stages[0], Last(stages);
    && first.local && first.kind == ClientEmbedding && first.node == CLIENT && first.layers == LayerRange(0, 0)
    && head.local && head.kind == ClientLmHead && head.node == CLIENT && head.layers == LayerRange(layers, layers)
    && stages[1].layers.start == 1
    && (forall i :: 1 <= i < |stages| - 2 ==> JoinedAt(stages, i))
    && stages[|stages| - 2].layers.end == layers - 1
    && (forall i :: 1 <= i < |stages| - 1 ==> !stages[i].local && stages[i].kind == RemoteHidden && stages[i].split)
  }

  function ScheduleSplit(model: string, layers: int, perLayer: real, ranked: seq<Ranked>): Result<seq<Stage>, Refusal> {
    var remote := layers - 1;
    var slots := Slots(ranked, perLayer, remote);
    if layers < 2 then Err(BadLayerCount)
    else if ranked == [] then Err(NoEligibleNode)
    else if CapSum(slots) < remote then Err(InsufficientCluster)
    else
      var allocs := Greedy(slots, remote);
      if CountSum(allocs) < remote then Err(LayersRemain)
      else
        var stages := SplitStages(allocs, model, layers);
        if exists i :: 0 <= i < |stages| && !StageOk(stages[i]) then Err(InvalidStage)
        else if |stages| < 3 || !BoundaryOk(stages, layers) then Err(InvalidBoundary)
        else Ok(stages)
  }

  lemma {:induction false} SplitStageAt(allocs: seq<Alloc>, model: string, layers: int, i: nat)
    requires 0 < i <= |allocs|
    ensures SplitStages(allocs, model, layers)[i] == RemoteStage(allocs, model, i - 1)
  {
  }

  lemma {:induction false} SplitStageOk(allocs: seq<Alloc>, model: string, layers: int, i: nat)
    requires CountSum(allocs) == layers - 1 && (forall k :: 0 <= k < |allocs| ==> 0 < allocs[k].count)
    requires i < |allocs| + 2
    ensures StageOk(SplitStages(allocs, model, layers)[i]) && SplitStages(allocs, model, layers)[i].index == i
  {
    assert allocs[..|allocs|] == allocs;
    PrefixSumsPositive(allocs, |allocs|);
    if 0 < i <= |allocs| {
      SplitStageAt(allocs, model, layers, i);
      PrefixSumsPositive(allocs, i - 1);
    }
  }

  lemma {:induction false} SplitStageJoins(allocs: seq<Alloc>, model: string, layers: int, i: nat)
    requires allocs != [] && CountSum(allocs) == layers - 1 && i <= |allocs|
    ensures JoinedAt(SplitStages(allocs, model, layers), i)
  {
    assert allocs[..|allocs|] == allocs;
    if i > 0 {
      SplitStageAt(allocs, model, layers, i);
      PrefixSum(allocs, i - 1);
    }
    if i < |allocs| { SplitStageAt(allocs, model, layers, i + 1); }
  }

  lemma {:induction false} SplitStagesJoin(allocs: seq<Alloc>, model: string, layers: int)
    requires allocs != [] && CountSum(allocs) == layers - 1
    requires forall i :: 0 <= i < |allocs| ==> 0 < allocs[i].count
    ensures var stages := SplitStages(allocs, model, layers);
      && (forall i :: 0 <= i < |stages| ==> StageOk(stages[i]) && stages[i].index == i)
      && (forall i :: 0 <= i < |stages| - 1 ==> JoinedAt(stages, i))
  {
    var stages := SplitStages(allocs, model, layers);
    forall i | 0 <= i < |stages| ensures StageOk(stages[i]) && stages[i].index == i {
      SplitStageOk(allocs, model, layers, i);
    }
    forall i | 0 <= i < |stages| - 1 ensures JoinedAt(stages, i) { SplitStageJoins(allocs, model, layers, i); }
  }

  /** What the validators ask of a split pipeline: the engine's own and the configuration's. */
  ghost predicate GoodSplit(model: string, layers: int, stages: seq<Stage>) {
    && |stages| >= 3 && BoundaryOk(stages, layers) && ConfigValid(layers, stages) && IsSplit(Last(stages))
    && forall i :: 0 <= i < |stages| ==> StageOk(stages[i]) && stages[i].total == |stages| && stages[i].model == model
  }

  lemma {:induction false} SplitStagesPass(allocs: seq<Alloc>, model: string, layers: int)
    requires allocs != [] && CountSum(allocs) == layers - 1
    requires forall i :: 0 <= i < |allocs| ==> 0 < allocs[i].count
    ensures GoodSplit(model, layers, SplitStages(allocs, model, layers))
  {
    SplitStagesJoin(allocs, model, layers);
    var stages := SplitStages(allocs, model, layers);
    assert JoinedAt(stages, 0) && JoinedAt(stages, |stages| - 2);
    assert forall i :: 1 <= i < |stages| - 1 ==> stages[i] == RemoteStage(allocs, model, i - 1);
  }

  /** Every stage that is not the client's is placed on a ranked node, and no node holds two. */
  ghost predicate RemotePlaced(perLayer: real, ranked: seq<Ranked>, stages: seq<Stage>) {
    && (forall i :: 1 <= i < |stages| - 1 ==> Placed(perLayer, ranked, stages[i]))
    && (forall i, j :: 1 <= i < j < |stages| - 1 ==> stages[i].node != stages[j].node)
  }

  lemma {:induction false} SplitStagesPlaced(perLayer: real, ranked: seq<Ranked>, slots: seq<Slot>, allocs: seq<Alloc>,
                                             model: string, layers: int)
    requires SlotsOk(slots, perLayer) && (forall k :: 0 <= k < |slots| ==> slots[k].node in ranked)
    requires Within(slots, allocs)
    ensures RemotePlaced(perLayer, ranked, SplitStages(allocs, model, layers))
  {
    var stages := SplitStages(allocs, model, layers);
    assert forall i :: 1 <= i < |stages| - 1 ==> stages[i] == RemoteStage(allocs, model, i - 1);
    forall i | 1 <= i < |stages| - 1 ensures Placed(perLayer, ranked, stages[i]) {
      StageIsPlaced(perLayer, ranked, slots, allocs, i - 1, stages[i]);
    }
  }

  lemma {:induction false} SplitSucceeds(model: string, layers: int, perLayer: real, ranked: seq<Ranked>)
    requires DistinctNodes(ranked) && 2 <= layers <= CapSum(Slots(ranked, perLayer, layers - 1)) + 1
    ensures ScheduleSplit(model, layers, perLayer, ranked) ==
      Ok(SplitStages(Greedy(Slots(ranked, perLayer, layers - 1), layers - 1), model, layers))
    ensures var stages := ScheduleSplit(model, layers, perLayer, ranked).value;
      GoodSplit(model, layers, stages) && RemotePlaced(perLayer, ranked, stages)
  {
    var slots := Slots(ranked, perLayer, layers - 1);
    SlotsAreOk(ranked, perLayer, layers - 1);
    GreedyAllocates(slots, layers - 1);
    SplitStagesPass(Greedy(slots, layers - 1), model, layers);
    SplitStagesPlaced(perLayer, ranked, slots, Greedy(slots, layers - 1), model, layers);
  }

  /** The closing validation and every later raise are unreachable: capacity alone decides. */
  lemma {:induction false} SplitScheduleIff(model: string, layers: int, perLayer: real, ranked: seq<Ranked>)
    requires DistinctNodes(ranked)
    ensures ScheduleSplit(model, layers, perLayer, ranked).Ok? <==>
      2 <= layers <= CapSum(Slots(ranked, perLayer, layers - 1)) + 1
    ensures ScheduleSplit(model, layers, perLayer, ranked) !in
      {Err(LayersRemain), Err(InvalidStage), Err(InvalidBoundary)}
    ensures ScheduleSplit(model, layers, perLayer, ranked).Ok? ==>
      var stages := ScheduleSplit(model, layers, perLayer, ranked).value;
      GoodSplit(model, layers, stages) && RemotePlaced(perLayer, ranked, stages)
  {
    if 2 <= layers <= CapSum(Slots(ranked, perLayer, layers - 1)) + 1 {
      SplitSucceeds(model, layers, perLayer, ranked);
    }
  }

  // ---- restitching after an eviction ----

  function Move(s: Stage, failed: string, replacement: string): Stage {
    if s.node == failed then s.(node := replacement) else s
  }

  function MoveAll(stages: seq<Stage>, failed: string, replacement: string): seq<Stage> {
    seq(|stages|, (i: nat) requires i < |stages| => Move(stages[i], failed, replacement))
  }

  /** The first active node other than the failed one takes over. */
  function Restitch(stages: seq<Stage>, failed: string, active: seq<string>): Result<seq<Stage>, Refusal> {
    var available := Filter(active, (n: string) => n != failed);
    if available == [] then Err(NoEligibleNode) else Ok(MoveAll(stages, failed, available[0]))
  }

  lemma {:induction false} MoveKeepsTiling(stages: seq<Stage>, failed: string, replacement: string, totalLayers: int)
    ensures ConfigValid(totalLayers, stages) <==> ConfigValid(totalLayers, MoveAll(stages, failed, replacement))
  {
    var after := MoveAll(stages, failed, replacement);
    assert forall i :: 0 <= i < |stages| ==> after[i] == Move(stages[i], failed, replacement);
    forall i | 0 <= i < |stages| - 1 ensures JoinedAt(after, i) <==> JoinedAt(stages, i) {}
    if stages != [] {
      assert LastLayer(totalLayers, after) == LastLayer(totalLayers, stages);
    }
  }

  // Only the node changes, only where it failed, and only to an active node.
  predicate Moved(before: Stage, after: Stage, failed: string, active: seq<string>) {
    && after == before.(node := after.node) && after.node != failed
    && if before.node == failed then after.node in active else after == before
  }

  /** Restitching moves the failed node's stages and nothing else: the tiling stands, the node is gone. */
  lemma {:induction false} RestitchKeepsTiling(stages: seq<Stage>, failed: string, active: seq<string>,
                                               totalLayers: int)
    ensures Restitch(stages, failed, active).Ok? <==> exists n :: n in active && n != failed
    ensures Restitch(stages, failed, active).Ok? ==>
      var after := Restitch(stages, failed, active).value;
      && |after| == |stages|
      && (forall i :: 0 <= i < |stages| ==> Moved(stages[i], after[i], failed, active))
      && (ConfigValid(totalLayers, stages) <==> ConfigValid(totalLayers, after))
  {
    var keep := (n: string) => n != failed;
    var available := Filter(active, keep);
    forall n { FilterIn(active, keep, n); }
    if available != [] {
      assert available[0] in available;
      MoveKeepsTiling(stages, failed, available[0], totalLayers);
    }
  }

  // ---- what restitching does not check ----

  predicate OnNode(stages: seq<Stage>, node: string) {
    exists i :: 0 <= i < |stages| && stages[i].node == node
  }

  /** Stages stay on distinct nodes exactly when the failed node had none or its replacement had none. */
  lemma {:induction false} RestitchKeepsDistinctIff(stages: seq<Stage>, failed: string, replacement: string)
    requires DistinctStages(stages) && failed != replacement
    ensures DistinctStages(MoveAll(stages, failed, replacement)) <==>
      !OnNode(stages, failed) || !OnNode(stages, replacement)
  {
    var after := MoveAll(stages, failed, replacement);
    assert forall i :: 0 <= i < |stages| ==> after[i] == Move(stages[i], failed, replacement);
    if OnNode(stages, failed) && OnNode(stages, replacement) {
      var i :| 0 <= i < |stages| && stages[i].node == failed;
      var j :| 0 <= j < |stages| && stages[j].node == replacement;
      assert after[i].node == after[j].node;
    }
  }

  /** Layers a node holds. */
  function HeldBy(stages: seq<Stage>, node: string): int {
    if stages == [] then 0
    else
      var last := stages[|stages| - 1];
      HeldBy(stages[..|stages| - 1], node) + if last.node == node then Width(last) else 0
  }

  predicate NodeFits(stages: seq<Stage>, node: string, perLayer: real, vram: string -> real) {
    HeldBy(stages, node) as real * perLayer <= vram(node)
  }

  ghost predicate AllFit(stages: seq<Stage>, perLayer: real, vram: string -> real) {
    forall node :: NodeFits(stages, node, perLayer, vram)
  }

  lemma {:induction false} HeldAfterMove(stages: seq<Stage>, failed: string, replacement: string, node: string)
    requires failed != replacement
    ensures HeldBy(MoveAll(stages, failed, replacement), node) ==
      if node == failed then 0
      else HeldBy(stages, node) + if node == replacement then HeldBy(stages, failed) else 0
  {
    if stages != [] {
      var init := stages[..|stages| - 1];
      HeldAfterMove(init, failed, replacement, node);
      assert MoveAll(stages, failed, replacement)[..|stages| - 1] == MoveAll(init, failed, replacement);
    }
  }

  lemma {:induction false} HeldIsNotNegative(stages: seq<Stage>, node: string)
    requires forall i :: 0 <= i < |stages| ==> StageOk(stages[i])
    ensures HeldBy(stages, node) >= 0
  {
    if stages != [] { HeldIsNotNegative(stages[..|stages| - 1], node); }
  }

  // Nobody but the replacement holds more than before.
  lemma {:induction false} OthersStillFit(stages: seq<Stage>, failed: string, replacement: string, node: string,
                                          perLayer: real, vram: string -> real)
    requires failed != replacement && node != replacement && perLayer >= 0.0
    requires (forall i :: 0 <= i < |stages| ==> StageOk(stages[i])) && NodeFits(stages, node, perLayer, vram)
    ensures NodeFits(MoveAll(stages, failed, replacement), node, perLayer, vram)
  {
    HeldAfterMove(stages, failed, replacement, node);
    HeldIsNotNegative(stages, node);
    ScaleUp(0.0, HeldBy(stages, node) as real, perLayer);
  }

  /** VRAM still suffices everywhere exactly when the replacement has room for its own layers and the failed
      node's. */
  lemma {:induction false} RestitchFitsIff(stages: seq<Stage>, failed: string, replacement: string,
                                           perLayer: real, vram: string -> real)
    requires failed != replacement && perLayer >= 0.0 && (forall i :: 0 <= i < |stages| ==> StageOk(stages[i]))
    requires AllFit(stages, perLayer, vram)
    ensures AllFit(MoveAll(stages, failed, replacement), perLayer, vram) <==>
      (HeldBy(stages, replacement) + HeldBy(stages, failed)) as real * perLayer <= vram(replacement)
  {
    var after := MoveAll(stages, failed, replacement);
    HeldAfterMove(stages, failed, replacement, replacement);
    assert HeldBy(after, replacement) == HeldBy(stages, replacement) + HeldBy(stages, failed);
    forall node | node != replacement ensures NodeFits(after, node, perLayer, vram) {
      assert NodeFits(stages, node, perLayer, vram);
      OthersStillFit(stages, failed, replacement, node, perLayer, vram);
    }
    assert AllFit(after, perLayer, vram) <==> NodeFits(after, replacement, perLayer, vram);
  }

  /** Two nodes, one fails: the survivor ends up with both stages. */
  lemma {:induction false} RestitchDoublesUp(first: Stage, second: Stage)
    requires first.node == "a" && second.node == "b"
    ensures Restitch([first, second], "a", ["b"]) == Ok([first.(node := "b"), second])
    ensures DistinctStages([first, second]) && !DistinctStages([first.(node := "b"), second])
  {
    var keep := (n: string) => n != "a";
    assert Filter(["b"], keep) == ["b"] by { assert ["b"][..0] == []; }
    var after := [first.(node := "b"), second];
    assert MoveAll([first, second], "a", "b") == after;
    assert after[0].node == after[1].node;
  }
}
