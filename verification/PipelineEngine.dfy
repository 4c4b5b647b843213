/** The scheduling engine's loops, and what a successful schedule charges to the chosen nodes. */
module PipelineEngine {
  import opened Common
  import opened Sequences
  import opened PipelineModel
  import RegistryModel

  /** Queue depth and dampener of every node, as the registry tracks them; absent means zero. */
  datatype Load = Load(queue: map<string, int>, dampener: map<string, real>)

  function Depth(l: Load, node: string): int { if node in l.queue then l.queue[node] else 0 }

  function Charge(l: Load, node: string): Load {
    Load(l.queue[node := Depth(l, node) + 1], RegistryModel.Bump(l.dampener, node))
  }

  function ChargeFirst(l: Load, allocs: seq<Alloc>, n: nat): Load
    requires n <= |allocs|
  {
    if n == 0 then l else Charge(ChargeFirst(l, allocs, n - 1), allocs[n - 1].slot.node.id)
  }

  predicate Chosen(allocs: seq<Alloc>, n: nat, node: string)
    requires n <= |allocs|
  {
    exists i :: 0 <= i < n && allocs[i].slot.node.id == node
  }

  function Dampener(l: Load, node: string): real { RegistryModel.Dampener(l.dampener, node) }

  /** Queue depth up by `times` and dampener by as many tenths. */
  predicate Charged(before: Load, after: Load, node: string, times: int) {
    && Depth(after, node) == Depth(before, node) + times
    && Dampener(after, node) == Dampener(before, node) + 0.1 * times as real
  }

  /** On distinct nodes each chosen one is charged exactly once, and nobody else at all. */
  lemma {:induction false} ChargedOnce(l: Load, allocs: seq<Alloc>, n: nat, node: string)
    requires n <= |allocs|
    requires forall i, j :: 0 <= i < j < |allocs| ==> allocs[i].slot.node.id != allocs[j].slot.node.id
    ensures Charged(l, ChargeFirst(l, allocs, n), node, if Chosen(allocs, n, node) then 1 else 0)
  {
    if n > 0 {
      ChargedOnce(l, allocs, n - 1, node);
      if allocs[n - 1].slot.node.id == node {
        assert !Chosen(allocs, n - 1, node);
      } else if Chosen(allocs, n, node) {
        var i :| 0 <= i < n && allocs[i].slot.node.id == node;
        assert i < n - 1;
      }
    }
  }

  class SchedulingEngine {
    var queue: map<string, int>
    var dampener: map<string, real>

    constructor ()
      ensures View() == Load(map[], map[])
    {
      queue, dampener := map[], map[];
    }

    ghost function View(): Load
      reads this
    {
      Load(queue, dampener)
    }

    method Capacities(ranked: seq<Ranked>, perLayer: real, layers: int) returns (slots: seq<Slot>, total: int)
      ensures slots == Slots(ranked, perLayer, layers) && total == CapSum(slots)
    {
      slots, total := [], 0;
      for i := 0 to |ranked|
        invariant slots == Slots(ranked[..i], perLayer, layers) && total == CapSum(slots)
      {
        assert ranked[..i + 1][..i] == ranked[..i];
        var cap := if perLayer > 0.0 then (ranked[i].vram / perLayer).Floor else layers;
        if cap > 0 {
          slots := slots + [Slot(ranked[i], cap)];
          total := total + cap;
        }
      }
      assert ranked[..|ranked|] == ranked;
    }

    method PartitionGreedily(slots: seq<Slot>, layers: int) returns (allocs: seq<Alloc>, remaining: int)
      ensures allocs == Greedy(slots, layers) && remaining == layers - CountSum(allocs)
    {
      allocs, remaining := [], layers;
      var i := 0;
      while i < |slots|
        invariant i <= |slots| && allocs == Greedy(slots[..i], layers) && remaining == layers - CountSum(allocs)
      {
        if remaining <= 0 {
          GreedyStops(slots, layers, i);
          return;
        }
        assert slots[..i + 1][..i] == slots[..i];
        var share := if remaining <= slots[i].cap then remaining else slots[i].cap;
        allocs := allocs + [Alloc(slots[i], share)];
        remaining := remaining - share;
        i := i + 1;
      }
      assert slots[..|slots|] == slots;
    }

    method PartitionEvenly(slots: seq<Slot>, layers: int, stages: int) returns (r: Result<seq<Alloc>, Refusal>)
      requires 0 < stages <= |slots|
      ensures r == if exists i :: 0 <= i < stages && Even(slots, layers, stages)[i].count > slots[i].cap
                   then Err(NodeTooSmall) else Ok(Even(slots, layers, stages))
    {
      var base, extra := layers / stages, layers % stages;
      var allocs := [];
      for i := 0 to stages
        invariant |allocs| == i && forall k :: 0 <= k < i ==> allocs[k] == Even(slots, layers, stages)[k]
        invariant forall k :: 0 <= k < i ==> Even(slots, layers, stages)[k].count <= slots[k].cap
      {
        var share := base + if i < extra then 1 else 0;
        assert share == Even(slots, layers, stages)[i].count;
        if share > slots[i].cap { return Err(NodeTooSmall); }
        allocs := allocs + [Alloc(slots[i], share)];
      }
      assert allocs == Even(slots, layers, stages);
      r := Ok(allocs);
    }

    method ChargeNode(node: string)
      modifies this
      ensures View() == Charge(old(View()), node)
    {
      queue := queue[node := (if node in queue then queue[node] else 0) + 1];
      dampener := RegistryModel.Bump(dampener, node);
    }

    method BuildStages(allocs: seq<Alloc>, model: string) returns (r: Result<seq<Stage>, Refusal>)
      modifies this
      ensures r == Finish(allocs, model)
      ensures r.Ok? ==> View() == ChargeFirst(old(View()), allocs, |allocs|)
    {
      var stages, current := [], 0;
      for i := 0 to |allocs|
        invariant |stages| == i && current == CountSum(allocs[..i])
        invariant forall k :: 0 <= k < i ==> stages[k] == StageFor(allocs, model, k) && StageOk(stages[k])
        invariant View() == ChargeFirst(old(View()), allocs, i)
      {
        var start, end := current, current + allocs[i].count - 1;
        PrefixSum(allocs, i);
        var stage := Stage(i, |allocs|, LayerRange(start, end), allocs[i].slot.node.id, model, false, Compute, false);
        assert stage == StageFor(allocs, model, i);
        if !StageOk(stage) { return Err(InvalidStage); }
        current := end + 1;
        stages := stages + [stage];
        ChargeNode(allocs[i].slot.node.id);
      }
      assert stages == Build(allocs, model);
      r := Ok(stages);
    }

    method SchedulePipeline(t: Task, ranked: seq<Ranked>) returns (r: Result<seq<Stage>, Refusal>)
      requires DistinctNodes(ranked)
      modifies this
      ensures r == Schedule(t, ranked)
      ensures r.Ok? ==> forall node :: ChargedFor(old(View()), View(), r.value, node)
    {
      if t.layers <= 0 { return Err(BadLayerCount); }
      if ranked == [] { return Err(NoEligibleNode); }
      var slots, total := Capacities(ranked, t.perLayer, t.layers);
      if total < t.layers { return Err(InsufficientCluster); }
      var requested := if t.numStages.Some? && t.numStages.value != 0 then t.numStages else t.targetStages;
      var allocs;
      if requested.Some? {
        if requested.value <= 0 { return Err(BadStageCount); }
        if |slots| < requested.value { return Err(TooFewNodes); }
        var even := PartitionEvenly(slots, t.layers, requested.value);
        if even.Err? { return Err(NodeTooSmall); }
        allocs := even.value;
      } else {
        var remaining;
        allocs, remaining := PartitionGreedily(slots, t.layers);
        if remaining > 0 { return Err(LayersRemain); }
      }
      r := BuildStages(allocs, t.model);
      if r.Ok? {
        ChargesMatchStages(old(View()), t, ranked, allocs, r.value);
      }
    }

    method BuildSplitStages(allocs: seq<Alloc>, model: string, layers: int) returns (stages: seq<Stage>)
      modifies this
      ensures stages == SplitStages(allocs, model, layers)
      ensures View() == ChargeFirst(old(View()), allocs, |allocs|)
    {
      var n := |allocs| + 2;
      stages := [Stage(0, n, LayerRange(0, 0), CLIENT, model, true, ClientEmbedding, true)];
      ghost var goal := SplitStages(allocs, model, layers);
      var current := 1;
      for i := 0 to |allocs|
        invariant |stages| == i + 1 && current == 1 + CountSum(allocs[..i])
        invariant forall k :: 0 <= k <= i ==> stages[k] == goal[k]
        invariant View() == ChargeFirst(old(View()), allocs, i)
      {
        var start, end := current, current + allocs[i].count - 1;
        PrefixSum(allocs, i);
        assert goal[i + 1] == RemoteStage(allocs, model, i);
        current := end + 1;
        var node := allocs[i].slot.node.id;
        stages := stages + [Stage(i + 1, n, LayerRange(start, end), node, model, false, RemoteHidden, true)];
        ChargeNode(node);
      }
      stages := stages + [Stage(n - 1, n, LayerRange(layers, layers), CLIENT, model, true, ClientLmHead, true)];
      assert stages == goal;
    }

    method ScheduleSplitPipeline(model: string, layers: int, perLayer: real, ranked: seq<Ranked>)
      returns (r: Result<seq<Stage>, Refusal>)
      requires DistinctNodes(ranked)
      modifies this
      ensures r == ScheduleSplit(model, layers, perLayer, ranked)
      ensures r.Ok? ==>
        var allocs := Greedy(Slots(ranked, perLayer, layers - 1), layers - 1);
        View() == ChargeFirst(old(View()), allocs, |allocs|)
    {
      if layers < 2 { return Err(BadLayerCount); }
      if ranked == [] { return Err(NoEligibleNode); }
      var slots, total := Capacities(ranked, perLayer, layers - 1);
      if total < layers - 1 { return Err(InsufficientCluster); }
      var allocs, remaining := PartitionGreedily(slots, layers - 1);
      if remaining > 0 { return Err(LayersRemain); }
      var stages := BuildSplitStages(allocs, model, layers);
      SplitScheduleIff(model, layers, perLayer, ranked);
      if |stages| < 3 || !BoundaryOk(stages, layers) { return Err(InvalidBoundary); }
      r := Ok(stages);
    }

    method RestitchPipeline(stages: seq<Stage>, failed: string, active: seq<string>)
      returns (r: Result<seq<Stage>, Refusal>)
      ensures r == Restitch(stages, failed, active)
    {
      var available := Filter(active, (n: string) => n != failed);
      if available == [] { return Err(NoEligibleNode); }
      var restitched := [];
      for i := 0 to |stages|
        invariant |restitched| == i
        invariant forall k :: 0 <= k < i ==> restitched[k] == Move(stages[k], failed, available[0])
      {
        if stages[i].node == failed {
          restitched := restitched + [stages[i].(node := available[0])];
        } else {
          restitched := restitched + [stages[i]];
        }
      }
      assert restitched == MoveAll(stages, failed, available[0]);
      r := Ok(restitched);
    }
  }

  lemma {:induction false} GreedyStops(slots: seq<Slot>, layers: int, i: nat)
    requires i <= |slots| && layers - CountSum(Greedy(slots[..i], layers)) <= 0
    ensures Greedy(slots, layers) == Greedy(slots[..i], layers)
    decreases |slots|
  {
    if i < |slots| {
      assert slots[..|slots| - 1][..i] == slots[..i];
      GreedyStops(slots[..|slots| - 1], layers, i);
    } else {
      assert slots[..i] == slots;
    }
  }

  /** A node with a stage is charged once, any other not at all. */
  predicate ChargedFor(before: Load, after: Load, stages: seq<Stage>, node: string) {
    Charged(before, after, node, if OnNode(stages, node) then 1 else 0)
  }

  lemma {:induction false} ScheduledNodesDiffer(t: Task, ranked: seq<Ranked>)
    requires DistinctNodes(ranked) && Schedule(t, ranked).Ok?
    ensures GoodPipeline(t, ranked, Schedule(t, ranked).value)
  {
    if Requested(t).Some? {
      EvenScheduleIff(t, ranked);
    } else {
      GreedyScheduleIff(t, ranked);
    }
  }

  lemma {:induction false} ChargesMatchStages(l: Load, t: Task, ranked: seq<Ranked>, allocs: seq<Alloc>,
                                              stages: seq<Stage>)
    requires DistinctNodes(ranked) && Schedule(t, ranked) == Ok(stages) && stages == Build(allocs, t.model)
    ensures forall node :: ChargedFor(l, ChargeFirst(l, allocs, |allocs|), stages, node)
  {
    ScheduledNodesDiffer(t, ranked);
    NodesDiffer(allocs, t.model);
    forall node ensures ChargedFor(l, ChargeFirst(l, allocs, |allocs|), stages, node) {
      ChargedOnce(l, allocs, |allocs|, node);
      OnNodeIsChosen(allocs, t.model, node);
    }
  }

  lemma {:induction false} NodesDiffer(allocs: seq<Alloc>, model: string)
    requires forall i, j :: 0 <= i < j < |allocs| ==> Build(allocs, model)[i].node != Build(allocs, model)[j].node
    ensures forall i, j :: 0 <= i < j < |allocs| ==> allocs[i].slot.node.id != allocs[j].slot.node.id
  {
    var stages := Build(allocs, model);
    assert forall i :: 0 <= i < |allocs| ==> stages[i].node == allocs[i].slot.node.id;
  }

  lemma {:induction false} OnNodeIsChosen(allocs: seq<Alloc>, model: string, node: string)
    ensures OnNode(Build(allocs, model), node) <==> Chosen(allocs, |allocs|, node)
  {
    var stages := Build(allocs, model);
    assert forall i :: 0 <= i < |allocs| ==> stages[i].node == allocs[i].slot.node.id;
  }
}
