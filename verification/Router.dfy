/** Verified heartbeats, liveliness events, the stale sweep and restarts of the mesh router. */
module RouterModel {
  import opened Clock
  import opened Common
  import opened RegistryModel

  /** `open(token, node, payload)` is the heartbeat inside an envelope that verifies, else none. */
  datatype Config = Config(staleAfter: real, open: (string, Id, string) -> Option<Heartbeat>)

  datatype Router = Router(world: World, lastVerified: map<Id, real>)

  datatype Event =
    | HeartbeatSample(topic: Option<Id>, payload: string, now: real)
    | LivelinessPut(id: Id, now: real)
    | LivelinessDelete(id: Id, now: real)
    | Sweep(readings: seq<real>)  // the clock, read once for each node listed
    | Api(op: Op, now: real)      // any registry operation made elsewhere
    | Reboot(now: real)           // the registry is reloaded, the router starts with an empty memory

  function Registered(s: Router, id: Id): bool {
    id in Ids(s.world.registry.nodes)
  }

  /** The heartbeat a sample proves, given the credential on file for its topic. */
  function Proven(c: Config, s: Router, topic: Option<Id>, payload: string): Option<Heartbeat> {
    if topic == None || !Registered(s, topic.value) then None
    else
      var tokens := s.world.registry.tokens;
      if topic.value !in tokens || tokens[topic.value] == "" then None
      else
        var h := c.open(tokens[topic.value], topic.value, payload);
        if h.Some? && h.value.node == topic.value then h else None
  }

  function OnHeartbeat(c: Config, s: Router, topic: Option<Id>, payload: string, now: real): Router {
    var h := Proven(c, s, topic, payload);
    if h == None then s
    else
      Router(Apply(Apply(s.world, Beat(h.value)), MarkMesh(h.value.node)),
             s.lastVerified[h.value.node := now])
  }

  /** Heartbeated verifiably within `staleAfter` of `now`, as far as the router remembers. */
  predicate Fresh(c: Config, s: Router, id: Id, now: real) {
    id in s.lastVerified && now - s.lastVerified[id] < c.staleAfter
  }

  function EvictIfStale(c: Config, s: Router, id: Id, now: real): Router {
    if Fresh(c, s, id, now) || !Registered(s, id) then s
    else Router(Apply(s.world, Evict(id)), s.lastVerified - {id})
  }

  /** Check the first `n` of the listed nodes, each at its own clock reading. */
  function SweepFirst(c: Config, s: Router, listed: seq<Node>, readings: seq<real>, n: nat): Router
    requires n <= |listed| == |readings|
  {
    if n == 0 then s
    else EvictIfStale(c, SweepFirst(c, s, listed, readings, n - 1), listed[n - 1].id, readings[n - 1])
  }

  function Step(c: Config, s: Router, e: Event): Router {
    match e
    case HeartbeatSample(topic, payload, now) => OnHeartbeat(c, s, topic, payload, now)
    case LivelinessPut(_, _) => s
    case LivelinessDelete(id, now) => EvictIfStale(c, s, id, now)
    case Sweep(readings) =>
      var listed := s.world.registry.nodes;
      if |readings| == |listed| then SweepFirst(c, s, listed, readings, |listed|) else s
    case Api(op, _) => Router(Apply(s.world, op), s.lastVerified)
    case Reboot(_) => Router(Restart(s.world), map[])
  }

  function Run(c: Config, es: seq<Event>): Router {
    if es == [] then Router(RegistryModel.FRESH, map[]) else Step(c, Run(c, es[..|es| - 1]), es[|es| - 1])
  }

  // ---- the history the router is judged by ----

  datatype Proof = Proof(id: Id, at: real)

  predicate Proves(c: Config, s: Router, e: Event) {
    e.HeartbeatSample? && Proven(c, s, e.topic, e.payload).Some?
  }

  /** Every verified heartbeat processed so far. */
  function Heard(c: Config, es: seq<Event>): seq<Proof> {
    if es == [] then []
    else
      var init, e := es[..|es| - 1], es[|es| - 1];
      if Proves(c, Run(c, init), e) then Heard(c, init) + [Proof(e.topic.value, e.now)] else Heard(c, init)
  }

  /** Those processed since the last restart. */
  function Since(c: Config, es: seq<Event>): seq<Proof> {
    if es == [] then []
    else
      var init, e := es[..|es| - 1], es[|es| - 1];
      if e.Reboot? then []
      else if Proves(c, Run(c, init), e) then Since(c, init) + [Proof(e.topic.value, e.now)] else Since(c, init)
  }

  /** Those the last restart forgot. */
  function Forgotten(c: Config, es: seq<Event>): seq<Proof> {
    if es == [] then []
    else if es[|es| - 1].Reboot? then Heard(c, es[..|es| - 1])
    else Forgotten(c, es[..|es| - 1])
  }

  lemma {:induction false} HeardSplits(c: Config, es: seq<Event>)
    ensures Heard(c, es) == Forgotten(c, es) + Since(c, es)
  {
    if es != [] { HeardSplits(c, es[..|es| - 1]); }
  }

  function ReadingsOf(e: Event): seq<real> {
    if e.Sweep? then e.readings else [e.now]
  }

  function Readings(es: seq<Event>): seq<real> {
    if es == [] then [] else Readings(es[..|es| - 1]) + ReadingsOf(es[|es| - 1])
  }

  ghost predicate ClockNeverSteps(es: seq<Event>) {
    Ascending(Readings(es))
  }

  ghost predicate UpTo(readings: seq<real>, clock: real) {
    forall i :: 0 <= i < |readings| ==> readings[i] <= clock
  }

  ghost predicate From(readings: seq<real>, clock: real) {
    forall i :: 0 <= i < |readings| ==> clock <= readings[i]
  }

  /** A moment between what the clock has shown and what `e` will read. */
  lemma {:induction false} BetweenEvents(es: seq<Event>, e: Event, clock: real) returns (before: real)
    requires ClockNeverSteps(es + [e]) && UpTo(Readings(es + [e]), clock)
    ensures ClockNeverSteps(es) && Ascending(ReadingsOf(e)) && UpTo(ReadingsOf(e), clock)
    ensures UpTo(Readings(es), before) && From(ReadingsOf(e), before) && before <= clock
  {
    assert (es + [e])[..|es|] == es;
    var a, b := Readings(es), ReadingsOf(e);
    AscendingParts(a, b);
    assert forall i :: 0 <= i < |a| ==> a[i] == (a + b)[i];
    assert forall i :: 0 <= i < |b| ==> b[i] == (a + b)[|a| + i];
    before := if b == [] then clock else b[0];
  }

  /** No heartbeat among `heard` of `id` within `staleAfter` before `now`. */
  ghost predicate Silent(c: Config, heard: seq<Proof>, id: Id, now: real) {
    forall k :: 0 <= k < |heard| && heard[k].id == id ==> now - heard[k].at >= c.staleAfter
  }

  // ---- what the router remembers ----

  predicate Kept(c: Config, s: Router, p: Proof, clock: real) {
    p.at <= clock &&
    if p.id in s.lastVerified then p.at <= s.lastVerified[p.id] else clock - p.at >= c.staleAfter
  }

  // Its memory of a node is one of the proofs since the restart and none is later; where it has no
  // memory of a node, every such proof is already out of the window.
  ghost predicate Remembers(c: Config, s: Router, since: seq<Proof>, clock: real) {
    && (forall k :: 0 <= k < |since| ==> Kept(c, s, since[k], clock))
    && (forall id :: id in s.lastVerified ==> Proof(id, s.lastVerified[id]) in since)
  }

  lemma {:induction false} FreshIff(c: Config, s: Router, since: seq<Proof>, clock: real, id: Id, now: real)
    requires Remembers(c, s, since, clock) && clock <= now
    ensures Fresh(c, s, id, now) <==> !Silent(c, since, id, now)
  {
    if Fresh(c, s, id, now) {
      var k :| 0 <= k < |since| && since[k] == Proof(id, s.lastVerified[id]);
    }
    if !Silent(c, since, id, now) {
      var k :| 0 <= k < |since| && since[k].id == id && now - since[k].at < c.staleAfter;
      assert Kept(c, s, since[k], clock);
    }
  }

  lemma {:induction false} EvictRemembers(c: Config, s: Router, since: seq<Proof>, id: Id, clock: real, now: real)
    requires Remembers(c, s, since, clock) && clock <= now
    ensures Remembers(c, EvictIfStale(c, s, id, now), since, now)
  {
    FreshIff(c, s, since, clock, id, now);
    var s' := EvictIfStale(c, s, id, now);
    forall k | 0 <= k < |since| ensures Kept(c, s', since[k], now) {
      assert Kept(c, s, since[k], clock);
    }
  }

  lemma {:induction false} EvictTouchesOnlyItsNode(c: Config, s: Router, id: Id, now: real)
    requires Keyed(s.world.registry.nodes)
    ensures var s' := EvictIfStale(c, s, id, now);
      && Keyed(s'.world.registry.nodes)
      && Ids(s'.world.registry.nodes) == Ids(s.world.registry.nodes) - (if Fresh(c, s, id, now) then {} else {id})
  {
    DropKeeps(s.world.registry.nodes, id);
  }

  lemma {:induction false} SweepRemembers(c: Config, s: Router, since: seq<Proof>, listed: seq<Node>,
                                          readings: seq<real>, n: nat, clock: real)
    requires n <= |listed| == |readings| && Remembers(c, s, since, clock)
    requires Ascending(readings) && From(readings, clock)
    ensures Remembers(c, SweepFirst(c, s, listed, readings, n), since, if n == 0 then clock else readings[n - 1])
  {
    if n > 0 {
      SweepRemembers(c, s, since, listed, readings, n - 1, clock);
      EvictRemembers(c, SweepFirst(c, s, listed, readings, n - 1), since, listed[n - 1].id,
                     if n == 1 then clock else readings[n - 2], readings[n - 1]);
    }
  }

  lemma {:induction false} WaitRemembers(c: Config, s: Router, since: seq<Proof>, clock: real, now: real)
    requires Remembers(c, s, since, clock) && clock <= now
    ensures Remembers(c, s, since, now)
  {
    forall k | 0 <= k < |since| ensures Kept(c, s, since[k], now) { assert Kept(c, s, since[k], clock); }
  }

  lemma {:induction false} HeartbeatRemembers(c: Config, s: Router, since: seq<Proof>, e: Event, clock: real)
    requires Remembers(c, s, since, clock) && Proves(c, s, e) && clock <= e.now
    ensures Remembers(c, Step(c, s, e), since + [Proof(e.topic.value, e.now)], e.now)
  {
    var s', more := Step(c, s, e), since + [Proof(e.topic.value, e.now)];
    forall k | 0 <= k < |more| ensures Kept(c, s', more[k], e.now) {
      if k < |since| { assert Kept(c, s, since[k], clock); }
    }
  }

  lemma {:induction false} StepRemembers(c: Config, init: seq<Event>, e: Event, before: real, clock: real)
    requires Remembers(c, Run(c, init), Since(c, init), before) && before <= clock
    requires Ascending(ReadingsOf(e)) && From(ReadingsOf(e), before) && UpTo(ReadingsOf(e), clock)
    ensures Remembers(c, Run(c, init + [e]), Since(c, init + [e]), clock)
  {
    var s, since := Run(c, init), Since(c, init);
    assert (init + [e])[..|init|] == init;
    var s' := Run(c, init + [e]);
    var listed := s.world.registry.nodes;
    if e.Sweep? {
      if |e.readings| == |listed| && listed != [] {
        SweepRemembers(c, s, since, listed, e.readings, |listed|, before);
        WaitRemembers(c, s', since, e.readings[|listed| - 1], clock);
      } else {
        WaitRemembers(c, s, since, before, clock);
      }
    } else {
      assert before <= ReadingsOf(e)[0] <= clock;
      if e.LivelinessDelete? {
        EvictRemembers(c, s, since, e.id, before, e.now);
      } else if Proves(c, s, e) {
        HeartbeatRemembers(c, s, since, e, before);
      } else if !e.Reboot? {
        WaitRemembers(c, s', since, before, e.now);
      }
      WaitRemembers(c, s', Since(c, init + [e]), e.now, clock);
    }
  }

  lemma {:induction false} SweepAgrees(c: Config, s: Router, listed: seq<Node>, readings: seq<real>, n: nat)
    requires n <= |listed| == |readings| && Agree(s.world)
    ensures Agree(SweepFirst(c, s, listed, readings, n).world)
  {
    if n > 0 {
      SweepAgrees(c, s, listed, readings, n - 1);
      ApplyAgrees(SweepFirst(c, s, listed, readings, n - 1).world, Evict(listed[n - 1].id));
    }
  }

  lemma {:induction false} StepAgrees(c: Config, s: Router, e: Event)
    requires Agree(s.world)
    ensures Agree(Step(c, s, e).world)
  {
    match e
    case HeartbeatSample(topic, payload, now) =>
      var h := Proven(c, s, topic, payload);
      if h.Some? {
        ApplyAgrees(s.world, Beat(h.value));
        ApplyAgrees(Apply(s.world, Beat(h.value)), MarkMesh(h.value.node));
      }
    case LivelinessPut(_, _) =>
    case LivelinessDelete(id, now) => ApplyAgrees(s.world, Evict(id));
    case Sweep(readings) =>
      if |readings| == |s.world.registry.nodes| {
        SweepAgrees(c, s, s.world.registry.nodes, readings, |readings|);
      }
    case Api(op, _) => ApplyAgrees(s.world, op);
    case Reboot(_) => RestartRestoresFacts(s.world);
  }

  lemma {:induction false} RunAgreesWithStore(c: Config, es: seq<Event>)
    ensures Agree(Run(c, es).world)
  {
    if es != [] {
      RunAgreesWithStore(c, es[..|es| - 1]);
      StepAgrees(c, Run(c, es[..|es| - 1]), es[|es| - 1]);
    }
  }

  lemma {:induction false} RunRemembers(c: Config, es: seq<Event>, clock: real)
    requires ClockNeverSteps(es) && UpTo(Readings(es), clock)
    ensures Remembers(c, Run(c, es), Since(c, es), clock)
  {
    if es != [] {
      var init, e := es[..|es| - 1], es[|es| - 1];
      assert init + [e] == es;
      var before := BetweenEvents(init, e, clock);
      RunRemembers(c, init, before);
      StepRemembers(c, init, e, before, clock);
    }
  }

  /** In every run, restarts included, a node counts as fresh exactly when a verified heartbeat of it since
      the last restart lies in the window. */
  lemma {:induction false} FreshnessIsExact(c: Config, es: seq<Event>, id: Id, now: real)
    requires ClockNeverSteps(es) && UpTo(Readings(es), now)
    ensures Fresh(c, Run(c, es), id, now) <==> !Silent(c, Since(c, es), id, now)
  {
    RunRemembers(c, es, now);
    FreshIff(c, Run(c, es), Since(c, es), now, id, now);
  }

  // ---- who is removed, and when ----

  /** Event `e` puts node `id` to the stale check at the reading `now`. */
  ghost predicate Checks(s: Router, e: Event, id: Id, now: real) {
    var listed := s.world.registry.nodes;
    || (e.LivelinessDelete? && e.id == id && e.now == now)
    || (e.Sweep? && |e.readings| == |listed| &&
        exists k :: 0 <= k < |listed| && listed[k].id == id && e.readings[k] == now)
  }

  // A sweep decides the node at position `k` when it reaches it, and nobody it has not reached.
  lemma {:induction false} SweepDecides(c: Config, s: Router, since: seq<Proof>, listed: seq<Node>, readings: seq<real>,
                                        n: nat, k: nat, clock: real)
    requires k < |listed| == |readings| && n <= |listed| && Keyed(listed) && Keyed(s.world.registry.nodes)
    requires Remembers(c, s, since, clock) && Registered(s, listed[k].id)
    requires Ascending(readings) && From(readings, clock)
    ensures Keyed(SweepFirst(c, s, listed, readings, n).world.registry.nodes)
    ensures Registered(SweepFirst(c, s, listed, readings, n), listed[k].id) <==>
      n <= k || !Silent(c, since, listed[k].id, readings[k])
    decreases n
  {
    if n > 0 {
      var before, at := SweepFirst(c, s, listed, readings, n - 1), if n == 1 then clock else readings[n - 2];
      SweepDecides(c, s, since, listed, readings, n - 1, k, clock);
      SweepRemembers(c, s, since, listed, readings, n - 1, clock);
      FreshIff(c, before, since, at, listed[n - 1].id, readings[n - 1]);
      EvictTouchesOnlyItsNode(c, before, listed[n - 1].id, readings[n - 1]);
      KeyedApart(listed, k, n - 1);
    }
  }

  lemma {:induction false} KeyedApart(nodes: seq<Node>, i: nat, j: nat)
    requires Keyed(nodes) && i < |nodes| && j < |nodes|
    ensures nodes[i].id == nodes[j].id ==> i == j
  {
    assert i < j ==> Differ(nodes[i], nodes[j]);
    assert j < i ==> Differ(nodes[j], nodes[i]);
  }

  // The moment between the history and the event, with what holds of the router there.
  lemma {:induction false} AtTheEvent(c: Config, es: seq<Event>, e: Event) returns (before: real)
    requires ClockNeverSteps(es + [e])
    ensures Run(c, es + [e]) == Step(c, Run(c, es), e)
    ensures Remembers(c, Run(c, es), Since(c, es), before) && Agree(Run(c, es).world)
    ensures Ascending(ReadingsOf(e)) && From(ReadingsOf(e), before) && ClockNeverSteps(es) && UpTo(Readings(es), before)
  {
    assert (es + [e])[..|es|] == es;
    var all := Readings(es + [e]);
    before := BetweenEvents(es, e, if all == [] then 0.0 else all[|all| - 1]);
    RunRemembers(c, es, before);
    RunAgreesWithStore(c, es);
  }

  lemma {:induction false} SweepRemovesIff(c: Config, es: seq<Event>, e: Event, id: Id, now: real)
    requires ClockNeverSteps(es + [e]) && e.Sweep? && Registered(Run(c, es), id) && Checks(Run(c, es), e, id, now)
    ensures Registered(Run(c, es + [e]), id) <==> !Silent(c, Since(c, es), id, now)
  {
    var s := Run(c, es);
    var before := AtTheEvent(c, es, e);
    var listed := s.world.registry.nodes;
    var k :| 0 <= k < |listed| && listed[k].id == id && e.readings[k] == now;
    SweepDecides(c, s, Since(c, es), listed, e.readings, |listed|, k, before);
  }

  lemma {:induction false} LivelinessRemovesIff(c: Config, es: seq<Event>, e: Event)
    requires ClockNeverSteps(es + [e]) && e.LivelinessDelete? && Registered(Run(c, es), e.id)
    ensures Registered(Run(c, es + [e]), e.id) <==> !Silent(c, Since(c, es), e.id, e.now)
  {
    var s := Run(c, es);
    var before := AtTheEvent(c, es, e);
    assert before <= ReadingsOf(e)[0];
    FreshIff(c, s, Since(c, es), before, e.id, e.now);
    EvictTouchesOnlyItsNode(c, s, e.id, e.now);
  }

  /** A checked node is removed exactly when none of its verified heartbeats since the last restart lies in
      the window. */
  lemma {:induction false} RemovedIffSilentSinceRestart(c: Config, es: seq<Event>, e: Event, id: Id, now: real)
    requires ClockNeverSteps(es + [e]) && Registered(Run(c, es), id) && Checks(Run(c, es), e, id, now)
    ensures Registered(Run(c, es + [e]), id) <==> !Silent(c, Since(c, es), id, now)
  {
    if e.Sweep? { SweepRemovesIff(c, es, e, id, now); } else { LivelinessRemovesIff(c, es, e); }
  }

  lemma {:induction false} BeatKeepsNodes(c: Config, s: Router, e: Event)
    requires e.HeartbeatSample?
    ensures Step(c, s, e).world.registry.nodes == s.world.registry.nodes
  {
  }

  /** Apart from registry operations made elsewhere, only a check removes a node. */
  lemma {:induction false} OnlyChecksRemove(c: Config, s: Router, e: Event, id: Id)
    requires Agree(s.world) && !e.Api? && Registered(s, id) && forall now :: !Checks(s, e, id, now)
    ensures Registered(Step(c, s, e), id)
  {
    match e
    case HeartbeatSample(_, _, _) => BeatKeepsNodes(c, s, e);
    case LivelinessPut(_, _) =>
    case LivelinessDelete(gone, at) =>
      assert !Checks(s, e, id, at);
      EvictTouchesOnlyItsNode(c, s, gone, at);
    case Sweep(readings) => UncheckedSweep(s, e, id);
    case Reboot(_) => RestartRestoresFacts(s.world);
  }

  lemma {:induction false} UncheckedSweep(s: Router, e: Event, id: Id)
    requires e.Sweep? && Registered(s, id) && forall now :: !Checks(s, e, id, now)
    ensures |e.readings| != |s.world.registry.nodes|
  {
    var k :| 0 <= k < |s.world.registry.nodes| && s.world.registry.nodes[k].id == id;
    assert |e.readings| == |s.world.registry.nodes| ==> Checks(s, e, id, e.readings[k]);
  }

  /** A removed node was silent over the whole window exactly as far as the last restart forgot nothing of it there. */
  lemma {:induction false} OnlySilentNodesAreRemoved(c: Config, es: seq<Event>, e: Event, id: Id, now: real)
    requires ClockNeverSteps(es + [e]) && Checks(Run(c, es), e, id, now)
    requires Registered(Run(c, es), id) && !Registered(Run(c, es + [e]), id)
    ensures Silent(c, Heard(c, es), id, now) <==> Silent(c, Forgotten(c, es), id, now)
  {
    RemovedIffSilentSinceRestart(c, es, e, id, now);
    HeardSplits(c, es);
    SilentParts(c, Forgotten(c, es), Since(c, es), id, now);
  }

  lemma {:induction false} SilentParts(c: Config, a: seq<Proof>, b: seq<Proof>, id: Id, now: real)
    ensures Silent(c, a + b, id, now) <==> Silent(c, a, id, now) && Silent(c, b, id, now)
  {
    if Silent(c, a + b, id, now) {
      assert forall k :: 0 <= k < |a| ==> a[k] == (a + b)[k];
      assert forall k :: 0 <= k < |b| ==> b[k] == (a + b)[|a| + k];
    }
  }

  /** A liveliness event never removes a node that proved itself within the window since the last restart. */
  lemma {:induction false} LivelinessSparesTheFresh(c: Config, es: seq<Event>, e: Event, id: Id)
    requires ClockNeverSteps(es + [e]) && (e.LivelinessPut? || e.LivelinessDelete?)
    requires Registered(Run(c, es), id) && !Silent(c, Since(c, es), id, e.now)
    ensures Registered(Run(c, es + [e]), id)
  {
    var before := AtTheEvent(c, es, e);
    if e.LivelinessDelete? && e.id == id {
      LivelinessRemovesIff(c, es, e);
    } else {
      OnlyChecksRemove(c, Run(c, es), e, id);
    }
  }

  /** A sweep lists nobody new, and whoever is still listed proved itself within the window before its check. */
  lemma {:induction false} SweepLeavesOnlyFresh(c: Config, es: seq<Event>, readings: seq<real>, id: Id) returns (k: nat)
    requires ClockNeverSteps(es + [Event.Sweep(readings)]) && |readings| == |Run(c, es).world.registry.nodes|
    requires Registered(Run(c, es + [Event.Sweep(readings)]), id)
    ensures k < |readings| && Run(c, es).world.registry.nodes[k].id == id && !Silent(c, Since(c, es), id, readings[k])
  {
    var s, e := Run(c, es), Event.Sweep(readings);
    var before := AtTheEvent(c, es, e);
    SweepOnlyRemoves(c, s, s.world.registry.nodes, readings, |readings|);
    k :| 0 <= k < |readings| && s.world.registry.nodes[k].id == id;
    SweepRemovesIff(c, es, e, id, readings[k]);
  }

  lemma {:induction false} SweepOnlyRemoves(c: Config, s: Router, listed: seq<Node>, readings: seq<real>, n: nat)
    requires n <= |listed| == |readings| && Keyed(s.world.registry.nodes)
    ensures Keyed(SweepFirst(c, s, listed, readings, n).world.registry.nodes)
    ensures Ids(SweepFirst(c, s, listed, readings, n).world.registry.nodes) <= Ids(s.world.registry.nodes)
  {
    if n > 0 {
      SweepOnlyRemoves(c, s, listed, readings, n - 1);
      EvictTouchesOnlyItsNode(c, SweepFirst(c, s, listed, readings, n - 1), listed[n - 1].id, readings[n - 1]);
    }
  }

  // ---- how long after a restart checks must wait ----

  function LastReboot(es: seq<Event>): Option<real> {
    if es == [] then None
    else if es[|es| - 1].Reboot? then Some(es[|es| - 1].now)
    else LastReboot(es[..|es| - 1])
  }

  /** The last restart lies at least `grace` before `now`. */
  predicate Settled(es: seq<Event>, now: real, grace: real) {
    LastReboot(es).Some? ==> now - LastReboot(es).value >= grace
  }

  ghost predicate Removes(c: Config, es: seq<Event>, e: Event, id: Id, now: real) {
    && ClockNeverSteps(es + [e]) && Checks(Run(c, es), e, id, now)
    && Registered(Run(c, es), id) && !Registered(Run(c, es + [e]), id)
  }

  /** If every check waits `grace` after a restart, only nodes silent over the whole window are removed. */
  ghost predicate GraceSuffices(c: Config, grace: real) {
    forall es, e, id, now :: Removes(c, es, e, id, now) && Settled(es, now, grace) ==> Silent(c, Heard(c, es), id, now)
  }

  /** Some node can prove itself at all. */
  ghost predicate Openable(c: Config) {
    exists token, id, payload :: Opens(c, token, id, payload)
  }

  lemma {:induction false} HeardBy(c: Config, es: seq<Event>, clock: real)
    requires ClockNeverSteps(es) && UpTo(Readings(es), clock)
    ensures forall k :: 0 <= k < |Heard(c, es)| ==> Heard(c, es)[k].at <= clock
  {
    if es != [] {
      var init, e := es[..|es| - 1], es[|es| - 1];
      assert init + [e] == es;
      var before := BetweenEvents(init, e, clock);
      HeardBy(c, init, before);
      assert Proves(c, Run(c, init), e) ==> ReadingsOf(e)[0] <= clock;
    }
  }

  lemma {:induction false} ForgottenBeforeReboot(c: Config, es: seq<Event>, clock: real)
    requires ClockNeverSteps(es) && UpTo(Readings(es), clock)
    ensures LastReboot(es) == None ==> Forgotten(c, es) == []
    ensures LastReboot(es).Some? ==>
      forall k :: 0 <= k < |Forgotten(c, es)| ==> Forgotten(c, es)[k].at <= LastReboot(es).value
  {
    if es != [] {
      var init, e := es[..|es| - 1], es[|es| - 1];
      assert init + [e] == es;
      var before := BetweenEvents(init, e, clock);
      if e.Reboot? {
        assert before <= ReadingsOf(e)[0];
        HeardBy(c, init, before);
      } else {
        ForgottenBeforeReboot(c, init, before);
      }
    }
  }

  lemma {:induction false} NothingOpensNothingHeard(c: Config, es: seq<Event>)
    requires !Openable(c)
    ensures Heard(c, es) == []
  {
    if es != [] {
      var init, e := es[..|es| - 1], es[|es| - 1];
      NothingOpensNothingHeard(c, init);
      var tokens := Run(c, init).world.registry.tokens;
      assert Proves(c, Run(c, init), e) ==> Opens(c, tokens[e.topic.value], e.topic.value, e.payload);
    }
  }

  lemma {:induction false} LongGraceIsEnough(c: Config, grace: real, es: seq<Event>, e: Event, id: Id, now: real)
    requires grace >= c.staleAfter && Removes(c, es, e, id, now) && Settled(es, now, grace)
    ensures Silent(c, Heard(c, es), id, now)
  {
    var before := AtTheEvent(c, es, e);
    ForgottenIsSilent(c, grace, es, before, id, now);
    OnlySilentNodesAreRemoved(c, es, e, id, now);
  }

  lemma {:induction false} ForgottenIsSilent(c: Config, grace: real, es: seq<Event>, clock: real, id: Id, now: real)
    requires ClockNeverSteps(es) && UpTo(Readings(es), clock) && grace >= c.staleAfter && Settled(es, now, grace)
    ensures Silent(c, Forgotten(c, es), id, now)
  {
    ForgottenBeforeReboot(c, es, clock);
  }

  // ---- the shortest run that removes a fresh node ----

  /** A node registers and proves itself, all at time 0. */
  function ProvenRun(token: string, node: Node, payload: string): seq<Event> {
    [Api(Register(node), 0.0), Api(SetToken(node.id, token), 0.0), HeartbeatSample(Some(node.id), payload, 0.0)]
  }

  predicate Opens(c: Config, token: string, id: Id, payload: string) {
    token != "" && c.open(token, id, payload).Some? && c.open(token, id, payload).value.node == id
  }

  lemma {:induction false} RunSnoc(c: Config, es: seq<Event>, e: Event)
    ensures Run(c, es + [e]) == Step(c, Run(c, es), e)
    ensures Heard(c, es + [e]) == Heard(c, es) + if Proves(c, Run(c, es), e) then [Proof(e.topic.value, e.now)] else []
    ensures Readings(es + [e]) == Readings(es) + ReadingsOf(e)
  {
    assert (es + [e])[..|es|] == es;
  }

  lemma {:induction false} NodeSignsUp(c: Config, token: string, node: Node)
    requires token != ""
    ensures var es := [Api(Register(node), 0.0), Api(SetToken(node.id, token), 0.0)];
      var r := Run(c, es).world.registry;
      && r.nodes == [node] && node.id in r.tokens && r.tokens[node.id] == token
      && Heard(c, es) == [] && Readings(es) == [0.0, 0.0]
  {
    var a, b := Api(Register(node), 0.0), Api(SetToken(node.id, token), 0.0);
    RunSnoc(c, [], a);
    assert [] + [a] == [a];
    RunSnoc(c, [a], b);
    assert [a] + [b] == [a, b];
  }

  lemma {:induction false} OnlyNode(node: Node)
    ensures node.id in Ids([node])
  {
    assert [node][0].id == node.id;
  }

  lemma {:induction false} NodeProvesItself(c: Config, token: string, node: Node, payload: string)
    requires Opens(c, token, node.id, payload)
    ensures var es := ProvenRun(token, node, payload);
      && Run(c, es).world.registry.nodes == [node]
      && Heard(c, es) == [Proof(node.id, 0.0)] && Readings(es) == [0.0, 0.0, 0.0]
  {
    var es := [Api(Register(node), 0.0), Api(SetToken(node.id, token), 0.0)];
    var e := HeartbeatSample(Some(node.id), payload, 0.0);
    NodeSignsUp(c, token, node);
    OnlyNode(node);
    RunSnoc(c, es, e);
    BeatKeepsNodes(c, Run(c, es), e);
    assert es + [e] == ProvenRun(token, node, payload);
  }

  function ForgottenRun(token: string, node: Node, payload: string): seq<Event> {
    ProvenRun(token, node, payload) + [Event.Reboot(0.0)]
  }

  lemma {:induction false} NodeIsForgotten(c: Config, token: string, node: Node, payload: string)
    requires Opens(c, token, node.id, payload)
    ensures var es := ForgottenRun(token, node, payload);
      && Run(c, es).world.registry.nodes == [node] && Heard(c, es) == [Proof(node.id, 0.0)]
      && Since(c, es) == [] && LastReboot(es) == Some(0.0) && Readings(es) == [0.0, 0.0, 0.0, 0.0]
  {
    var start := ProvenRun(token, node, payload);
    NodeProvesItself(c, token, node, payload);
    RunSnoc(c, start, Event.Reboot(0.0));
    RunAgreesWithStore(c, start);
    RestartRestoresFacts(Run(c, start).world);
  }

  /** Any time after a restart, a sweep or a lost liveliness token removes a node heard just before it. */
  lemma {:induction false} RestartForgets(c: Config, token: string, node: Node, payload: string, wait: real, e: Event)
    requires Opens(c, token, node.id, payload) && 0.0 <= wait
    requires e == LivelinessDelete(node.id, wait) || e == Event.Sweep([wait])
    ensures var es := ForgottenRun(token, node, payload);
      Removes(c, es, e, node.id, wait) && LastReboot(es) == Some(0.0) && Heard(c, es) == [Proof(node.id, 0.0)]
  {
    var es := ForgottenRun(token, node, payload);
    NodeIsForgotten(c, token, node, payload);
    OnlyNode(node);
    RunSnoc(c, es, e);
    assert Readings(es + [e]) == [0.0, 0.0, 0.0, 0.0, wait];
    assert Checks(Run(c, es), e, node.id, wait) by { assert [node][0].id == node.id; }
    RemovedIffSilentSinceRestart(c, es, e, node.id, wait);
  }

  /** Only silent nodes are removed exactly when checks wait a whole window after a restart, or nobody can be heard. */
  lemma {:induction false} GraceSufficesIff(c: Config, grace: real)
    requires 0.0 <= grace
    ensures GraceSuffices(c, grace) <==> grace >= c.staleAfter || !Openable(c)
  {
    if grace >= c.staleAfter || !Openable(c) {
      forall es, e, id, now | Removes(c, es, e, id, now) && Settled(es, now, grace)
        ensures Silent(c, Heard(c, es), id, now)
      {
        if grace >= c.staleAfter {
          LongGraceIsEnough(c, grace, es, e, id, now);
        } else {
          NothingOpensNothingHeard(c, es);
        }
      }
    } else {
      var token, id, payload :| Opens(c, token, id, payload);
      var node, e := Node(id, [], 0.0, ""), Event.Sweep([grace]);
      RestartForgets(c, token, node, payload, grace, e);
      var es := ForgottenRun(token, node, payload);
      assert Heard(c, es)[0].id == id;
      assert !Silent(c, Heard(c, es), id, grace);
    }
  }

  // ---- what a sample and a removal do ----

  /** A sample proves `h`: on the topic of the listed node it names, opened with the token on file for that node. */
  predicate Genuine(c: Config, s: Router, topic: Option<Id>, payload: string, h: Heartbeat) {
    && topic == Some(h.node) && h.node in Ids(s.world.registry.nodes) && h.node in s.world.registry.tokens
    && s.world.registry.tokens[h.node] != "" && c.open(s.world.registry.tokens[h.node], h.node, payload) == Some(h)
  }

  lemma {:induction false} ProvenIff(c: Config, s: Router, topic: Option<Id>, payload: string, h: Heartbeat)
    ensures Proven(c, s, topic, payload) == Some(h) <==> Genuine(c, s, topic, payload, h)
  {
  }

  /** A genuine sample is recorded, resets the dampener, marks the node reachable and restarts its window. */
  lemma {:induction false} GenuineLands(c: Config, s: Router, topic: Option<Id>, payload: string, h: Heartbeat,
                                        now: real)
    requires Genuine(c, s, topic, payload, h)
    ensures var s' := Step(c, s, HeartbeatSample(topic, payload, now));
      var r, r' := s.world.registry, s'.world.registry;
      && r' == r.(heartbeats := r.heartbeats[h.node := h], dampeners := r.dampeners[h.node := 0.0],
                  mesh := r.mesh + {h.node})
      && s'.world.store == s.world.store && s'.lastVerified == s.lastVerified[h.node := now]
  {
    ProvenIff(c, s, topic, payload, h);
  }

  /** Any other sample changes nothing at all. */
  lemma {:induction false} OthersAreIgnored(c: Config, s: Router, topic: Option<Id>, payload: string, now: real)
    requires forall h :: !Genuine(c, s, topic, payload, h)
    ensures Step(c, s, HeartbeatSample(topic, payload, now)) == s
  {
    var h := Proven(c, s, topic, payload);
    if h.Some? { ProvenIff(c, s, topic, payload, h.value); }
  }

  lemma {:induction false} EvictedIsNowhere(c: Config, s: Router, id: Id, now: real)
    requires Agree(s.world) && !Fresh(c, s, id, now) && Registered(s, id)
    ensures Nowhere(EvictIfStale(c, s, id, now).world, id) && id !in EvictIfStale(c, s, id, now).lastVerified
  {
    DropKeeps(s.world.registry.nodes, id);
  }

  lemma {:induction false} StaysNowhere(c: Config, s: Router, gone: Id, id: Id, now: real)
    requires Agree(s.world) && Nowhere(s.world, id)
    ensures Nowhere(EvictIfStale(c, s, gone, now).world, id)
  {
    StepKeepsAway(s.world, Do(Evict(gone)), id);
  }

  lemma {:induction false} SweptIsNowhere(c: Config, s: Router, listed: seq<Node>, readings: seq<real>, n: nat, id: Id)
    requires n <= |listed| == |readings| && Agree(s.world) && Registered(s, id)
    requires !Registered(SweepFirst(c, s, listed, readings, n), id)
    ensures Nowhere(SweepFirst(c, s, listed, readings, n).world, id)
  {
    if n > 0 {
      var before := SweepFirst(c, s, listed, readings, n - 1);
      SweepAgrees(c, s, listed, readings, n - 1);
      if Registered(before, id) {
        EvictTouchesOnlyItsNode(c, before, listed[n - 1].id, readings[n - 1]);
        EvictedIsNowhere(c, before, id, readings[n - 1]);
      } else {
        SweptIsNowhere(c, s, listed, readings, n - 1, id);
        StaysNowhere(c, before, listed[n - 1].id, id, readings[n - 1]);
      }
    }
  }

  /** A node the router removes is gone from every map and table. */
  lemma {:induction false} RemovalIsComplete(c: Config, es: seq<Event>, e: Event, id: Id)
    requires !e.Api? && Registered(Run(c, es), id) && !Registered(Run(c, es + [e]), id)
    ensures Nowhere(Run(c, es + [e]).world, id)
  {
    var s := Run(c, es);
    assert (es + [e])[..|es|] == es;
    RunAgreesWithStore(c, es);
    match e
    case HeartbeatSample(_, _, _) => BeatKeepsNodes(c, s, e);
    case LivelinessPut(_, _) =>
    case LivelinessDelete(gone, now) =>
      EvictTouchesOnlyItsNode(c, s, gone, now);
      EvictedIsNowhere(c, s, gone, now);
    case Sweep(readings) =>
      if |readings| == |s.world.registry.nodes| {
        SweptIsNowhere(c, s, s.world.registry.nodes, readings, |readings|, id);
      }
    case Reboot(_) => RestartRestoresFacts(s.world);
  }
}
