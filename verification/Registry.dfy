/** The node registry, its write-through tables, and restarts, as values. */
module RegistryModel {
  import opened Common
  import opened Sequences

  type Id = string

  /** What a node registered; only its model catalogue changes while it is registered. */
  datatype Node = Node(id: Id, models: seq<string>, vramTotal: real, hardware: string)

  datatype Status = Online | Offline | Busy | Unknown

  datatype Heartbeat = Heartbeat(node: Id, status: Status, queue: int, gpu: real, cpu: real, vramFree: real)

  // ---- a dictionary in insertion order, keyed by node id ----

  function Ids(nodes: seq<Node>): set<Id> {
    set i | 0 <= i < |nodes| :: nodes[i].id
  }

  predicate Differ(a: Node, b: Node) { a.id != b.id }

  ghost predicate Keyed(nodes: seq<Node>) {
    Pairwise(nodes, Differ)
  }

  function Find(nodes: seq<Node>, id: Id): (i: nat)
    ensures i <= |nodes| && (i < |nodes| <==> id in Ids(nodes))
    ensures i < |nodes| ==> nodes[i].id == id
  {
    if nodes == [] then 0
    else
      var i := Find(nodes[..|nodes| - 1], id);
      if i < |nodes| - 1 then assert nodes[i].id == id; i
      else if nodes[|nodes| - 1].id == id then i
      else
        assert forall k :: 0 <= k < |nodes| - 1 ==> nodes[k] == nodes[..|nodes| - 1][k];
        |nodes|
  }

  /** Assignment to a key: in place if it exists, else at the end. */
  function Put(nodes: seq<Node>, n: Node): seq<Node> {
    var i := Find(nodes, n.id);
    if i < |nodes| then nodes[i := n] else nodes + [n]
  }

  function Drop(nodes: seq<Node>, id: Id): seq<Node> {
    Filter(nodes, (n: Node) => n.id != id)
  }

  function PutAll(nodes: seq<Node>, more: seq<Node>): seq<Node> {
    if more == [] then nodes else Put(PutAll(nodes, more[..|more| - 1]), more[|more| - 1])
  }

  // ---- registry, tables, operations ----

  datatype Registry = Registry(
    nodes: seq<Node>,
    heartbeats: map<Id, Heartbeat>,
    dampeners: map<Id, real>,
    telemetry: map<Id, string>,
    tokens: map<Id, string>,
    mesh: set<Id>)

  const BLANK := Registry([], map[], map[], map[], map[], {})

  /** The `nodes` table in rowid order and the `node_tokens` table. */
  datatype Tables = Tables(nodes: seq<Node>, tokens: map<Id, string>)

  datatype Op =
    | Register(node: Node)
    | Unregister(id: Id)
    | Evict(id: Id)
    | Update(node: Node)
    | SetModels(id: Id, models: seq<string>)
    | Clear
    | SetToken(id: Id, token: string)  // an absent token is the empty string: both are falsy
    | Beat(heartbeat: Heartbeat)
    | IncrementDampener(id: Id)
    | MarkMesh(id: Id)
    | PutTelemetry(id: Id, data: string)

  datatype Outcome = Done | Removed(present: bool) | Raised

  datatype World = World(registry: Registry, store: Option<Tables>)

  function Outcomes(r: Registry, op: Op): Outcome {
    match op
    case Register(n) => if n.id in Ids(r.nodes) then Raised else Done
    case Unregister(id) => if id in Ids(r.nodes) then Done else Raised
    case Evict(id) => Removed(id in Ids(r.nodes))
    case Update(n) => if n.id in Ids(r.nodes) then Done else Raised
    case SetModels(id, _) => if id in Ids(r.nodes) then Done else Raised
    case Beat(h) => if h.node in Ids(r.nodes) then Done else Raised
    case IncrementDampener(id) => if id in Ids(r.nodes) then Done else Raised
    case _ => Done
  }

  /** A node's dampener; absent means zero. */
  function Dampener(dampeners: map<Id, real>, id: Id): real {
    if id in dampeners then dampeners[id] else 0.0
  }

  function Bump(dampeners: map<Id, real>, id: Id): map<Id, real> {
    dampeners[id := Dampener(dampeners, id) + 0.1]
  }

  /** A node that leaves takes its entry in every map with it. */
  function Depart(r: Registry, id: Id): Registry {
    Registry(Drop(r.nodes, id), r.heartbeats - {id}, r.dampeners - {id}, r.telemetry - {id},
             r.tokens - {id}, r.mesh - {id})
  }

  function WithModels(r: Registry, id: Id, models: seq<string>): Node
    requires id in Ids(r.nodes)
  {
    r.nodes[Find(r.nodes, id)].(models := models)
  }

  function InMemory(r: Registry, op: Op): Registry
    requires Outcomes(r, op) != Raised
  {
    match op
    case Register(n) => r.(nodes := Put(r.nodes, n), dampeners := r.dampeners[n.id := 0.0])
    case Unregister(id) => Depart(r, id)
    case Evict(id) => Depart(r, id)
    case Update(n) => r.(nodes := Put(r.nodes, n))
    case SetModels(id, models) => r.(nodes := Put(r.nodes, WithModels(r, id, models)))
    case Clear => BLANK
    case SetToken(id, token) =>
      if token != "" then r.(tokens := r.tokens[id := token])
      else r.(tokens := r.tokens - {id}, mesh := r.mesh - {id})
    case Beat(h) => r.(heartbeats := r.heartbeats[h.node := h], dampeners := r.dampeners[h.node := 0.0])
    case IncrementDampener(id) =>
      r.(dampeners := Bump(r.dampeners, id))
    case MarkMesh(id) => r.(mesh := r.mesh + {id})
    case PutTelemetry(id, data) => r.(telemetry := r.telemetry[id := data])
  }

  /** The statement each operation runs against the store. */
  function InStore(r: Registry, t: Tables, op: Op): Tables
    requires Outcomes(r, op) != Raised
  {
    match op
    case Register(n) => t.(nodes := Put(t.nodes, n))
    case Unregister(id) => Tables(Drop(t.nodes, id), t.tokens - {id})
    case Evict(id) => Tables(Drop(t.nodes, id), t.tokens - {id})
    case Update(n) => t.(nodes := Put(t.nodes, n))
    case SetModels(id, models) => t.(nodes := Put(t.nodes, WithModels(r, id, models)))
    case Clear => Tables([], map[])
    case SetToken(id, token) =>
      t.(tokens := if token != "" then t.tokens[id := token] else t.tokens - {id})
    case _ => t
  }

  function Apply(w: World, op: Op): World {
    if Outcomes(w.registry, op) == Raised then w
    else World(InMemory(w.registry, op),
               if w.store == None then None else Some(InStore(w.registry, w.store.value, op)))
  }

  function Zeros(ids: set<Id>): map<Id, real> {
    map id | id in ids :: 0.0
  }

  function Load(r: Registry, t: Tables): Registry {
    r.(nodes := PutAll(r.nodes, t.nodes),
       dampeners := r.dampeners + Zeros(Ids(t.nodes)),
       tokens := r.tokens + t.tokens)
  }

  /** A new process over the same store. */
  function Restart(w: World): World {
    if w.store == None then w.(registry := BLANK) else w.(registry := Load(BLANK, w.store.value))
  }

  datatype Event = Do(op: Op) | Reboot

  const FRESH := World(BLANK, Some(Tables([], map[])))

  function Step(w: World, e: Event): World {
    match e
    case Do(op) => Apply(w, op)
    case Reboot => Restart(w)
  }

  function Run(es: seq<Event>): World {
    if es == [] then FRESH else Step(Run(es[..|es| - 1]), es[|es| - 1])
  }

  // ---- ordered-dictionary facts ----

  lemma {:induction false} PutKeeps(nodes: seq<Node>, n: Node)
    requires Keyed(nodes)
    ensures Keyed(Put(nodes, n)) && Ids(Put(nodes, n)) == Ids(nodes) + {n.id}
  {
    var i, r := Find(nodes, n.id), Put(nodes, n);
    forall j, k | 0 <= j < k < |r| ensures Differ(r[j], r[k]) {
      if k < |nodes| { assert Differ(nodes[j], nodes[k]); }
    }
    forall id | id in Ids(nodes) + {n.id} ensures id in Ids(r) {
      if id == n.id {
        assert r[i].id == id;
      } else {
        var k :| 0 <= k < |nodes| && nodes[k].id == id;
        assert r[k].id == id;
      }
    }
  }

  lemma {:induction false} DropKeeps(nodes: seq<Node>, id: Id)
    requires Keyed(nodes)
    ensures Keyed(Drop(nodes, id)) && Ids(Drop(nodes, id)) == Ids(nodes) - {id}
  {
    FilterPairwise(nodes, (n: Node) => n.id != id, Differ);
    forall n { FilterIn(nodes, (m: Node) => m.id != id, n); }
    forall x | x in Ids(nodes) - {id} ensures x in Ids(Drop(nodes, id)) {
      var k :| 0 <= k < |nodes| && nodes[k].id == x;
      assert nodes[k] in Drop(nodes, id);
    }
    forall x | x in Ids(Drop(nodes, id)) ensures x in Ids(nodes) - {id} {
      var k :| 0 <= k < |Drop(nodes, id)| && Drop(nodes, id)[k].id == x;
      assert Drop(nodes, id)[k] in nodes;
    }
  }

  /** Reading the rows back in order rebuilds the dictionary in order. */
  lemma {:induction false} ReloadIsIdentity(nodes: seq<Node>)
    requires Keyed(nodes)
    ensures PutAll([], nodes) == nodes
  {
    if nodes != [] {
      var init, last := nodes[..|nodes| - 1], nodes[|nodes| - 1];
      ReloadIsIdentity(init);
      assert forall k :: 0 <= k < |init| ==> Differ(nodes[k], nodes[|nodes| - 1]);
      assert last.id !in Ids(init);
      assert nodes == init + [last];
    }
  }

  // ---- memory and tables agree ----

  ghost predicate RegistryInv(r: Registry) {
    Keyed(r.nodes) && r.dampeners.Keys == Ids(r.nodes) && r.heartbeats.Keys <= Ids(r.nodes)
  }

  ghost predicate Agree(w: World) {
    RegistryInv(w.registry) && w.store == Some(Tables(w.registry.nodes, w.registry.tokens))
  }

  lemma {:induction false} PutKeepsInv(r: Registry, n: Node, dampeners: map<Id, real>)
    requires RegistryInv(r) && dampeners.Keys == r.dampeners.Keys + {n.id}
    ensures RegistryInv(r.(nodes := Put(r.nodes, n), dampeners := dampeners))
  {
    PutKeeps(r.nodes, n);
  }

  lemma {:induction false} DepartKeepsInv(r: Registry, id: Id)
    requires RegistryInv(r)
    ensures RegistryInv(Depart(r, id))
  {
    DropKeeps(r.nodes, id);
  }

  lemma {:induction false} ApplyKeepsInv(r: Registry, op: Op)
    requires RegistryInv(r) && Outcomes(r, op) != Raised
    ensures RegistryInv(InMemory(r, op))
  {
    match op
    case Register(n) => PutKeepsInv(r, n, r.dampeners[n.id := 0.0]);
    case Unregister(id) => DepartKeepsInv(r, id);
    case Evict(id) => DepartKeepsInv(r, id);
    case Update(n) => PutKeepsInv(r, n, r.dampeners);
    case SetModels(id, models) => PutKeepsInv(r, WithModels(r, id, models), r.dampeners);
    case _ =>
  }

  lemma {:induction false} ApplyAgrees(w: World, op: Op)
    requires Agree(w)
    ensures Agree(Apply(w, op))
  {
    if Outcomes(w.registry, op) != Raised {
      ApplyKeepsInv(w.registry, op);
    }
  }

  /** What a restart is to bring back: the facts, and no observation. */
  ghost function FactsOnly(r: Registry): Registry {
    BLANK.(nodes := r.nodes, tokens := r.tokens, dampeners := Zeros(Ids(r.nodes)))
  }

  lemma {:induction false} RestartRestoresFacts(w: World)
    requires Agree(w)
    ensures Restart(w) == w.(registry := FactsOnly(w.registry))
    ensures Agree(Restart(w))
  {
    ReloadIsIdentity(w.registry.nodes);
  }

  /** Memory and tables agree after every history of operations and restarts. */
  lemma {:induction false} RunAgrees(es: seq<Event>)
    ensures Agree(Run(es))
  {
    if es != [] {
      var w, e := Run(es[..|es| - 1]), es[|es| - 1];
      RunAgrees(es[..|es| - 1]);
      match e
      case Do(op) => ApplyAgrees(w, op);
      case Reboot => RestartRestoresFacts(w);
    }
  }

  /** Loading a fresh registry after any history: same listing, same tokens, nothing observed. */
  lemma {:induction false} RestartIsFaithful(es: seq<Event>)
    ensures Run(es).store.Some?
    ensures Load(BLANK, Run(es).store.value) == FactsOnly(Run(es).registry)
  {
    RunAgrees(es);
    RestartRestoresFacts(Run(es));
  }

  // ---- restarts are invisible ----

  ghost predicate SameFacts(r: Registry, q: Registry) {
    r.nodes == q.nodes && r.tokens == q.tokens
  }

  // What an operation does to the listing and to the tokens, told from these alone.
  function NodesAfter(nodes: seq<Node>, op: Op): seq<Node> {
    match op
    case Register(n) => Put(nodes, n)
    case Unregister(id) => Drop(nodes, id)
    case Evict(id) => Drop(nodes, id)
    case Update(n) => Put(nodes, n)
    case SetModels(id, models) =>
      if id in Ids(nodes) then Put(nodes, nodes[Find(nodes, id)].(models := models)) else nodes
    case Clear => []
    case _ => nodes
  }

  function TokensAfter(tokens: map<Id, string>, op: Op): map<Id, string> {
    match op
    case Unregister(id) => tokens - {id}
    case Evict(id) => tokens - {id}
    case Clear => map[]
    case SetToken(id, token) => if token != "" then tokens[id := token] else tokens - {id}
    case _ => tokens
  }

  lemma {:induction false} FactsAfter(r: Registry, op: Op)
    requires Outcomes(r, op) != Raised
    ensures InMemory(r, op).nodes == NodesAfter(r.nodes, op) && InMemory(r, op).tokens == TokensAfter(r.tokens, op)
  {
  }

  /** Outcomes and facts depend on the facts alone, never on an observation. */
  lemma {:induction false} FactsEvolveAlone(r: Registry, q: Registry, op: Op)
    requires SameFacts(r, q)
    ensures Outcomes(r, op) == Outcomes(q, op)
    ensures Outcomes(r, op) != Raised ==> SameFacts(InMemory(r, op), InMemory(q, op))
  {
    if Outcomes(r, op) != Raised {
      FactsAfter(r, op);
      FactsAfter(q, op);
    }
  }

  function Ops(es: seq<Event>): seq<Event> {
    Filter(es, (e: Event) => e.Do?)
  }

  /** Where the process restarts changes neither the facts nor any operation's outcome. */
  lemma {:induction false} RestartsAreInvisible(es: seq<Event>, op: Op)
    ensures SameFacts(Run(es).registry, Run(Ops(es)).registry)
    ensures Outcomes(Run(es).registry, op) == Outcomes(Run(Ops(es)).registry, op)
  {
    if es != [] {
      var init, e := es[..|es| - 1], es[|es| - 1];
      RestartsAreInvisible(init, op);
      match e
      case Reboot =>
        RunAgrees(init);
        RestartRestoresFacts(Run(init));
      case Do(o) =>
        FactsEvolveAlone(Run(init).registry, Run(Ops(init)).registry, o);
        assert Ops(es)[..|Ops(es)| - 1] == Ops(init);
    }
    FactsEvolveAlone(Run(es).registry, Run(Ops(es)).registry, op);
  }

  ghost predicate Nowhere(w: World, id: Id) {
    && id !in Ids(w.registry.nodes) && id !in w.registry.heartbeats && id !in w.registry.dampeners
    && id !in w.registry.telemetry && id !in w.registry.tokens && id !in w.registry.mesh
    && w.store.Some? && id !in Ids(w.store.value.nodes) && id !in w.store.value.tokens
  }

  /** A departed node leaves no entry in any map or table. */
  lemma {:induction false} DepartureIsComplete(es: seq<Event>, id: Id)
    ensures Nowhere(Run(es + [Do(Evict(id))]), id)
    ensures Outcomes(Run(es).registry, Unregister(id)) == Done ==> Nowhere(Run(es + [Do(Unregister(id))]), id)
  {
    RunAgrees(es);
    DropKeeps(Run(es).registry.nodes, id);
    assert (es + [Do(Evict(id))])[..|es|] == es && (es + [Do(Unregister(id))])[..|es|] == es;
  }

  /** The event gives `id` an entry somewhere: it registers, or a record of it is written without asking for that. */
  predicate Brings(e: Event, id: Id) {
    e.Do? && match e.op {
      case Register(n) => n.id == id
      case SetToken(i, token) => i == id && token != ""
      case MarkMesh(i) => i == id
      case PutTelemetry(i, _) => i == id
      case _ => false
    }
  }

  lemma {:induction false} DropForgets(nodes: seq<Node>, gone: Id, id: Id)
    requires Keyed(nodes) && id !in Ids(nodes)
    ensures id !in Ids(Drop(nodes, gone))
  {
    DropKeeps(nodes, gone);
  }

  lemma {:induction false} OpKeepsAway(w: World, op: Op, id: Id)
    requires Agree(w) && Nowhere(w, id) && !Brings(Do(op), id) && Outcomes(w.registry, op) != Raised
    ensures Nowhere(Apply(w, op), id)
  {
    var nodes := w.registry.nodes;
    ApplyAgrees(w, op);
    match op
    case Register(n) => PutKeeps(nodes, n);
    case Unregister(gone) => DropForgets(nodes, gone, id);
    case Evict(gone) => DropForgets(nodes, gone, id);
    case Update(n) => PutKeeps(nodes, n);
    case SetModels(i, models) => PutKeeps(nodes, WithModels(w.registry, i, models));
    case _ =>
  }

  lemma {:induction false} StepKeepsAway(w: World, e: Event, id: Id)
    requires Agree(w) && Nowhere(w, id) && !Brings(e, id)
    ensures Nowhere(Step(w, e), id)
  {
    match e
    case Do(op) => if Outcomes(w.registry, op) != Raised { OpKeepsAway(w, op, id); }
    case Reboot => RestartRestoresFacts(w);
  }

  /** Whoever is nowhere stays nowhere, through operations and restarts, until something brings it back. */
  lemma {:induction false} AwayStaysAway(es: seq<Event>, later: seq<Event>, id: Id)
    requires Nowhere(Run(es), id) && forall k :: 0 <= k < |later| ==> !Brings(later[k], id)
    ensures Nowhere(Run(es + later), id)
    decreases |later|
  {
    if later == [] {
      assert es + later == es;
    } else {
      var init, e := later[..|later| - 1], later[|later| - 1];
      AwayStaysAway(es, init, id);
      assert (es + later)[..|es + later| - 1] == es + init;
      RunAgrees(es + init);
      StepKeepsAway(Run(es + init), e, id);
    }
  }

  /** A departed node, by either route, has no entry anywhere in any later history that does not bring it back. */
  lemma {:induction false} DepartureLasts(es: seq<Event>, op: Op, later: seq<Event>, id: Id)
    requires op == Evict(id) || (op == Unregister(id) && Outcomes(Run(es).registry, op) == Done)
    requires forall k :: 0 <= k < |later| ==> !Brings(later[k], id)
    ensures Nowhere(Run(es + [Do(op)] + later), id)
  {
    DepartureIsComplete(es, id);
    AwayStaysAway(es + [Do(op)], later, id);
  }
}
