/**
 What the registry holds about one node, told from the events about that node alone.  Whatever is
 done to other nodes leaves it as it is.
 */
module RegistryHistory {
  import opened Common
  import opened Sequences
  import opened RegistryModel

  /** Everything on record about one id; a node that is not listed may still have a token, a flag or telemetry. */
  datatype Past = Past(
    node: Option<Node>,
    beat: Option<Heartbeat>,
    bumps: nat,              // selections since the last heartbeat or registration
    token: Option<string>,
    mesh: bool,
    telemetry: Option<string>)

  const NOTHING := Past(None, None, 0, None, false, None)

  /** One operation as it concerns `id`. */
  function After(h: Past, op: Op, id: Id): Past {
    match op
    case Register(n) => if n.id == id && h.node == None then h.(node := Some(n), bumps := 0) else h
    case Unregister(i) => if i == id && h.node.Some? then NOTHING else h
    case Evict(i) => if i == id then NOTHING else h
    case Update(n) => if n.id == id && h.node.Some? then h.(node := Some(n)) else h
    case SetModels(i, models) =>
      if i == id && h.node.Some? then h.(node := Some(h.node.value.(models := models))) else h
    case Clear => NOTHING
    case SetToken(i, token) =>
      if i != id then h
      else if token == "" then h.(token := None, mesh := false)
      else h.(token := Some(token))
    case Beat(b) => if b.node == id && h.node.Some? then h.(beat := Some(b), bumps := 0) else h
    case IncrementDampener(i) => if i == id && h.node.Some? then h.(bumps := h.bumps + 1) else h
    case MarkMesh(i) => if i == id then h.(mesh := true) else h
    case PutTelemetry(i, data) => if i == id then h.(telemetry := Some(data)) else h
  }

  /** A restart keeps the facts and forgets the observations. */
  function History(es: seq<Event>, id: Id): Past {
    if es == [] then NOTHING
    else
      var h := History(es[..|es| - 1], id);
      match es[|es| - 1]
      case Do(op) => After(h, op, id)
      case Reboot => Past(h.node, None, 0, h.token, false, None)
  }

  function Lookup<V>(m: map<Id, V>, id: Id): Option<V> {
    if id in m then Some(m[id]) else None
  }

  function Listed(nodes: seq<Node>, id: Id): Option<Node> {
    if id in Ids(nodes) then Some(nodes[Find(nodes, id)]) else None
  }

  /** What the registry says about `id`. */
  ghost predicate Records(r: Registry, id: Id, h: Past) {
    && Listed(r.nodes, id) == h.node && Lookup(r.heartbeats, id) == h.beat
    && (h.node.Some? ==> id in r.dampeners && r.dampeners[id] == 0.1 * h.bumps as real)
    && (h.node.None? ==> id !in r.dampeners && h.bumps == 0 && h.beat == None)
    && Lookup(r.tokens, id) == h.token && (id in r.mesh <==> h.mesh) && Lookup(r.telemetry, id) == h.telemetry
  }

  // ---- the listing, id by id ----

  lemma {:induction false} ListedOnce(nodes: seq<Node>, i: nat)
    requires Keyed(nodes) && i < |nodes|
    ensures Find(nodes, nodes[i].id) == i && Listed(nodes, nodes[i].id) == Some(nodes[i])
  {
    var k := Find(nodes, nodes[i].id);
    assert nodes[i].id in Ids(nodes);
    assert k < i ==> Differ(nodes[k], nodes[i]);
    assert i < k ==> Differ(nodes[i], nodes[k]);
  }

  lemma {:induction false} ListedAs(nodes: seq<Node>, id: Id, i: nat)
    requires Keyed(nodes) && i < |nodes| && nodes[i].id == id
    ensures Listed(nodes, id) == Some(nodes[i])
  {
    ListedOnce(nodes, i);
  }

  lemma {:induction false} PutLists(nodes: seq<Node>, n: Node, id: Id)
    requires Keyed(nodes)
    ensures Listed(Put(nodes, n), id) == if id == n.id then Some(n) else Listed(nodes, id)
  {
    PutKeeps(nodes, n);
    var after, i := Put(nodes, n), Find(nodes, n.id);
    if id == n.id {
      ListedAs(after, id, i);
    } else if id in Ids(nodes) {
      assert after[Find(nodes, id)] == nodes[Find(nodes, id)];
      ListedAs(after, id, Find(nodes, id));
    }
  }

  lemma {:induction false} DropLists(nodes: seq<Node>, gone: Id, id: Id)
    requires Keyed(nodes)
    ensures Listed(Drop(nodes, gone), id) == if id == gone then None else Listed(nodes, id)
  {
    DropKeeps(nodes, gone);
    if id != gone && id in Ids(nodes) {
      var n := nodes[Find(nodes, id)];
      FilterIn(nodes, (m: Node) => m.id != gone, n);
      var k :| 0 <= k < |Drop(nodes, gone)| && Drop(nodes, gone)[k] == n;
      ListedAs(Drop(nodes, gone), id, k);
    }
  }

  // ---- one operation ----

  lemma {:induction false} ListingRecords(r: Registry, op: Op, id: Id, h: Past)
    requires Keyed(r.nodes) && Listed(r.nodes, id) == h.node && Outcomes(r, op) != Raised
    ensures Listed(NodesAfter(r.nodes, op), id) == After(h, op, id).node
  {
    match op
    case Register(n) => PutLists(r.nodes, n, id);
    case Unregister(gone) => DropLists(r.nodes, gone, id);
    case Evict(gone) => DropLists(r.nodes, gone, id);
    case Update(n) => PutLists(r.nodes, n, id);
    case SetModels(i, models) => PutLists(r.nodes, r.nodes[Find(r.nodes, i)].(models := models), id);
    case _ =>
  }

  // The columns of the registry, each told from itself and the operation.
  function BeatsAfter(beats: map<Id, Heartbeat>, op: Op): map<Id, Heartbeat> {
    match op
    case Unregister(id) => beats - {id}
    case Evict(id) => beats - {id}
    case Clear => map[]
    case Beat(b) => beats[b.node := b]
    case _ => beats
  }

  function BumpsAfter(dampeners: map<Id, real>, op: Op): map<Id, real> {
    match op
    case Register(n) => dampeners[n.id := 0.0]
    case Unregister(id) => dampeners - {id}
    case Evict(id) => dampeners - {id}
    case Clear => map[]
    case Beat(b) => dampeners[b.node := 0.0]
    case IncrementDampener(id) => dampeners[id := (if id in dampeners then dampeners[id] else 0.0) + 0.1]
    case _ => dampeners
  }

  function MeshAfter(mesh: set<Id>, op: Op): set<Id> {
    match op
    case Unregister(id) => mesh - {id}
    case Evict(id) => mesh - {id}
    case Clear => {}
    case SetToken(id, token) => if token == "" then mesh - {id} else mesh
    case MarkMesh(id) => mesh + {id}
    case _ => mesh
  }

  function TelemetryAfter(telemetry: map<Id, string>, op: Op): map<Id, string> {
    match op
    case Unregister(id) => telemetry - {id}
    case Evict(id) => telemetry - {id}
    case Clear => map[]
    case PutTelemetry(id, data) => telemetry[id := data]
    case _ => telemetry
  }

  lemma {:induction false} ColumnsAfter(r: Registry, op: Op)
    requires Outcomes(r, op) != Raised
    ensures InMemory(r, op).heartbeats == BeatsAfter(r.heartbeats, op)
    ensures InMemory(r, op).dampeners == BumpsAfter(r.dampeners, op)
    ensures InMemory(r, op).mesh == MeshAfter(r.mesh, op)
    ensures InMemory(r, op).telemetry == TelemetryAfter(r.telemetry, op)
  {
  }

  lemma {:induction false} BeatsRecord(r: Registry, op: Op, id: Id, h: Past)
    requires Records(r, id, h) && Outcomes(r, op) != Raised
    ensures Lookup(BeatsAfter(r.heartbeats, op), id) == After(h, op, id).beat
    ensures After(h, op, id).node == None ==> After(h, op, id).beat == None
  {
  }

  lemma {:induction false} BumpsRecord(r: Registry, op: Op, id: Id, h: Past)
    requires Records(r, id, h) && Outcomes(r, op) != Raised
    ensures var d, g := BumpsAfter(r.dampeners, op), After(h, op, id);
      && (g.node.Some? ==> id in d && d[id] == 0.1 * g.bumps as real)
      && (g.node.None? ==> id !in d && g.bumps == 0)
  {
  }

  lemma {:induction false} RestRecords(r: Registry, op: Op, id: Id, h: Past)
    requires Records(r, id, h)
    ensures Lookup(TokensAfter(r.tokens, op), id) == After(h, op, id).token || Outcomes(r, op) == Raised
    ensures (id in MeshAfter(r.mesh, op) <==> After(h, op, id).mesh) || Outcomes(r, op) == Raised
    ensures Lookup(TelemetryAfter(r.telemetry, op), id) == After(h, op, id).telemetry || Outcomes(r, op) == Raised
  {
  }

  lemma {:induction false} RaisedChangesNothing(r: Registry, op: Op, id: Id, h: Past)
    requires Records(r, id, h) && Outcomes(r, op) == Raised
    ensures After(h, op, id) == h
  {
  }

  lemma {:induction false} RestartRecords(w: World, id: Id, h: Past)
    requires Agree(w) && Records(w.registry, id, h)
    ensures Records(Restart(w).registry, id, Past(h.node, None, 0, h.token, false, None))
  {
    RestartRestoresFacts(w);
  }

  lemma {:induction false} OpRecords(r: Registry, op: Op, id: Id, h: Past)
    requires RegistryInv(r) && Records(r, id, h) && Outcomes(r, op) != Raised
    ensures Records(InMemory(r, op), id, After(h, op, id))
  {
    ListingRecords(r, op, id, h);
    FactsAfter(r, op);
    ColumnsAfter(r, op);
    BeatsRecord(r, op, id, h);
    BumpsRecord(r, op, id, h);
    RestRecords(r, op, id, h);
  }

  /** After every history, the registry says about each id just what the events about that id say. */
  lemma {:induction false} RunIsHistory(es: seq<Event>, id: Id)
    ensures Records(Run(es).registry, id, History(es, id))
  {
    if es != [] {
      var init, e := es[..|es| - 1], es[|es| - 1];
      RunIsHistory(init, id);
      RunAgrees(init);
      var w, h := Run(init), History(init, id);
      match e
      case Reboot => RestartRecords(w, id, h);
      case Do(op) =>
        if Outcomes(w.registry, op) == Raised {
          RaisedChangesNothing(w.registry, op, id, h);
        } else {
          OpRecords(w.registry, op, id, h);
        }
    }
  }

  // ---- who is refused, and the order of the listing ----

  /** Whether `op` needs a node to be listed, or not to be. */
  predicate Refused(es: seq<Event>, op: Op) {
    match op
    case Register(n) => History(es, n.id).node.Some?
    case Unregister(id) => History(es, id).node.None?
    case Update(n) => History(es, n.id).node.None?
    case SetModels(id, _) => History(es, id).node.None?
    case Beat(h) => History(es, h.node).node.None?
    case IncrementDampener(id) => History(es, id).node.None?
    case _ => false
  }

  /** Just the operations on the wrong side of a registration raise, and an eviction reports what it found. */
  lemma {:induction false} RaisesIff(es: seq<Event>, op: Op)
    ensures Outcomes(Run(es).registry, op) == Raised <==> Refused(es, op)
    ensures op.Evict? ==> Outcomes(Run(es).registry, op) == Removed(History(es, op.id).node.Some?)
  {
    match op
    case Register(n) => RunIsHistory(es, n.id);
    case Unregister(id) => RunIsHistory(es, id);
    case Evict(id) => RunIsHistory(es, id);
    case Update(n) => RunIsHistory(es, n.id);
    case SetModels(id, _) => RunIsHistory(es, id);
    case Beat(h) => RunIsHistory(es, h.node);
    case IncrementDampener(id) => RunIsHistory(es, id);
    case _ =>
  }

  /** When `id` was last registered, counting events; 0 if never. */
  function Joined(es: seq<Event>, id: Id): nat {
    if es == [] then 0
    else
      var init, e := es[..|es| - 1], es[|es| - 1];
      if e.Do? && e.op.Register? && e.op.node.id == id && History(init, id).node == None then |es|
      else Joined(init, id)
  }

  lemma {:induction false} JoinedBefore(es: seq<Event>, id: Id)
    ensures Joined(es, id) <= |es|
  {
    if es != [] { JoinedBefore(es[..|es| - 1], id); }
  }

  ghost predicate ByJoining(es: seq<Event>, nodes: seq<Node>) {
    forall i, j :: 0 <= i < j < |nodes| ==> Joined(es, nodes[i].id) < Joined(es, nodes[j].id)
  }

  lemma {:induction false} DropOrder(nodes: seq<Node>, gone: Id, es: seq<Event>)
    requires ByJoining(es, nodes)
    ensures ByJoining(es, Drop(nodes, gone))
  {
    FilterPairwise(nodes, (n: Node) => n.id != gone, (a: Node, b: Node) => Joined(es, a.id) < Joined(es, b.id));
  }

  // Only a registration that goes through changes when anybody joined.
  lemma {:induction false} JoinedAfter(init: seq<Event>, e: Event, id: Id)
    ensures Joined(init + [e], id) ==
      if e.Do? && e.op.Register? && e.op.node.id == id && History(init, id).node == None then |init| + 1
      else Joined(init, id)
  {
    assert (init + [e])[..|init|] == init;
  }

  lemma {:induction false} PutOrder(init: seq<Event>, e: Event, nodes: seq<Node>, n: Node)
    requires Keyed(nodes) && ByJoining(init, nodes)
    requires forall i :: 0 <= i < |nodes| ==> Joined(init + [e], nodes[i].id) == Joined(init, nodes[i].id) <= |init|
    requires n.id !in Ids(nodes) ==> Joined(init + [e], n.id) == |init| + 1
    ensures ByJoining(init + [e], Put(nodes, n))
  {
    var after, k := Put(nodes, n), Find(nodes, n.id);
    assert forall i :: 0 <= i < |nodes| ==> after[i].id == nodes[i].id;
  }

  lemma {:induction false} StaysJoined(init: seq<Event>, e: Event, i: nat)
    requires i < |Run(init).registry.nodes|
    ensures var id := Run(init).registry.nodes[i].id;
      Joined(init + [e], id) == Joined(init, id) <= |init|
  {
    var nodes := Run(init).registry.nodes;
    assert nodes[i].id in Ids(nodes);
    JoinedAfter(init, e, nodes[i].id);
    JoinedBefore(init, nodes[i].id);
    RunIsHistory(init, nodes[i].id);
  }

  /** The listing is in the order of registration, after every history. */
  lemma {:induction false} ListedByJoining(es: seq<Event>)
    ensures ByJoining(es, Run(es).registry.nodes)
  {
    if es != [] {
      var init, e := es[..|es| - 1], es[|es| - 1];
      assert init + [e] == es;
      var w := Run(init);
      var nodes := w.registry.nodes;
      ListedByJoining(init);
      RunAgrees(init);
      forall i | 0 <= i < |nodes| ensures Joined(es, nodes[i].id) == Joined(init, nodes[i].id) <= |init| {
        StaysJoined(init, e, i);
      }
      match e
      case Reboot => RestartRestoresFacts(w);
      case Do(op) => if Outcomes(w.registry, op) != Raised { OpKeepsOrder(init, op); }
    }
  }

  lemma {:induction false} OpKeepsOrder(init: seq<Event>, op: Op)
    requires Keyed(Run(init).registry.nodes) && ByJoining(init, Run(init).registry.nodes)
    requires Outcomes(Run(init).registry, op) != Raised
    requires forall i :: 0 <= i < |Run(init).registry.nodes| ==>
      Joined(init + [Do(op)], Run(init).registry.nodes[i].id) == Joined(init, Run(init).registry.nodes[i].id) <= |init|
    ensures ByJoining(init + [Do(op)], InMemory(Run(init).registry, op).nodes)
  {
    var r, e := Run(init).registry, Do(op);
    match op
    case Register(n) =>
      RunIsHistory(init, n.id);
      JoinedAfter(init, e, n.id);
      PutOrder(init, e, r.nodes, n);
    case Unregister(id) => DropOrder(r.nodes, id, init + [e]);
    case Evict(id) => DropOrder(r.nodes, id, init + [e]);
    case Update(n) => PutOrder(init, e, r.nodes, n);
    case SetModels(id, models) => PutOrder(init, e, r.nodes, WithModels(r, id, models));
    case _ =>
  }
}
