/** The registry and its store as the source writes them: dictionaries reassigned in place. */
module RegistryHeap {
  import opened Common
  import opened RegistryModel

  class SQLiteStore {
    var nodes: seq<Node>
    var tokens: map<Id, string>

    constructor ()
      ensures View() == Tables([], map[])
    {
      nodes, tokens := [], map[];
    }

    ghost function View(): Tables
      reads this
    {
      Tables(nodes, tokens)
    }

    /** INSERT ... ON CONFLICT DO UPDATE: an existing row keeps its rowid. */
    method SaveNode(n: Node)
      modifies this
      ensures View() == old(View()).(nodes := Put(old(nodes), n))
    {
      var i := Find(nodes, n.id);
      if i < |nodes| {
        nodes := nodes[i := n];
      } else {
        nodes := nodes + [n];
      }
    }

    method DeleteNode(id: Id)
      modifies this
      ensures View() == Tables(Drop(old(nodes), id), old(tokens) - {id})
    {
      nodes := Drop(nodes, id);
      tokens := tokens - {id};
    }

    method ClearNodes()
      modifies this
      ensures View() == Tables([], map[])
    {
      nodes := [];
      tokens := map[];
    }

    method SaveNodeToken(id: Id, token: string)
      modifies this
      ensures View() == old(View()).(tokens := if token != "" then old(tokens)[id := token] else old(tokens) - {id})
    {
      if token != "" {
        tokens := tokens[id := token];
      } else {
        tokens := tokens - {id};
      }
    }
  }

  class NodeRegistry {
    const store: SQLiteStore?
    var nodes: seq<Node>
    var heartbeats: map<Id, Heartbeat>
    var dampeners: map<Id, real>
    var telemetry: map<Id, string>
    var tokens: map<Id, string>
    var mesh: set<Id>

    constructor (store: SQLiteStore?)
      ensures this.store == store && Memory() == BLANK
    {
      this.store := store;
      nodes, heartbeats, dampeners := [], map[], map[];
      telemetry, tokens, mesh := map[], map[], {};
    }

    ghost function Memory(): Registry
      reads this
    {
      Registry(nodes, heartbeats, dampeners, telemetry, tokens, mesh)
    }

    ghost function View(): World
      reads this, store
    {
      World(Memory(), if store == null then None else Some(store.View()))
    }

    /** Refill from the store, row by row. */
    method Load()
      modifies this
      ensures store == null ==> Memory() == old(Memory())
      ensures store != null ==> Memory() == RegistryModel.Load(old(Memory()), store.View())
    {
      if store == null { return; }
      var rows := store.nodes;
      for i := 0 to |rows|
        invariant nodes == PutAll(old(nodes), rows[..i])
        invariant dampeners == old(dampeners) + Zeros(Ids(rows[..i]))
        invariant heartbeats == old(heartbeats) && telemetry == old(telemetry)
        invariant tokens == old(tokens) && mesh == old(mesh)
      {
        var n := rows[i];
        assert rows[..i + 1][..i] == rows[..i];
        IdsSnoc(rows[..i], n);
        assert rows[..i + 1] == rows[..i] + [n];
        nodes := Put(nodes, n);
        ZerosSnoc(old(dampeners), Ids(rows[..i]), n.id);
        dampeners := dampeners[n.id := 0.0];
      }
      assert rows[..|rows|] == rows;
      tokens := tokens + store.tokens;
    }

    method LocalRegister(n: Node) returns (out: Outcome)
      modifies this, store
      ensures out == Outcomes(old(Memory()), Register(n)) && View() == Apply(old(View()), Register(n))
    {
      if Find(nodes, n.id) < |nodes| { return Raised; }
      nodes := nodes + [n];
      dampeners := dampeners[n.id := 0.0];
      if store != null { store.SaveNode(n); }
      out := Done;
    }

    /** Pop the node from every dictionary and both tables. */
    method Pop(id: Id)
      modifies this, store
      ensures Memory() == Depart(old(Memory()), id)
      ensures store != null ==> store.View() == Tables(Drop(old(store.nodes), id), old(store.tokens) - {id})
    {
      nodes := Drop(nodes, id);
      heartbeats := heartbeats - {id};
      dampeners := dampeners - {id};
      telemetry := telemetry - {id};
      tokens := tokens - {id};
      mesh := mesh - {id};
      if store != null { store.DeleteNode(id); }
    }

    method LocalUnregister(id: Id) returns (out: Outcome)
      modifies this, store
      ensures out == Outcomes(old(Memory()), Unregister(id)) && View() == Apply(old(View()), Unregister(id))
    {
      if Find(nodes, id) == |nodes| { return Raised; }
      Pop(id);
      out := Done;
    }

    method LocalUnregisterNode(id: Id) returns (present: bool)
      modifies this, store
      ensures Removed(present) == Outcomes(old(Memory()), Evict(id)) && View() == Apply(old(View()), Evict(id))
    {
      present := Find(nodes, id) < |nodes|;
      Pop(id);
    }

    method UpdateNode(n: Node) returns (out: Outcome)
      modifies this, store
      ensures out == Outcomes(old(Memory()), Update(n)) && View() == Apply(old(View()), Update(n))
    {
      var i := Find(nodes, n.id);
      if i == |nodes| { return Raised; }
      nodes := nodes[i := n];
      if store != null { store.SaveNode(n); }
      out := Done;
    }

    method SetAvailableModels(id: Id, models: seq<string>) returns (out: Outcome)
      modifies this, store
      ensures out == Outcomes(old(Memory()), SetModels(id, models))
      ensures View() == Apply(old(View()), SetModels(id, models))
    {
      var i := Find(nodes, id);
      if i == |nodes| { return Raised; }
      var updated := nodes[i].(models := models);
      nodes := nodes[i := updated];
      if store != null { store.SaveNode(updated); }
      out := Done;
    }

    method ClearAll()
      modifies this, store
      ensures View() == Apply(old(View()), Clear)
    {
      nodes, heartbeats, dampeners := [], map[], map[];
      telemetry, tokens, mesh := map[], map[], {};
      if store != null { store.ClearNodes(); }
    }

    method SetNodeToken(id: Id, token: string)
      modifies this, store
      ensures View() == Apply(old(View()), SetToken(id, token))
    {
      if token != "" {
        tokens := tokens[id := token];
      } else {
        tokens := tokens - {id};
        mesh := mesh - {id};
      }
      if store != null { store.SaveNodeToken(id, token); }
    }

    method UpdateHeartbeat(h: Heartbeat) returns (out: Outcome)
      modifies this
      ensures out == Outcomes(old(Memory()), Beat(h)) && View() == Apply(old(View()), Beat(h))
    {
      if Find(nodes, h.node) == |nodes| { return Raised; }
      heartbeats := heartbeats[h.node := h];
      dampeners := dampeners[h.node := 0.0];
      out := Done;
    }

    method BumpDampener(id: Id) returns (out: Outcome)
      modifies this
      ensures out == Outcomes(old(Memory()), IncrementDampener(id))
      ensures View() == Apply(old(View()), IncrementDampener(id))
    {
      if Find(nodes, id) == |nodes| { return Raised; }
      dampeners := Bump(dampeners, id);
      out := Done;
    }

    method MarkMeshReachable(id: Id)
      modifies this
      ensures View() == Apply(old(View()), MarkMesh(id))
    {
      mesh := mesh + {id};
    }
  }

  lemma {:induction false} ZerosSnoc(d: map<Id, real>, ids: set<Id>, id: Id)
    ensures (d + Zeros(ids))[id := 0.0] == d + Zeros(ids + {id})
  {
  }

  lemma {:induction false} IdsSnoc(nodes: seq<Node>, n: Node)
    ensures Ids(nodes + [n]) == Ids(nodes) + {n.id}
  {
    var more := nodes + [n];
    assert more[|nodes|] == n;
    forall id | id in Ids(nodes) ensures id in Ids(more) {
      var k :| 0 <= k < |nodes| && nodes[k].id == id;
      assert more[k].id == id;
    }
  }
}
