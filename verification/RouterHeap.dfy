/** The router's handlers and sweep loop over a live registry. */
module RouterHeap {
  import opened Common
  import opened RegistryModel
  import opened RegistryHeap
  import opened RouterModel

  class ZenohRouter {
    const config: Config
    const registry: NodeRegistry
    var lastVerified: map<Id, real>

    constructor (config: Config, registry: NodeRegistry)
      ensures this.config == config && this.registry == registry && lastVerified == map[]
    {
      this.config, this.registry, lastVerified := config, registry, map[];
    }

    ghost function View(): Router
      reads this, registry, registry.store
    {
      Router(registry.View(), lastVerified)
    }

    method ProcessHeartbeat(topic: Option<Id>, payload: string, now: real)
      modifies this, registry, registry.store
      ensures View() == OnHeartbeat(config, old(View()), topic, payload, now)
    {
      if topic == None { return; }
      var id := topic.value;
      if Find(registry.nodes, id) == |registry.nodes| { return; }
      if id !in registry.tokens || registry.tokens[id] == "" { return; }
      var found := config.open(registry.tokens[id], id, payload);
      if found == None || found.value.node != id { return; }
      var out := registry.UpdateHeartbeat(found.value);
      if out == Raised { return; }
      registry.MarkMeshReachable(id);
      lastVerified := lastVerified[id := now];
    }

    method EvictStaleNode(id: Id, now: real) returns (evicted: bool)
      modifies this, registry, registry.store
      ensures View() == EvictIfStale(config, old(View()), id, now)
      ensures evicted <==> Registered(old(View()), id) && !Fresh(config, old(View()), id, now)
    {
      if id in lastVerified && now - lastVerified[id] < config.staleAfter { return false; }
      if Find(registry.nodes, id) == |registry.nodes| { return false; }
      evicted := registry.LocalUnregisterNode(id);
      if !evicted { return; }
      lastVerified := lastVerified - {id};
    }

    method ProcessDeathrattle(id: Id, now: real)
      modifies this, registry, registry.store
      ensures View() == RouterModel.Step(config, old(View()), LivelinessDelete(id, now))
    {
      var _ := EvictStaleNode(id, now);
    }

    /** The list is taken once; each node in it is then checked at its own clock reading. */
    method SweepStaleNodes(readings: seq<real>)
      requires |readings| == |registry.nodes|
      modifies this, registry, registry.store
      ensures View() == RouterModel.Step(config, old(View()), Sweep(readings))
    {
      var listed := registry.nodes;
      for i := 0 to |listed|
        invariant View() == SweepFirst(config, old(View()), listed, readings, i)
      {
        var _ := EvictStaleNode(listed[i].id, readings[i]);
      }
    }
  }

  /** A new process over the same store: the registry is reloaded, the router remembers nobody. */
  method StartUp(config: Config, store: SQLiteStore, ghost s: Router, now: real) returns (router: ZenohRouter)
    requires s.world.store == Some(store.View())
    ensures router.config == config && router.View() == RouterModel.Step(config, s, RouterModel.Event.Reboot(now))
  {
    var registry := new NodeRegistry(store);
    registry.Load();
    router := new ZenohRouter(config, registry);
  }
}
