/** What holds in every run of the hub (server/hub.go): channels, registries, presence
    events and heartbeats. */
module HubRuns {
  import opened Frames
  import opened HubModel

  // ------------------------------------------------------ channels and registries

  lemma {:induction false} RunKeepsInv<C>(h: Hub<C>, es: seq<Event<C>>)
    requires Inv(h) && Run(h, es)
    ensures Inv(After(h, es))
    decreases |es|
  {
    if es != [] {
      StepKeepsInv(h, es[0]);
      RunKeepsInv(Step(h, es[0]), es[1..]);
    }
  }

  /** In every reachable state: no channel has been closed twice; a connection that was
      ever registered has an open channel exactly when it is in its registry, and one that
      is yet to be registered is open and in none; an agent id has one connection; a user's
      list is not empty, has no duplicates and at most one connection a device. */
  lemma HubIsSafe<C>(es: seq<Event<C>>)
    requires Run(Empty(), es)
    ensures var h := After(Empty(), es);
            && (forall c :: c in h.conns ==> h.conns[c].closes <= 1)
            && (forall c :: c in h.conns && h.conns[c].joined ==> (h.conns[c].closes == 0 <==> Registered(h, c)))
            && (forall c :: c in h.conns && !h.conns[c].joined ==> h.conns[c].closes == 0 && !Registered(h, c))
            && (forall c :: c in h.conns ==> h.conns[c].closed == (h.conns[c].closes == 1))
            && AgentsOk(h) && ClientsOk(h)
  {
    var h := After(Empty(), es);
    RunKeepsInv(Empty(), es);
    forall c | c in h.conns
      ensures h.conns[c].closes <= 1 && h.conns[c].closed == (h.conns[c].closes == 1)
      ensures Registered(h, c) <==> h.conns[c].joined && h.conns[c].closes == 0
    {
      assert ConnOk(h, c);
      if Registered(h, c) { RegisteredIsOpen(h, c); }
    }
  }

  lemma RegisteredIsOpen<C>(h: Hub<C>, c: C)
    requires Inv(h) && Registered(h, c)
    ensures !h.conns[c].closed && h.conns[c].closes == 0 && h.conns[c].joined
  {
    assert ConnOk(h, c);
    if h.conns[c].kind == Client {
      var cs := h.clients[h.conns[c].id];
      var i :| 0 <= i < |cs| && cs[i] == c;
      assert LiveClient(h, h.conns[c].id, cs[i]);
    }
  }

  // ---------------------------------------------------- what does not touch a connection

  /** The event neither unregisters `x` nor registers a connection that replaces it. */
  predicate Spares<C(==)>(h: Hub<C>, e: Event<C>, x: C) {
    match e
    case Unregister(c) => c != x
    case Register(c, _) => c in h.conns && x in h.conns ==> !Replaces(h.conns[c], h.conns[x])
    case _ => true
  }

  predicate Replaces(a: Conn, b: Conn) {
    a.kind == b.kind && a.id == b.id && (a.kind == Client ==> a.device != "" && a.device == b.device)
  }

  lemma RegisterClientSpares<C>(h: Hub<C>, c: C, x: C)
    requires Inv(h) && Waiting(h, c, Client) && Registered(h, x) && !Replaces(h.conns[c], h.conns[x])
    ensures Registered(RegisterClient(h, c), x)
  {
    var id, device := h.conns[c].id, h.conns[c].device;
    var cs, i := Devices(h, id), Slot(h, id, device);
    RegisteredIsOpen(h, x);
    RegisterClientList(h, c);
    assert forall j :: 0 <= j < |cs| ==> LiveClient(h, id, cs[j]);
    FindDeviceIs(h, cs, device);
    if x in cs {
      var j :| 0 <= j < |cs| && cs[j] == x;
      assert RegisterClient(h, c).clients[id][j] == x;
    }
  }

  lemma UnregisterClientSpares<C>(h: Hub<C>, c: C, x: C)
    requires Inv(h) && c in h.conns && h.conns[c].kind == Client && Registered(h, x) && c != x
    ensures Registered(UnregisterClient(h, c, h.conns[c].id), x)
  {
    var cs := Devices(h, h.conns[c].id);
    if c in cs {
      assert ListOk(h, h.conns[c].id, cs);
      SwapRemoveKeeps(cs, Find(cs, c), x);
    }
  }

  lemma RegisterAgentSpares<C>(h: Hub<C>, c: C, now: int, x: C)
    requires Inv(h) && Waiting(h, c, Agent) && Registered(h, x) && !Replaces(h.conns[c], h.conns[x])
    ensures Registered(RegisterAgent(h, c, now), x)
  {
    RegisteredIsOpen(h, x);
  }

  /** Nothing else removes a registered connection. */
  lemma StepSpares<C>(h: Hub<C>, e: Event<C>, x: C)
    requires Inv(h) && Enabled(h, e) && Registered(h, x) && Spares(h, e, x)
    ensures Registered(Step(h, e), x)
  {
    match e
    case Register(c, now) =>
      if h.conns[c].kind == Agent { RegisterAgentSpares(h, c, now, x); } else { RegisterClientSpares(h, c, x); }
    case Unregister(c) => if h.conns[c].kind == Client { UnregisterClientSpares(h, c, x); }
    case _ =>
  }

  // -------------------------------------------------------------------- presence

  /** Whether the last presence event for this agent says it is online. */
  function LastOnline(log: seq<(string, bool)>, id: string): bool {
    if log == [] then false
    else if log[|log| - 1].0 == id then log[|log| - 1].1
    else LastOnline(log[..|log| - 1], id)
  }

  ghost predicate PresenceOk<C>(h: Hub<C>, id: string) {
    LastOnline(h.presence, id) <==> id in h.agents
  }

  lemma StepKeepsPresence<C>(h: Hub<C>, e: Event<C>, id: string)
    requires PresenceOk(h, id) && Enabled(h, e)
    ensures PresenceOk(Step(h, e), id)
  {
    var k := Step(h, e);
    if k.presence != h.presence {
      assert k.presence[..|k.presence| - 1] == h.presence;
    }
  }

  lemma {:induction false} RunKeepsPresence<C>(h: Hub<C>, es: seq<Event<C>>, id: string)
    requires PresenceOk(h, id) && Run(h, es)
    ensures PresenceOk(After(h, es), id)
    decreases |es|
  {
    if es != [] {
      StepKeepsPresence(h, es[0], id);
      RunKeepsPresence(Step(h, es[0]), es[1..], id);
    }
  }

  /** Through replacements, late and repeated unregisters and evictions, the last event
      emitted for an agent id says "online" exactly when the id is registered. */
  lemma PresenceIsAccurate<C>(es: seq<Event<C>>, id: string)
    requires Run(Empty<C>(), es)
    ensures LastOnline(After(Empty<C>(), es).presence, id) <==> id in After(Empty<C>(), es).agents
  {
    RunKeepsPresence(Empty<C>(), es, id);
  }
}
