/** The connection hub (server/hub.go) as a state machine over values. `C` is whatever
    identifies a connection; the classes of module HubServer use the object itself. */
module HubModel {
  import opened Frames

  /** Slots of a send channel, as the connect handlers make it. */
  const CAPACITY := 256

  /** A connection: `send` is the channel's buffer and `taken` what the write pump has
      received from it. `joined` says that the hub has handled its registration, `closed` is
      the flag, `closes` counts close() of the channel. */
  datatype Conn = Conn(kind: Kind, id: string, device: string, taken: seq<Frame>, send: seq<Frame>,
                       joined: bool, closed: bool, closes: nat, heartbeat: int)

  /** Everything that ever entered the channel. */
  function Sent(c: Conn): seq<Frame> { c.taken + c.send }

  predicate Accepts(c: Conn) { !c.closed && |c.send| < CAPACITY }

  /** `SafeSend`: dropped when the connection is closed or the buffer full. */
  function Push(c: Conn, f: Frame): Conn {
    if Accepts(c) then c.(send := c.send + [f]) else c
  }

  /** `MarkClosed` and close(send). */
  function Shut(c: Conn): Conn { c.(closed := true, closes := c.closes + 1) }

  function NewConn(kind: Kind, id: string, device: string): Conn {
    Conn(kind, id, device, [], [], false, false, 0, 0)
  }

  /** The two registries, every connection ever handed to the hub, and the presence events
      emitted so far. */
  datatype Hub<C(==)> = Hub(agents: map<string, C>, clients: map<string, seq<C>>,
                            conns: map<C, Conn>, presence: seq<(string, bool)>)

  function Empty<C>(): Hub<C> { Hub(map[], map[], map[], []) }

  function Devices<C>(h: Hub<C>, user: string): seq<C> {
    if user in h.clients then h.clients[user] else []
  }

  predicate Listed<C>(h: Hub<C>, c: C) {
    c in h.conns && h.conns[c].kind == Client && c in Devices(h, h.conns[c].id)
  }

  predicate Registered<C>(h: Hub<C>, c: C) {
    c in h.conns &&
    match h.conns[c].kind
    case Agent => h.conns[c].id in h.agents && h.agents[h.conns[c].id] == c
    case Client => c in Devices(h, h.conns[c].id)
  }

  function Update<C>(h: Hub<C>, c: C, conn: Conn): Hub<C> { h.(conns := h.conns[c := conn]) }

  function Close<C>(h: Hub<C>, c: C): Hub<C> {
    if c in h.conns then Update(h, c, Shut(h.conns[c])) else h
  }

  function PushClients<C>(h: Hub<C>, f: Frame): Hub<C> {
    h.(conns := map c | c in h.conns :: if Listed(h, c) then Push(h.conns[c], f) else h.conns[c])
  }

  /** `broadcastPresence`. */
  function Announce<C>(h: Hub<C>, agent: string, online: bool): Hub<C> {
    PushClients(h, Presence(agent, online)).(presence := h.presence + [(agent, online)])
  }

  /** The first connection in the list with this device id, or the list's length. */
  function FindDevice<C>(h: Hub<C>, cs: seq<C>, device: string): nat
    ensures FindDevice(h, cs, device) <= |cs|
  {
    if cs == [] then 0
    else if cs[0] in h.conns && h.conns[cs[0]].device == device then 0
    else 1 + FindDevice(h, cs[1..], device)
  }

  function Find<C(==)>(cs: seq<C>, c: C): nat
    ensures Find(cs, c) <= |cs|
    ensures Find(cs, c) < |cs| ==> cs[Find(cs, c)] == c
    ensures Find(cs, c) == |cs| ==> c !in cs
  {
    if cs == [] then 0 else if cs[0] == c then 0 else 1 + Find(cs[1..], c)
  }

  lemma {:induction false} FindIs<C>(cs: seq<C>, c: C, i: nat)
    requires i <= |cs| && (forall k :: 0 <= k < i ==> cs[k] != c) && (i < |cs| ==> cs[i] == c)
    ensures Find(cs, c) == i
    decreases |cs|
  {
    if i > 0 { FindIs(cs[1..], c, i - 1); }
  }

  /** Removal that does not preserve order: the last element takes the gap. */
  function SwapRemove<C>(cs: seq<C>, i: nat): seq<C>
    requires i < |cs|
  {
    cs[i := cs[|cs| - 1]][..|cs| - 1]
  }

  /** The agent registry with this connection in it, any earlier one closed. */
  function AgentAdded<C>(h: Hub<C>, c: C, now: int): Hub<C>
    requires c in h.conns
  {
    var conn := h.conns[c];
    var cleared := if conn.id in h.agents then Close(h, h.agents[conn.id]) else h;
    Update(cleared, c, conn.(joined := true, heartbeat := now)).(agents := h.agents[conn.id := c])
  }

  function RegisterAgent<C>(h: Hub<C>, c: C, now: int): Hub<C>
    requires c in h.conns
  {
    Announce(AgentAdded(h, c, now), h.conns[c].id, true)
  }

  /** Where a new client connection goes in its user's list. */
  function Slot<C>(h: Hub<C>, id: string, device: string): nat {
    if device == "" then |Devices(h, id)| else FindDevice(h, Devices(h, id), device)
  }

  function RegisterClient<C>(h: Hub<C>, c: C): Hub<C>
    requires c in h.conns
  {
    var conn := h.conns[c];
    var (cs, i) := (Devices(h, conn.id), Slot(h, conn.id, conn.device));
    if i < |cs| then
      Update(Close(h, cs[i]), c, conn.(joined := true)).(clients := h.clients[conn.id := cs[i := c]])
    else
      Update(h, c, conn.(joined := true)).(clients := h.clients[conn.id := cs + [c]])
  }

  function AgentRemoved<C>(h: Hub<C>, c: C, id: string): Hub<C>
    requires c in h.conns
  {
    (if h.conns[c].closed then h else Close(h, c)).(agents := h.agents - {id})
  }

  function UnregisterAgent<C>(h: Hub<C>, c: C, id: string): Hub<C>
    requires c in h.conns
  {
    if id in h.agents && h.agents[id] == c then Announce(AgentRemoved(h, c, id), id, false) else h
  }

  function UnregisterClient<C>(h: Hub<C>, c: C, id: string): Hub<C>
    requires c in h.conns
  {
    var cs := Devices(h, id);
    var i := Find(cs, c);
    var left :=
      if i == |cs| then h.clients
      else if |cs| == 1 then h.clients - {id}
      else h.clients[id := SwapRemove(cs, i)];
    (if h.conns[c].closed then h else Close(h, c)).(clients := left)
  }

  /** What the hub goroutine and the holders of pointers, stale or fresh, can do, one mutex
      section or channel operation each. `Open` is the hub's receipt of a new connection:
      from then on the handler goes on with pumps, replay and welcome, while the hub has
      yet to take its lock for `Register`. */
  datatype Event<C> =
    | Open(c: C, kind: Kind, id: string, device: string)
    | Register(c: C, now: int)
    | Unregister(c: C)
    | Send(c: C, frame: Frame)
    | Broadcast(frame: Frame)
    | Receive(c: C)
    | Touch(c: C, now: int)

  /** A connection is opened and registered once. The hub handles one message at a time, so
      it sees an unregister after the registration; all else can be earlier, or long after
      the connection was closed. */
  predicate Enabled<C>(h: Hub<C>, e: Event<C>) {
    match e
    case Open(c, _, _, _) => c !in h.conns
    case Register(c, _) => c in h.conns && !h.conns[c].joined
    case Unregister(c) => c in h.conns && h.conns[c].joined
    case Send(c, _) => c in h.conns
    case Broadcast(_) => true
    case Receive(c) => c in h.conns && h.conns[c].send != []
    case Touch(c, _) => c in h.conns
  }

  function Step<C>(h: Hub<C>, e: Event<C>): Hub<C>
    requires Enabled(h, e)
  {
    match e
    case Open(c, kind, id, device) => Update(h, c, NewConn(kind, id, device))
    case Register(c, now) => if h.conns[c].kind == Agent then RegisterAgent(h, c, now) else RegisterClient(h, c)
    case Unregister(c) =>
      if h.conns[c].kind == Agent then UnregisterAgent(h, c, h.conns[c].id) else UnregisterClient(h, c, h.conns[c].id)
    case Send(c, f) => Update(h, c, Push(h.conns[c], f))
    case Broadcast(f) =>
      h.(conns := map c | c in h.conns :: if Registered(h, c) then Push(h.conns[c], f) else h.conns[c])
    case Receive(c) =>
      var conn := h.conns[c];
      Update(h, c, conn.(taken := conn.taken + [conn.send[0]], send := conn.send[1..]))
    case Touch(c, now) => Update(h, c, h.conns[c].(heartbeat := now))
  }

  predicate Run<C>(h: Hub<C>, es: seq<Event<C>>)
    decreases |es|
  {
    es == [] || (Enabled(h, es[0]) && Run(Step(h, es[0]), es[1..]))
  }

  function After<C>(h: Hub<C>, es: seq<Event<C>>): Hub<C>
    requires Run(h, es)
    decreases |es|
  {
    if es == [] then h else After(Step(h, es[0]), es[1..])
  }

  // ------------------------------------------------------------------ invariants

  /** One live connection an agent id, and it is that agent's. */
  ghost predicate AgentsOk<C>(h: Hub<C>) {
    forall id :: id in h.agents ==>
      var c := h.agents[id];
      c in h.conns && h.conns[c].kind == Agent && h.conns[c].id == id && h.conns[c].joined && !h.conns[c].closed
  }

  ghost predicate LiveClient<C>(h: Hub<C>, user: string, c: C) {
    c in h.conns && h.conns[c].kind == Client && h.conns[c].id == user && h.conns[c].joined && !h.conns[c].closed
  }

  /** A user's list is not empty, holds live connections of that user, none twice, and at
      most one for each device id that is not empty. */
  ghost predicate ListOk<C>(h: Hub<C>, user: string, cs: seq<C>) {
    && cs != []
    && (forall i :: 0 <= i < |cs| ==> LiveClient(h, user, cs[i]))
    && (forall i, j :: 0 <= i < j < |cs| ==> cs[i] != cs[j])
    && (forall i, j :: 0 <= i < j < |cs| ==>
          h.conns[cs[i]].device != h.conns[cs[j]].device || h.conns[cs[i]].device == "")
  }

  ghost predicate ClientsOk<C>(h: Hub<C>) {
    forall u :: u in h.clients ==> ListOk(h, u, h.clients[u])
  }

  /** A connection that has joined and is not marked closed is registered, and one that has
      not joined is not marked; the channel has been closed once if the connection is
      marked and never otherwise; the buffer is within its capacity. */
  ghost predicate ConnOk<C>(h: Hub<C>, c: C)
    requires c in h.conns
  {
    var conn := h.conns[c];
    && (conn.joined && !conn.closed ==> Registered(h, c))
    && (conn.closed ==> conn.joined)
    && conn.closes == (if conn.closed then 1 else 0)
    && |conn.send| <= CAPACITY
  }

  ghost predicate Inv<C>(h: Hub<C>) {
    AgentsOk(h) && ClientsOk(h) && forall c :: c in h.conns ==> ConnOk(h, c)
  }

  /** The same registries over the same connections, whose buffers alone may differ. */
  ghost predicate SameShape<C>(h: Hub<C>, k: Hub<C>) {
    && k.agents == h.agents && k.clients == h.clients && k.conns.Keys == h.conns.Keys
    && forall c :: c in h.conns ==>
         && k.conns[c].kind == h.conns[c].kind && k.conns[c].id == h.conns[c].id
         && k.conns[c].device == h.conns[c].device && k.conns[c].joined == h.conns[c].joined
         && k.conns[c].closed == h.conns[c].closed
         && k.conns[c].closes == h.conns[c].closes && |k.conns[c].send| <= CAPACITY
  }

  lemma SameShapeKeepsInv<C>(h: Hub<C>, k: Hub<C>)
    requires Inv(h) && SameShape(h, k)
    ensures Inv(k)
  {
    forall u | u in k.clients ensures ListOk(k, u, k.clients[u]) {
      assert ListOk(h, u, h.clients[u]);
    }
    forall c | c in k.conns ensures ConnOk(k, c) { assert ConnOk(h, c); }
  }

  lemma {:induction false} FindDeviceIs<C>(h: Hub<C>, cs: seq<C>, device: string)
    requires forall i :: 0 <= i < |cs| ==> cs[i] in h.conns
    ensures var i := FindDevice(h, cs, device);
            && (i < |cs| ==> h.conns[cs[i]].device == device)
            && (forall k :: 0 <= k < i ==> h.conns[cs[k]].device != device)
    decreases |cs|
  {
    if cs != [] {
      FindDeviceIs(h, cs[1..], device);
      var i := FindDevice(h, cs, device);
      forall k | 0 <= k < i ensures h.conns[cs[k]].device != device {
        if k > 0 { assert cs[k] == cs[1..][k - 1]; }
      }
    }
  }

  /** Lists that a change of other connections does not reach. */
  lemma ListFrame<C>(h: Hub<C>, k: Hub<C>, u: string, cs: seq<C>)
    requires ListOk(h, u, cs)
    requires forall c :: c in cs ==> c in k.conns && k.conns[c] == h.conns[c]
    ensures ListOk(k, u, cs)
  {
    forall i | 0 <= i < |cs| ensures LiveClient(k, u, cs[i]) {
      assert cs[i] in cs && LiveClient(h, u, cs[i]);
    }
    forall i, j | 0 <= i < j < |cs|
      ensures k.conns[cs[i]].device != k.conns[cs[j]].device || k.conns[cs[i]].device == ""
    {
      assert cs[i] in cs && cs[j] in cs;
    }
  }

  /** A connection as the handlers hand it over, or with frames in it already. */
  predicate Waiting<C>(h: Hub<C>, c: C, kind: Kind) {
    c in h.conns && h.conns[c].kind == kind && !h.conns[c].joined
  }

  lemma AgentAddedKeepsInv<C>(h: Hub<C>, c: C, now: int)
    requires Inv(h) && Waiting(h, c, Agent)
    ensures Inv(AgentAdded(h, c, now))
  {
    var k := AgentAdded(h, c, now);
    assert ConnOk(h, c);
    forall u | u in k.clients ensures ListOk(k, u, k.clients[u]) {
      forall x | x in h.clients[u] ensures x in k.conns && k.conns[x] == h.conns[x] {
        assert LiveClient(h, u, x);
      }
      ListFrame(h, k, u, h.clients[u]);
    }
    forall x | x in k.conns ensures ConnOk(k, x) {
      if x != c { assert ConnOk(h, x); }
    }
  }

  lemma AgentRemovedKeepsInv<C>(h: Hub<C>, c: C, id: string)
    requires AgentsOk(h) && ClientsOk(h) && c in h.conns && id in h.agents && h.agents[id] == c
    requires forall x :: x in h.conns ==> ConnOk(h, x)
    ensures Inv(AgentRemoved(h, c, id))
  {
    var k := AgentRemoved(h, c, id);
    forall u | u in k.clients ensures ListOk(k, u, k.clients[u]) {
      forall x | x in h.clients[u] ensures x in k.conns && k.conns[x] == h.conns[x] {
        assert LiveClient(h, u, x);
      }
      ListFrame(h, k, u, h.clients[u]);
    }
    forall x | x in k.conns ensures ConnOk(k, x) { assert ConnOk(h, x); }
  }

  lemma AnnounceKeepsInv<C>(h: Hub<C>, agent: string, online: bool)
    requires Inv(h)
    ensures Inv(Announce(h, agent, online))
  {
    forall c | c in h.conns ensures |h.conns[c].send| <= CAPACITY { assert ConnOk(h, c); }
    SameShapeKeepsInv(h, Announce(h, agent, online));
  }

  lemma RegisterClientList<C>(h: Hub<C>, c: C)
    requires Inv(h) && Waiting(h, c, Client)
    ensures var id, device := h.conns[c].id, h.conns[c].device;
            var k, cs, i := RegisterClient(h, c), Devices(h, id), Slot(h, id, device);
            && id in k.clients && ListOk(k, id, k.clients[id])
            && k.clients[id] == (if i < |cs| then cs[i := c] else cs + [c])
            && (forall x :: x in h.conns && x != c && !(i < |cs| && x == cs[i]) ==>
                              x in k.conns && k.conns[x] == h.conns[x])
            && (i < |cs| ==> cs[i] in h.conns && cs[i] != c && k.conns[cs[i]] == Shut(h.conns[cs[i]]))
  {
    var id, device := h.conns[c].id, h.conns[c].device;
    var cs, i := Devices(h, id), Slot(h, id, device);
    assert ConnOk(h, c);
    assert cs != [] ==> ListOk(h, id, cs);
    assert forall j :: 0 <= j < |cs| ==> LiveClient(h, id, cs[j]);
    FindDeviceIs(h, cs, device);
    var k := RegisterClient(h, c);
    var ds := k.clients[id];
    forall j | 0 <= j < |ds| ensures LiveClient(k, id, ds[j]) {
      if j != i { assert ds[j] == cs[j] && cs[j] != c && k.conns[cs[j]] == h.conns[cs[j]]; }
    }
    forall a, b | 0 <= a < b < |ds|
      ensures ds[a] != ds[b] && (k.conns[ds[a]].device != k.conns[ds[b]].device || k.conns[ds[a]].device == "")
    {
      if a != i { assert k.conns[cs[a]] == h.conns[cs[a]]; }
      if b != i { assert k.conns[cs[b]] == h.conns[cs[b]]; }
      if a == i && i < |cs| { assert h.conns[cs[a]].device == device; }
    }
  }

  lemma RegisterClientKeepsInv<C>(h: Hub<C>, c: C)
    requires Inv(h) && Waiting(h, c, Client)
    ensures Inv(RegisterClient(h, c))
  {
    var id, device := h.conns[c].id, h.conns[c].device;
    var cs, i := Devices(h, id), Slot(h, id, device);
    var k := RegisterClient(h, c);
    RegisterClientList(h, c);
    forall u | u in k.clients && u != id ensures ListOk(k, u, k.clients[u]) {
      forall x | x in h.clients[u] ensures x in k.conns && k.conns[x] == h.conns[x] {
        assert LiveClient(h, u, x);
        if i < |cs| { assert LiveClient(h, id, cs[i]); }
      }
      ListFrame(h, k, u, h.clients[u]);
    }
    forall x | x in k.conns ensures ConnOk(k, x) {
      assert ConnOk(h, x);
      if x == c {
        assert k.clients[id][i] == c;
      } else if x in cs && !k.conns[x].closed {
        var j :| 0 <= j < |cs| && cs[j] == x;
        assert k.clients[id][j] == x;
      }
    }
  }

  lemma SwapRemoveKeeps<C>(cs: seq<C>, i: nat, x: C)
    requires i < |cs| && forall a, b :: 0 <= a < b < |cs| ==> cs[a] != cs[b]
    ensures x in SwapRemove(cs, i) <==> x in cs && x != cs[i]
  {
    var ds := SwapRemove(cs, i);
    if x in cs && x != cs[i] {
      var j :| 0 <= j < |cs| && cs[j] == x;
      assert ds[if j == |cs| - 1 then i else j] == x;
    }
  }

  lemma SwapRemoveListOk<C>(h: Hub<C>, k: Hub<C>, user: string, cs: seq<C>, i: nat)
    requires ListOk(h, user, cs) && i < |cs| && |cs| > 1
    requires forall x :: x in cs && x != cs[i] ==> x in k.conns && k.conns[x] == h.conns[x]
    ensures ListOk(k, user, SwapRemove(cs, i))
  {
    var ds := SwapRemove(cs, i);
    forall j | 0 <= j < |ds| ensures ds[j] in cs && ds[j] != cs[i] && LiveClient(k, user, ds[j]) {
      var m := if j == i then |cs| - 1 else j;
      assert ds[j] == cs[m] && LiveClient(h, user, cs[m]);
    }
  }

  lemma UnregisterClientKeepsInv<C>(h: Hub<C>, c: C, id: string)
    requires Inv(h) && c in h.conns && h.conns[c].joined && h.conns[c].kind == Client && h.conns[c].id == id
    ensures Inv(UnregisterClient(h, c, id))
  {
    var cs := Devices(h, id);
    var i := Find(cs, c);
    var k := UnregisterClient(h, c, id);
    assert ConnOk(h, c);
    if i < |cs| {
      assert ListOk(h, id, cs);
      forall x ensures x in SwapRemove(cs, i) <==> x in cs && x != c { SwapRemoveKeeps(cs, i, x); }
      if |cs| > 1 { SwapRemoveListOk(h, k, id, cs, i); }
    }
    forall u | u in k.clients && u != id ensures ListOk(k, u, k.clients[u]) {
      forall x | x in h.clients[u] ensures x in k.conns && k.conns[x] == h.conns[x] {
        assert LiveClient(h, u, x);
      }
      ListFrame(h, k, u, h.clients[u]);
    }
    forall x | x in k.conns ensures ConnOk(k, x) { assert ConnOk(h, x); }
  }

  /** The same connection later. */
  predicate SameOne(a: Conn, b: Conn) {
    b.kind == a.kind && b.id == a.id && b.device == a.device && (a.joined ==> b.joined)
  }

  lemma RegisterSameOne<C>(h: Hub<C>, c: C, now: int, x: C)
    requires x in h.conns && Enabled(h, Register(c, now))
    ensures var k := Step(h, Register(c, now)); k.conns.Keys == h.conns.Keys && SameOne(h.conns[x], k.conns[x])
  {
    if h.conns[c].kind == Agent {
      var k := AgentAdded(h, c, now);
      assert k.conns.Keys == h.conns.Keys && SameOne(h.conns[x], k.conns[x]);
    }
  }

  lemma UnregisterSameOne<C>(h: Hub<C>, c: C, x: C)
    requires x in h.conns && Enabled(h, Unregister(c))
    ensures var k := Step(h, Unregister(c)); k.conns.Keys == h.conns.Keys && SameOne(h.conns[x], k.conns[x])
  {
    var k := AgentRemoved(h, c, h.conns[c].id);
    assert k.conns.Keys == h.conns.Keys && SameOne(h.conns[x], k.conns[x]);
  }

  /** Nothing changes whose a connection is. */
  lemma StepSameOne<C>(h: Hub<C>, e: Event<C>, x: C)
    requires x in h.conns && Enabled(h, e)
    ensures x in Step(h, e).conns && SameOne(h.conns[x], Step(h, e).conns[x])
  {
    match e
    case Register(c, now) => RegisterSameOne(h, c, now, x);
    case Unregister(c) => UnregisterSameOne(h, c, x);
    case _ =>
  }

  /** Only opening adds a connection. */
  lemma StepSameKeys<C>(h: Hub<C>, e: Event<C>)
    requires Enabled(h, e)
    ensures Step(h, e).conns.Keys == if e.Open? then h.conns.Keys + {e.c} else h.conns.Keys
  {
    match e
    case Register(c, now) => RegisterSameOne(h, c, now, c);
    case Unregister(c) => UnregisterSameOne(h, c, c);
    case _ =>
  }

  lemma OpenKeepsInv<C>(h: Hub<C>, c: C, conn: Conn)
    requires Inv(h) && c !in h.conns && !conn.joined && !conn.closed && conn.closes == 0 && |conn.send| <= CAPACITY
    ensures Inv(Update(h, c, conn))
  {
    var k := Update(h, c, conn);
    forall u | u in k.clients ensures ListOk(k, u, k.clients[u]) {
      forall x | x in h.clients[u] ensures x in k.conns && k.conns[x] == h.conns[x] { assert LiveClient(h, u, x); }
      ListFrame(h, k, u, h.clients[u]);
    }
    forall x | x in k.conns ensures ConnOk(k, x) { if x != c { assert ConnOk(h, x); } }
  }

  lemma RegisterKeepsInv<C>(h: Hub<C>, c: C, now: int)
    requires Inv(h) && Enabled(h, Register(c, now))
    ensures Inv(Step(h, Register(c, now)))
  {
    if h.conns[c].kind == Agent {
      AgentAddedKeepsInv(h, c, now);
      AnnounceKeepsInv(AgentAdded(h, c, now), h.conns[c].id, true);
    } else {
      RegisterClientKeepsInv(h, c);
    }
  }

  lemma UnregisterKeepsInv<C>(h: Hub<C>, c: C)
    requires Inv(h) && Enabled(h, Unregister(c))
    ensures Inv(Step(h, Unregister(c)))
  {
    var id := h.conns[c].id;
    if h.conns[c].kind == Client {
      UnregisterClientKeepsInv(h, c, id);
    } else if id in h.agents && h.agents[id] == c {
      AgentRemovedKeepsInv(h, c, id);
      AnnounceKeepsInv(AgentRemoved(h, c, id), id, false);
    }
  }

  /** Sends, receives and heartbeats change nothing of the shape. */
  lemma TrafficKeepsInv<C>(h: Hub<C>, e: Event<C>)
    requires Inv(h) && Enabled(h, e) && !e.Open? && !e.Register? && !e.Unregister?
    ensures Inv(Step(h, e))
  {
    forall c | c in h.conns ensures |h.conns[c].send| <= CAPACITY { assert ConnOk(h, c); }
    SameShapeKeepsInv(h, Step(h, e));
  }

  lemma StepKeepsInv<C>(h: Hub<C>, e: Event<C>)
    requires Inv(h) && Enabled(h, e)
    ensures Inv(Step(h, e))
  {
    match e
    case Open(c, kind, id, device) => OpenKeepsInv(h, c, NewConn(kind, id, device));
    case Register(c, now) => RegisterKeepsInv(h, c, now);
    case Unregister(c) => UnregisterKeepsInv(h, c);
    case _ => TrafficKeepsInv(h, e);
  }
}
