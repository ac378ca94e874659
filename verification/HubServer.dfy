/** The hub and its connections as mutable objects (server/hub.go). Every method is
    proved to be one step of the state machine in module HubModel. */
module HubServer {
  import opened Frames
  import M = HubModel
  import W = Heartbeats

  class Connection {
    const kind: Kind
    const id: string
    const device: string
    /** The channel: its buffer, what the write pump has received, how often it was closed. */
    var send: seq<Frame>
    ghost var taken: seq<Frame>
    var closes: nat
    /** Whether the hub has handled its registration. */
    ghost var joined: bool
    var closed: bool
    var lastHeartbeat: int

    constructor (kind: Kind, id: string, device: string)
      ensures this.kind == kind && this.id == id && this.device == device
      ensures Abs() == M.NewConn(kind, id, device)
    {
      this.kind, this.id, this.device := kind, id, device;
      send, taken, closes, joined, closed, lastHeartbeat := [], [], 0, false, false, 0;
    }

    ghost function Abs(): M.Conn
      reads this
    {
      M.Conn(kind, id, device, taken, send, joined, closed, closes, lastHeartbeat)
    }

    /** A send on a closed channel panics and is recovered; a full buffer takes the
        default case. Either way the frame is dropped. */
    method SafeSend(f: Frame) returns (ok: bool)
      modifies this`send
      ensures ok <==> !closed && closes == 0 && |old(send)| < M.CAPACITY
      ensures send == if ok then old(send) + [f] else old(send)
    {
      if closed {
        return false;
      }
      if closes > 0 {
        return false;
      }
      if |send| < M.CAPACITY {
        send := send + [f];
        return true;
      }
      return false;
    }

    method MarkClosed()
      modifies this`closed
      ensures closed
    {
      closed := true;
    }

    /** What registration changes in an agent's connection. */
    method Join(now: int)
      modifies this`joined, this`lastHeartbeat
      ensures Abs() == old(Abs()).(joined := true, heartbeat := now)
    {
      joined, lastHeartbeat := true, now;
    }

    /** close(send): closing a closed channel would panic, so every caller must prove
        that this is the first time. */
    method CloseChannel()
      requires closes == 0
      modifies this`closes
      ensures closes == 1
    {
      closes := 1;
    }
  }

  class Hub {
    var agents: map<string, Connection>
    var clientConns: map<string, seq<Connection>>
    /** Every connection ever handed to the hub. */
    ghost var known: set<Connection>
    ghost var presence: seq<(string, bool)>

    constructor ()
      ensures Valid() && Abs() == M.Empty() && known == {}
    {
      agents, clientConns, known, presence := map[], map[], {}, [];
    }

    ghost function Abs(): M.Hub<Connection>
      reads this, known
    {
      M.Hub(agents, clientConns, map c | c in known :: c.Abs(), presence)
    }

    ghost predicate Valid()
      reads this, known
    {
      M.Inv(Abs())
    }

    function DeviceList(user: string): seq<Connection>
      reads this
    {
      if user in clientConns then clientConns[user] else []
    }

    /** What Valid() says of one user's list, in terms of the objects. */
    ghost predicate ListFine(u: string)
      reads this, known`joined, known`closes, known`closed
    {
      && (forall c :: c in DeviceList(u) ==>
            c in known && c.kind == Client && c.id == u && c.joined && c.closes == 0 && !c.closed)
      && (forall i, j :: 0 <= i < j < |DeviceList(u)| ==> DeviceList(u)[i] != DeviceList(u)[j])
    }

    lemma ListFacts(u: string)
      requires Valid()
      ensures ListFine(u)
    {
      if u in clientConns {
        assert M.ListOk(Abs(), u, clientConns[u]);
        forall c | c in clientConns[u]
          ensures c in known && c.kind == Client && c.id == u && c.joined && c.closes == 0 && !c.closed
        {
          assert M.LiveClient(Abs(), u, c);
          assert M.ConnOk(Abs(), c);
        }
      }
    }

    /** The buffer after one more frame. */
    static function Pushed(send: seq<Frame>, f: Frame): seq<Frame> {
      if |send| < M.CAPACITY then send + [f] else send
    }

    /** The body of every loop over a user's devices. */
    static method PushList(cs: seq<Connection>, f: Frame)
      requires forall i, j :: 0 <= i < j < |cs| ==> cs[i] != cs[j]
      requires forall c :: c in cs ==> c.closes == 0 && !c.closed
      modifies (set c | c in cs)`send
      ensures forall c :: c in cs ==> c.send == Pushed(old(c.send), f)
    {
      for i := 0 to |cs|
        invariant forall k :: 0 <= k < i ==> cs[k].send == Pushed(old(cs[k].send), f)
        invariant forall k :: i <= k < |cs| ==> cs[k].send == old(cs[k].send)
      {
        var _ := cs[i].SafeSend(f);
      }
    }

    /** A connection the loops over all users' lists reach. */
    ghost predicate Reached(c: Connection, todo: set<string>)
      reads this
    {
      c.kind == Client && c.id !in todo && c in DeviceList(c.id)
    }

    /** One user's list after the other, in any order. */
    method PushAllLists(f: Frame)
      requires forall u :: ListFine(u)
      modifies known`send
      ensures forall c :: c in known ==> c.send == (if Reached(c, {}) then Pushed(old(c.send), f) else old(c.send))
    {
      var todo := clientConns.Keys;
      while todo != {}
        invariant todo <= clientConns.Keys
        invariant forall c :: c in known && Reached(c, todo) ==> c.send == Pushed(old(c.send), f)
        invariant forall c :: c in known && !Reached(c, todo) ==> c.send == old(c.send)
        decreases todo
      {
        var u :| u in todo;
        assert ListFine(u);
        PushList(DeviceList(u), f);
        todo := todo - {u};
      }
    }

    method BroadcastToAllClients(f: Frame)
      requires Valid()
      modifies known`send
      ensures Abs() == M.PushClients(old(Abs()), f)
    {
      forall u ensures ListFine(u) { ListFacts(u); }
      PushAllLists(f);
      PushedIsAbs(f);
    }

    twostate lemma PushedIsAbs(f: Frame)
      requires forall u :: old(ListFine(u))
      requires unchanged(this)
      requires forall c :: c in known ==> c.closed == old(c.closed) && c.closes == old(c.closes)
      requires forall c :: c in known ==>
                 c.taken == old(c.taken) && c.lastHeartbeat == old(c.lastHeartbeat) && c.joined == old(c.joined)
      requires forall c :: c in known ==> c.send == (if Reached(c, {}) then Pushed(old(c.send), f) else old(c.send))
      ensures Abs() == M.PushClients(old(Abs()), f)
    {
      var goal := M.PushClients(old(Abs()), f);
      forall c | c in known ensures c.Abs() == goal.conns[c] { assert old(ListFine(c.id)); }
      assert Abs().conns == goal.conns;
    }

    method BroadcastPresence(id: string, online: bool)
      requires Valid()
      modifies this`presence, known`send
      ensures Abs() == M.Announce(old(Abs()), id, online) && Valid()
    {
      BroadcastToAllClients(Presence(id, online));
      presence := presence + [(id, online)];
      M.AnnounceKeepsInv(old(Abs()), id, online);
    }

    /** The connect handlers make a connection with an empty channel and hand it to the hub;
        they go on as soon as the hub has received it. */
    method Open(kind: Kind, id: string, device: string) returns (conn: Connection)
      requires Valid()
      modifies this`known
      ensures fresh(conn) && Valid() && known == old(known) + {conn}
      ensures conn.kind == kind && conn.id == id && conn.device == device
      ensures Abs() == M.Step(old(Abs()), M.Open(conn, kind, id, device))
    {
      conn := new Connection(kind, id, device);
      known := known + {conn};
      M.StepKeepsInv(old(Abs()), M.Open(conn, kind, id, device));
      assert Abs().conns == M.Step(old(Abs()), M.Open(conn, kind, id, device)).conns;
    }

    /** The registry update of an agent's registration, before the announcement. */
    method AddAgent(conn: Connection, now: int)
      requires conn in known && !conn.joined && conn.kind == Agent
      requires conn.id in agents ==>
                 agents[conn.id] in known && agents[conn.id].closes == 0 && agents[conn.id] != conn
      modifies this`agents, known
      ensures Abs() == M.AgentAdded(old(Abs()), conn, now)
    {
      conn.Join(now);
      if conn.id in agents {
        CloseReplaced(agents[conn.id]);
      }
      agents := agents[conn.id := conn];
      ghost var goal := M.AgentAdded(old(Abs()), conn, now);
      forall c | c in known ensures c.Abs() == goal.conns[c] {}
      assert Abs().conns == goal.conns;
    }

    method RegisterAgent(conn: Connection, now: int)
      requires Valid() && conn in known && !conn.joined && conn.kind == Agent
      modifies this, known
      ensures known == old(known)
      ensures Abs() == M.RegisterAgent(old(Abs()), conn, now)
    {
      if conn.id in agents {
        assert M.ConnOk(Abs(), agents[conn.id]);
      }
      M.AgentAddedKeepsInv(Abs(), conn, now);
      AddAgent(conn, now);
      BroadcastPresence(conn.id, true);
    }

    /** The search for a connection of the same device; an empty device id matches none. */
    static method FindDevice(cs: seq<Connection>, device: string) returns (found: bool, i: nat)
      ensures i <= |cs| && (found <==> i < |cs|)
      ensures found ==> device != "" && cs[i].device == device
      ensures device != "" ==> forall k :: 0 <= k < i ==> cs[k].device != device
    {
      found, i := false, 0;
      while i < |cs|
        invariant i <= |cs| && !found
        invariant device != "" ==> forall k :: 0 <= k < i ==> cs[k].device != device
      {
        if cs[i].device == device && device != "" {
          found := true;
          break;
        }
        i := i + 1;
      }
    }

    /** Replace the connection in slot i, closing it, or append. */
    method Place(conn: Connection, cs: seq<Connection>, didReplace: bool, i: nat)
      requires conn in known && !conn.joined && conn.kind == Client && cs == DeviceList(conn.id)
      requires i == M.Slot(Abs(), conn.id, conn.device) && (didReplace <==> i < |cs|)
      requires didReplace ==> cs[i] in known && cs[i].closes == 0 && cs[i] != conn
      modifies this`clientConns, known
      ensures Abs() == M.RegisterClient(old(Abs()), conn)
    {
      if didReplace {
        CloseReplaced(cs[i]);
        clientConns := clientConns[conn.id := cs[i := conn]];
      } else {
        clientConns := clientConns[conn.id := cs + [conn]];
      }
      conn.joined := true;
      ghost var goal := M.RegisterClient(old(Abs()), conn);
      forall c | c in known ensures c.Abs() == goal.conns[c] {}
      assert Abs().conns == goal.conns;
    }

    method RegisterClient(conn: Connection)
      requires Valid() && conn in known && !conn.joined && conn.kind == Client
      modifies this, known
      ensures known == old(known)
      ensures Abs() == M.RegisterClient(old(Abs()), conn)
    {
      ListFacts(conn.id);
      var cs := DeviceList(conn.id);
      var didReplace, i := FindDevice(cs, conn.device);
      M.FindDeviceIs(Abs(), cs, conn.device);
      Place(conn, cs, didReplace, i);
    }

    /** The register case of the run loop, for a connection that may hold frames already. */
    method Register(conn: Connection, now: int)
      requires Valid() && conn in known && !conn.joined
      modifies this, known
      ensures Valid() && known == old(known)
      ensures Abs() == M.Step(old(Abs()), M.Register(conn, now))
    {
      M.StepKeepsInv(old(Abs()), M.Register(conn, now));
      if conn.kind == Agent {
        RegisterAgent(conn, now);
      } else {
        RegisterClient(conn);
      }
    }

    /** The registry update of an agent's removal, before the announcement. */
    method RemoveAgent(conn: Connection)
      requires conn in known && conn.closes == (if conn.closed then 1 else 0)
      modifies this`agents, known
      ensures Abs() == M.AgentRemoved(old(Abs()), conn, conn.id)
    {
      agents := agents - {conn.id};
      CloseOnce(conn);
      ghost var goal := M.AgentRemoved(old(Abs()), conn, conn.id);
      forall c | c in known ensures c.Abs() == goal.conns[c] {}
      assert Abs().conns == goal.conns;
    }

    method UnregisterAgent(conn: Connection)
      requires Valid() && conn in known && conn.kind == Agent
      modifies this, known
      ensures known == old(known)
      ensures Abs() == M.UnregisterAgent(old(Abs()), conn, conn.id)
    {
      if conn.id in agents && agents[conn.id] == conn {
        M.AgentRemovedKeepsInv(old(Abs()), conn, conn.id);
        assert M.ConnOk(Abs(), conn);
        RemoveAgent(conn);
        BroadcastPresence(conn.id, false);
      }
    }

    static method FindConn(conns: seq<Connection>, conn: Connection) returns (found: bool, i: nat)
      ensures i == M.Find(conns, conn) && (found <==> i < |conns|)
    {
      found, i := false, 0;
      while i < |conns|
        invariant i <= |conns| && !found && forall k :: 0 <= k < i ==> conns[k] != conn
      {
        if conns[i] == conn {
          found := true;
          break;
        }
        i := i + 1;
      }
      M.FindIs(conns, conn, i);
    }

    /** Swap-remove the connection from its list, dropping a list that becomes empty. */
    method Detach(conn: Connection, found: bool, i: nat)
      requires i == M.Find(DeviceList(conn.id), conn) && (found <==> i < |DeviceList(conn.id)|)
      modifies this`clientConns
      ensures var cs := old(DeviceList(conn.id));
              clientConns == if !found then old(clientConns)
                             else if |cs| == 1 then old(clientConns) - {conn.id}
                             else old(clientConns)[conn.id := M.SwapRemove(cs, i)]
    {
      var conns := DeviceList(conn.id);
      if found {
        conns := conns[i := conns[|conns| - 1]];
        conns := conns[..|conns| - 1];
        if |conns| == 0 {
          clientConns := clientConns - {conn.id};
        } else {
          clientConns := clientConns[conn.id := conns];
        }
      }
    }

    /** The close of a connection that is being replaced. */
    static method CloseReplaced(conn: Connection)
      requires conn.closes == 0
      modifies conn`closed, conn`closes
      ensures conn.Abs() == M.Shut(old(conn.Abs()))
    {
      conn.MarkClosed();
      conn.CloseChannel();
    }

    /** The close of the unregister cases, skipped if a replacement has done it. */
    static method CloseOnce(conn: Connection)
      requires conn.closes == (if conn.closed then 1 else 0)
      modifies conn`closed, conn`closes
      ensures conn.Abs() == if old(conn.closed) then old(conn.Abs()) else M.Shut(old(conn.Abs()))
    {
      if !conn.closed {
        conn.MarkClosed();
        conn.CloseChannel();
      }
    }

    method RemoveClient(conn: Connection)
      requires conn in known && conn.closes == (if conn.closed then 1 else 0)
      modifies this`clientConns, known
      ensures Abs() == M.UnregisterClient(old(Abs()), conn, conn.id)
    {
      var found, i := FindConn(DeviceList(conn.id), conn);
      Detach(conn, found, i);
      CloseOnce(conn);
      ghost var goal := M.UnregisterClient(old(Abs()), conn, conn.id);
      forall c | c in known ensures c.Abs() == goal.conns[c] {}
      assert Abs().conns == goal.conns;
    }

    method UnregisterClient(conn: Connection)
      requires Valid() && conn in known && conn.kind == Client
      modifies this, known
      ensures known == old(known)
      ensures Abs() == M.UnregisterClient(old(Abs()), conn, conn.id)
    {
      assert M.ConnOk(Abs(), conn);
      RemoveClient(conn);
    }

    /** The unregister case of the run loop: any connection that was ever registered, as
        late and as often as its holders please. */
    method Unregister(conn: Connection)
      requires Valid() && conn in known && conn.joined
      modifies this, known
      ensures Valid() && known == old(known)
      ensures Abs() == M.Step(old(Abs()), M.Unregister(conn))
    {
      M.StepKeepsInv(old(Abs()), M.Unregister(conn));
      if conn.kind == Agent {
        UnregisterAgent(conn);
      } else {
        UnregisterClient(conn);
      }
    }

    method TouchHeartbeat(conn: Connection, now: int)
      requires Valid() && conn in known
      modifies conn`lastHeartbeat
      ensures Valid() && Abs() == M.Step(old(Abs()), M.Touch(conn, now))
    {
      M.StepKeepsInv(old(Abs()), M.Touch(conn, now));
      conn.lastHeartbeat := now;
      assert Abs().conns == M.Step(old(Abs()), M.Touch(conn, now)).conns;
    }

    /** The snapshot of `checkStaleAgents`, taken in one read-locked pass. */
    method StaleAgents(now: int, timeout: int) returns (stale: seq<Connection>)
      requires Valid()
      ensures forall c :: c in known ==> (c in stale <==> W.Stale(Abs(), c, now, timeout))
      ensures forall c :: c in stale ==> c in known
    {
      stale := [];
      var todo := agents.Keys;
      while todo != {}
        invariant todo <= agents.Keys
        invariant forall c :: c in stale ==> c in known && c.kind == Agent && W.Stale(Abs(), c, now, timeout)
        invariant forall c :: c in known && c.kind == Agent && c.id !in todo && W.Stale(Abs(), c, now, timeout) ==>
                    c in stale
        decreases todo
      {
        var id :| id in todo;
        if now - agents[id].lastHeartbeat > timeout {
          stale := stale + [agents[id]];
        }
        todo := todo - {id};
      }
    }

    method GetClientConns(user: string) returns (result: seq<Connection>)
      ensures result == M.Devices(Abs(), user)
    {
      result := DeviceList(user);
    }

    method CountLists() returns (total: nat, ghost counted: set<Connection>)
      requires forall u :: ListFine(u)
      ensures total == |counted| && forall c :: c in counted <==> c in known && Reached(c, {})
    {
      total, counted := 0, {};
      var todo := clientConns.Keys;
      while todo != {}
        invariant todo <= clientConns.Keys
        invariant forall c :: c in counted <==> c in known && Reached(c, todo)
        invariant total == |counted|
        decreases todo
      {
        var u :| u in todo;
        assert ListFine(u);
        ghost var more := set c | c in DeviceList(u);
        DistinctCount(DeviceList(u));
        total := total + |DeviceList(u)|;
        assert counted !! more;
        counted := counted + more;
        todo := todo - {u};
      }
    }

    /** The total over all users' lists is the number of open client connections. */
    method ClientConnCount() returns (total: nat)
      requires Valid()
      ensures total == |set c | c in known && c.kind == Client && c.joined && !c.closed|
    {
      forall u ensures ListFine(u) { ListFacts(u); }
      OpenClients();
      ghost var counted;
      total, counted := CountLists();
      assert counted == set c | c in known && c.kind == Client && c.joined && !c.closed;
    }

    lemma OpenClients()
      requires Valid()
      ensures forall c :: c in known && c.kind == Client ==> (c.joined && !c.closed <==> c in DeviceList(c.id))
    {
      forall c | c in known && c.kind == Client ensures c.joined && !c.closed <==> c in DeviceList(c.id) {
        assert M.ConnOk(Abs(), c);
        ListFacts(c.id);
      }
    }

    static lemma {:induction false} DistinctCount(cs: seq<Connection>)
      requires forall i, j :: 0 <= i < j < |cs| ==> cs[i] != cs[j]
      ensures |set c | c in cs| == |cs|
      decreases |cs|
    {
      if cs != [] {
        var front, last := cs[..|cs| - 1], cs[|cs| - 1];
        DistinctCount(front);
        assert last !in front;
        assert (set c | c in cs) == (set c | c in front) + {last};
      }
    }
  }
}
