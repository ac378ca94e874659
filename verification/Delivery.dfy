/** The loops of server/routing.go and server/queue.go on the mutable objects: one
    goroutine that nobody interrupts. What happens to the queue and its table is one step of
    DurableQueue each time. */
module Delivery {
  import opened Frames
  import opened HubServer
  import M = HubModel
  import P = Pipeline
  import Q = OfflineQueue
  import D = DurableQueue

  predicate HasRoom(c: Connection)
    reads c
  {
    !c.closed && c.closes == 0 && |c.send| < M.CAPACITY
  }

  /** The multi-device loop: every device with room gets the message, the others are left
      alone, and the count is of those that got it. */
  method DeliverToDevices(conns: seq<Connection>, f: Frame) returns (delivered: nat, ghost got: set<Connection>)
    requires forall i, j :: 0 <= i < j < |conns| ==> conns[i] != conns[j]
    modifies (set c | c in conns)`send
    ensures got == (set c | c in conns && old(HasRoom(c))) && delivered == |got|
    ensures forall c :: c in conns ==> c.send == if c in got then old(c.send) + [f] else old(c.send)
  {
    delivered, got := 0, {};
    ghost var room := set c | c in conns && HasRoom(c);
    for i := 0 to |conns|
      invariant forall k :: 0 <= k < i ==>
                  conns[k].send == if conns[k] in room then old(conns[k].send) + [f] else old(conns[k].send)
      invariant forall k :: i <= k < |conns| ==> conns[k].send == old(conns[k].send) && conns[k] !in got
      invariant forall k :: 0 <= k < i && conns[k] in room ==> conns[k] in got
      invariant got <= room && delivered == |got|
    {
      var sent := conns[i].SafeSend(f);
      if sent {
        delivered, got := delivered + 1, got + {conns[i]};
      }
    }
    assert got == room;
  }

  /** The recipient's connections: known, distinct, and of the other kind than the sender. */
  method FindTargets(hub: Hub, msg: Routed) returns (conns: seq<Connection>)
    requires hub.Valid()
    ensures conns == P.Targets(hub.Abs(), msg)
    ensures forall c :: c in conns ==> c in hub.known && c.kind != msg.senderType
    ensures forall i, j :: 0 <= i < j < |conns| ==> conns[i] != conns[j]
  {
    conns := [];
    if msg.senderType == Agent {
      hub.ListFacts(msg.recipient);
      conns := hub.GetClientConns(msg.recipient);
    } else if msg.recipient in hub.agents {
      conns := [hub.agents[msg.recipient]];
    }
  }

  /** To the recipient's connections if any of them takes it, otherwise to the offline queue
      and its table in one step, never to both and never to neither. */
  method DeliverOrQueue(conns: seq<Connection>, queue: Q.Queue<D.Letter<Frame>>, store: D.QueueStore<Frame>,
                        to: string, f: Frame, at: int, stored: int, insertFails: bool, ghost clock: int)
    returns (delivered: nat, ghost got: set<Connection>)
    requires D.Serves(queue) && forall i, j :: 0 <= i < j < |conns| ==> conns[i] != conns[j]
    modifies queue, store, (set c | c in conns)`send
    ensures D.Serves(queue)
    ensures got == (set c | c in conns && old(HasRoom(c))) && delivered == |got|
    ensures forall c :: c in conns ==> c.send == if c in got then old(c.send) + [f] else old(c.send)
    ensures D.Abs(queue, store, stored) ==
            if got == {} then D.Step(old(D.Abs(queue, store, clock)), D.Enqueue(to, f, at, stored, insertFails))
            else old(D.Abs(queue, store, clock)).(clock := stored)
  {
    delivered, got := DeliverToDevices(conns, f);
    if delivered == 0 {
      Fallback(queue, store, to, f, at, stored, insertFails, clock);
    }
  }

  /** Delivery of one accepted message, and then the acknowledgement to the sender. */
  method RouteToRecipient(hub: Hub, queue: Q.Queue<D.Letter<Frame>>, store: D.QueueStore<Frame>, sender: Connection,
                          msg: Routed, ref: nat, at: int, stored: int, insertFails: bool, ghost clock: int)
    returns (delivered: nat, ghost got: set<Connection>)
    requires hub.Valid() && D.Serves(queue) && sender in hub.known && sender.kind == msg.senderType
    modifies queue, store, hub.known`send
    ensures D.Serves(queue)
    ensures got == (set c | c in P.Targets(old(hub.Abs()), msg) && old(HasRoom(c))) && delivered == |got|
    ensures forall c :: c in hub.known && c != sender ==>
              c.send == if c in got then old(c.send) + [Chat(msg, ref)] else old(c.send)
    ensures sender !in got
    ensures sender.send == old(sender.send) + if old(HasRoom(sender)) then [Notice("message_sent")] else []
    ensures D.Abs(queue, store, stored) ==
            if got == {} then
              D.Step(old(D.Abs(queue, store, clock)), D.Enqueue(msg.recipient, Chat(msg, ref), at, stored, insertFails))
            else old(D.Abs(queue, store, clock)).(clock := stored)
  {
    var conns := FindTargets(hub, msg);
    assert sender !in conns;
    delivered, got :=
      DeliverOrQueue(conns, queue, store, msg.recipient, Chat(msg, ref), at, stored, insertFails, clock);
    var _ := sender.SafeSend(Notice("message_sent"));
  }

  /** Enqueue and persistQueue, one after the other. */
  method Fallback(queue: Q.Queue<D.Letter<Frame>>, store: D.QueueStore<Frame>, to: string, f: Frame, at: int,
                  stored: int, insertFails: bool, ghost clock: int)
    requires D.Serves(queue)
    modifies queue, store
    ensures D.Serves(queue)
    ensures D.Abs(queue, store, stored) ==
            D.Step(old(D.Abs(queue, store, clock)), D.Enqueue(to, f, at, stored, insertFails))
  {
    var letter := D.Letter(f, at, !insertFails);
    queue.Enqueue(to, letter, at);
    store.PersistQueue(to, letter, stored, insertFails);
  }

  /** The frames a replay sends on. */
  function Selected(ls: seq<D.Letter<Frame>>): seq<Frame> {
    if ls == [] then []
    else
      var (front, f) := (Selected(ls[..|ls| - 1]), ls[|ls| - 1].content);
      if P.Replayable(f) then front + [f] else front
  }

  lemma {:induction false} SelectedPrefix(ls: seq<D.Letter<Frame>>, n: nat)
    requires n <= |ls|
    ensures Selected(ls[..n]) <= Selected(ls)
    decreases |ls|
  {
    if n == |ls| {
      assert ls[..n] == ls;
    } else {
      assert ls[..|ls| - 1][..n] == ls[..n];
      SelectedPrefix(ls[..|ls| - 1], n);
    }
  }

  lemma SelectedStep(ls: seq<D.Letter<Frame>>, i: nat)
    requires i < |ls|
    ensures var n := |Selected(ls[..i])|;
            if P.Replayable(ls[i].content)
            then |Selected(ls[..i + 1])| == n + 1 <= |Selected(ls)| && Selected(ls)[n] == ls[i].content
            else |Selected(ls[..i + 1])| == n
  {
    SelectedPrefix(ls, i + 1);
    assert ls[..i + 1][..i] == ls[..i];
    if P.Replayable(ls[i].content) {
      assert Selected(ls[..i + 1]) == Selected(ls[..i]) + [ls[i].content];
    }
  }

  /** The loop over a drained batch: it stops at the first frame that is not taken. */
  method SendBatch(conn: Connection, messages: seq<D.Letter<Frame>>) returns (replayed: nat)
    modifies conn`send
    ensures var batch := Selected(messages);
            var room := M.CAPACITY - |old(conn.send)|;
            && replayed == (if conn.closed || conn.closes > 0 || room <= 0 then 0
                            else if |batch| <= room then |batch| else room)
            && conn.send == old(conn.send) + batch[..replayed]
  {
    replayed := 0;
    ghost var batch := Selected(messages);
    for i := 0 to |messages|
      invariant replayed == |Selected(messages[..i])| <= |batch|
      invariant conn.send == old(conn.send) + batch[..replayed]
      invariant replayed > 0 ==> !conn.closed && conn.closes == 0 && |conn.send| <= M.CAPACITY
    {
      var data := messages[i].content;
      SelectedStep(messages, i);
      if P.Replayable(data) {
        assert batch[..replayed + 1] == batch[..replayed] + [data];
        var ok := conn.SafeSend(data);
        if !ok {
          return;
        }
        replayed := replayed + 1;
      }
    }
    assert messages[..|messages|] == messages;
  }

  /** Queue and table make one drain step, with the delete only if something was drained.
      The replayed prefix is as long as the batch or the free room, whichever is less, and
      nothing goes to a closed connection. */
  method ReplayOfflineMessages(conn: Connection, queue: Q.Queue<D.Letter<Frame>>, store: D.QueueStore<Frame>, now: int,
                               deleteFails: bool, ghost clock: int)
    returns (replayed: nat)
    requires D.Serves(queue)
    modifies queue, store, conn`send
    ensures D.Serves(queue)
    ensures D.Abs(queue, store, now) ==
            D.Step(old(D.Abs(queue, store, clock)), D.Drain(conn.id, now, deleteFails))
    ensures var batch := Selected(Q.Live(Q.Get(old(queue.buffers), conn.id), now, Q.TTL));
            var room := M.CAPACITY - |old(conn.send)|;
            && replayed == (if conn.closed || conn.closes > 0 || room <= 0 then 0
                            else if |batch| <= room then |batch| else room)
            && conn.send == old(conn.send) + batch[..replayed]
  {
    var messages := queue.Drain(conn.id, now);
    if |messages| == 0 {
      return 0;
    }
    store.DeleteQueueMessages(conn.id, deleteFails);
    replayed := SendBatch(conn, messages);
  }
}
