/** The path of a chat message (server/routing.go, server/queue.go): validated, stored,
    sent to the recipient's connections or queued, replayed on reconnect. A run
    interleaves the steps of any number of routing and replaying goroutines with those of
    the hub. */
module Pipeline {
  import opened Common
  import opened Frames
  import H = HubModel
  import Q = OfflineQueue

  // ------------------------------------------------------------------ validation

  datatype Conversation = Conversation(user: string, agent: string)

  /** The chat message as unmarshalled; what it claims about sender and recipient. */
  datatype Incoming = Incoming(conversation: string, content: string, attachments: seq<string>,
                               senderType: string, senderId: string, recipient: string)

  datatype Lookup = Found(conv: Conversation) | Missing | DbError

  datatype Verdict = Accepted(msg: Routed) | Rejected(error: string)

  /** `routeChatMessage` up to and including storeMessage. */
  function Validate(kind: Kind, id: string, json: Option<Incoming>, lookup: Lookup, stores: bool): Verdict {
    if json.None? then Rejected("invalid message data")
    else if json.value.content == "" then Rejected("content is required")
    else if json.value.conversation == "" then Rejected("conversation_id is required")
    else if !lookup.Found? then Rejected("conversation not found")
    else if kind == Agent && lookup.conv.agent != id then Rejected("not authorized for this conversation")
    else if kind == Client && lookup.conv.user != id then Rejected("not authorized for this conversation")
    else if !stores then Rejected("failed to store message")
    else
      var recipient := if kind == Agent then lookup.conv.user else lookup.conv.agent;
      Accepted(Routed(json.value.conversation, json.value.content, json.value.attachments, kind, id, recipient))
  }

  // ----------------------------------------------------------------------- state

  /** A stored message with the connection it came from and the conversation found; no
      connection if it was stored before the server was last started. */
  datatype Stored<C> = Stored(msg: Routed, sender: Option<C>, conv: Conversation)

  /** A routing goroutine: before its snapshot of the registry, then with the connections
      still to try and those that took the message. */
  datatype Route<C(==)> = Fresh | Sending(pending: seq<C>, got: set<C>)

  /** A replaying goroutine: what it drained, where in the connection's channel it has put
      the first of those, what is left, and whether it gave up. */
  datatype Replay = Replay(batch: seq<Frame>, at: seq<nat>, rest: seq<Frame>, aborted: bool)

  /** What has become of a stored message; settled if it is one of before the last start
      that was not in the queue then. */
  datatype Fate<C(==)> =
    | Routing
    | Delivered(to: set<C>)
    | Waiting
    | Trimmed
    | Expired
    | Replaying(via: C)
    | Replayed(via: C)
    | Dropped
    | Settled

  datatype State<C(==)> = State(
    hub: H.Hub<C>, queue: Q.Buffers<Frame>, stored: seq<Stored<C>>, fates: seq<Fate<C>>,
    routes: map<nat, Route<C>>, replays: map<C, Replay>)

  function Init<C>(): State<C> { State(H.Empty(), map[], [], [], map[], map[]) }

  /** The two participants of the conversation. */
  predicate JoinsParticipants<C>(st: Stored<C>) {
    if st.msg.senderType == Agent
    then st.msg.senderId == st.conv.agent && st.msg.recipient == st.conv.user
    else st.msg.senderId == st.conv.user && st.msg.recipient == st.conv.agent
  }

  /** What a mailbox may hold when the server starts: messages stored earlier for this
      recipient, each once, no more than the queue takes. */
  ghost predicate Reloaded<C>(stored: seq<Stored<C>>, id: string, mail: seq<Frame>) {
    && |mail| <= Q.MAX_LEN
    && (forall i :: 0 <= i < |mail| ==>
          && mail[i].Chat? && mail[i].ref < |stored|
          && mail[i].msg == stored[mail[i].ref].msg && mail[i].msg.recipient == id)
    && (forall r: nat :: Times(mail, r) <= 1)
  }

  /** A server that has just been started, with whatever queue it loaded: no connections,
      and of the messages stored earlier those in the queue are waiting. */
  ghost predicate Starting<C>(s: State<C>) {
    && s.hub == H.Empty() && s.routes == map[] && s.replays == map[] && |s.fates| == |s.stored|
    && (forall r :: 0 <= r < |s.stored| ==> s.stored[r].sender == None && JoinsParticipants(s.stored[r]))
    && (forall id :: Reloaded(s.stored, id, Mailbox(s, id)))
    && (forall r: nat :: r < |s.stored| ==>
          s.fates[r] == if Times(Mailbox(s, s.stored[r].msg.recipient), r) > 0 then Waiting else Settled)
  }

  // ---------------------------------------------------------------------- frames

  /** How often stored message `ref` occurs among these frames. */
  function Times(fs: seq<Frame>, ref: nat): nat {
    if fs == [] then 0
    else Times(fs[..|fs| - 1], ref) + (if fs[|fs| - 1].Chat? && fs[|fs| - 1].ref == ref then 1 else 0)
  }

  function FramesOf(buf: seq<Q.Queued<Frame>>): seq<Frame> {
    seq(|buf|, i requires 0 <= i < |buf| => buf[i].data)
  }

  function Mailbox<C>(s: State<C>, id: string): seq<Frame> { FramesOf(Q.Get(s.queue, id)) }

  /** `replayOfflineMessages` sends on only chat messages and read receipts. */
  predicate Replayable(f: Frame) { f.Chat? || f.ReadReceipt? }

  // ----------------------------------------------------------------------- steps

  datatype Event<C> =
    | HubEvent(e: H.Event<C>)
    | Accept(c: C, json: Option<Incoming>, lookup: Lookup, stores: bool)
    | Snapshot(ref: nat)
    | Deliver(ref: nat)
    | Finish(ref: nat, now: int)
    | StartReplay(c: C, now: int)
    | ReplayNext(c: C)

  /** Hub events here carry anything but chat messages: those are routed. */
  predicate Quiet<C>(e: H.Event<C>) {
    match e case Send(_, f) => !f.Chat? case Broadcast(f) => !f.Chat? case _ => true
  }

  predicate Enabled<C>(s: State<C>, e: Event<C>) {
    match e
    case HubEvent(he) => H.Enabled(s.hub, he) && Quiet(he)
    case Accept(c, _, _, _) => c in s.hub.conns
    case Snapshot(ref) => ref in s.routes && s.routes[ref].Fresh? && ref < |s.stored|
    case Deliver(ref) =>
      && ref in s.routes && s.routes[ref].Sending? && s.routes[ref].pending != []
      && ref < |s.stored| && s.routes[ref].pending[0] in s.hub.conns
    case Finish(ref, _) =>
      && ref in s.routes && s.routes[ref].Sending? && s.routes[ref].pending == []
      && ref < |s.stored| == |s.fates| && s.stored[ref].sender.Some? && s.stored[ref].sender.value in s.hub.conns
    case StartReplay(c, _) => c in s.hub.conns && c !in s.replays
    case ReplayNext(c) => c in s.hub.conns && c in s.replays && s.replays[c].rest != []
  }

  function PushTo<C>(h: H.Hub<C>, c: C, f: Frame): H.Hub<C>
    requires c in h.conns
  {
    H.Step(h, H.Send(c, f))
  }

  /** The recipient's connections as the registry has them at this moment. */
  function Targets<C>(h: H.Hub<C>, msg: Routed): seq<C> {
    if msg.senderType == Agent then H.Devices(h, msg.recipient)
    else if msg.recipient in h.agents then [h.agents[msg.recipient]]
    else []
  }

  /** Every message among these frames gets this fate. */
  function Mark<C>(fates: seq<Fate<C>>, fs: seq<Frame>, fate: Fate<C>): seq<Fate<C>> {
    seq(|fates|, r requires 0 <= r < |fates| => if Times(fs, r) > 0 then fate else fates[r])
  }

  function AcceptStep<C>(s: State<C>, c: C, json: Option<Incoming>, lookup: Lookup, stores: bool): State<C>
    requires c in s.hub.conns
  {
    match Validate(s.hub.conns[c].kind, s.hub.conns[c].id, json, lookup, stores)
    case Rejected(error) => s.(hub := PushTo(s.hub, c, Notice(error)))
    case Accepted(msg) =>
      var conv := if lookup.Found? then lookup.conv else Conversation("", "");
      s.(stored := s.stored + [Stored(msg, Some(c), conv)], fates := s.fates + [Routing],
         routes := s.routes[|s.stored| := Fresh])
  }

  function DeliverStep<C>(s: State<C>, ref: nat): State<C>
    requires Enabled(s, Deliver(ref))
  {
    var Sending(pending, got) := s.routes[ref];
    var c := pending[0];
    var got' := if H.Accepts(s.hub.conns[c]) then got + {c} else got;
    s.(hub := PushTo(s.hub, c, Chat(s.stored[ref].msg, ref)), routes := s.routes[ref := Sending(pending[1..], got')])
  }

  /** What queueing this frame pushes out at the old end. */
  function Cut(mail: seq<Frame>, f: Frame): seq<Frame> {
    var all := mail + [f];
    if |all| > Q.MAX_LEN then all[..|all| - Q.MAX_LEN] else []
  }

  /** Nobody took it: queue it. */
  function EnqueueStep<C>(s: State<C>, ref: nat, now: int): State<C>
    requires ref < |s.stored| == |s.fates|
  {
    var (to, f) := (s.stored[ref].msg.recipient, Chat(s.stored[ref].msg, ref));
    s.(queue := Q.Enqueued(s.queue, to, f, now, Q.MAX_LEN),
       fates := Mark(s.fates, Cut(Mailbox(s, to), f), Trimmed)[ref := Waiting], routes := s.routes - {ref})
  }

  function FinishStep<C>(s: State<C>, ref: nat, now: int): State<C>
    requires Enabled(s, Finish(ref, now))
  {
    var got := s.routes[ref].got;
    var done :=
      if got == {} then EnqueueStep(s, ref, now)
      else s.(fates := s.fates[ref := Delivered(got)], routes := s.routes - {ref});
    done.(hub := PushTo(s.hub, s.stored[ref].sender.value, Notice("message_sent")))
  }

  function StartReplayStep<C>(s: State<C>, c: C, now: int): State<C>
    requires c in s.hub.conns
  {
    var id := s.hub.conns[c].id;
    var buf := Q.Get(s.queue, id);
    var batch := Q.Live(buf, now, Q.TTL);
    s.(queue := s.queue - {id},
       fates := Mark(Mark(s.fates, Q.Expired(buf, now, Q.TTL), Expired), batch, Replaying(c)),
       replays := s.replays[c := Replay(batch, [], batch, false)])
  }

  function ReplayNextStep<C>(s: State<C>, c: C): State<C>
    requires Enabled(s, ReplayNext(c))
  {
    var (p, conn) := (s.replays[c], s.hub.conns[c]);
    var f := p.rest[0];
    if !Replayable(f) then s.(replays := s.replays[c := p.(rest := p.rest[1..])])
    else if H.Accepts(conn) then
      s.(hub := PushTo(s.hub, c, f), fates := Mark(s.fates, [f], Replayed(c)),
         replays := s.replays[c := p.(at := p.at + [|H.Sent(conn)|], rest := p.rest[1..])])
    else
      s.(fates := Mark(s.fates, p.rest, Dropped), replays := s.replays[c := p.(rest := [], aborted := true)])
  }

  function Step<C>(s: State<C>, e: Event<C>): State<C>
    requires Enabled(s, e)
  {
    match e
    case HubEvent(he) => s.(hub := H.Step(s.hub, he))
    case Accept(c, json, lookup, stores) => AcceptStep(s, c, json, lookup, stores)
    case Snapshot(ref) => s.(routes := s.routes[ref := Sending(Targets(s.hub, s.stored[ref].msg), {})])
    case Deliver(ref) => DeliverStep(s, ref)
    case Finish(ref, now) => FinishStep(s, ref, now)
    case StartReplay(c, now) => StartReplayStep(s, c, now)
    case ReplayNext(c) => ReplayNextStep(s, c)
  }

  predicate Run<C>(s: State<C>, es: seq<Event<C>>)
    decreases |es|
  {
    es == [] || (Enabled(s, es[0]) && Run(Step(s, es[0]), es[1..]))
  }

  function After<C>(s: State<C>, es: seq<Event<C>>): State<C>
    requires Run(s, es)
    decreases |es|
  {
    if es == [] then s else After(Step(s, es[0]), es[1..])
  }
}
