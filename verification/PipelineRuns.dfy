/** The delivery pipeline's promises over whole runs. */
module PipelineRuns {
  import opened Common
  import opened Frames
  import opened Pipeline
  import opened Conservation
  import H = HubModel
  import Q = OfflineQueue

  /** A first start, with an empty queue, is one of the starts spoken of here. */
  lemma FirstStart<C>()
    ensures Starting(Init<C>())
  {}

  lemma {:induction false} SomeTime(fs: seq<Frame>, r: nat) returns (i: nat)
    requires Times(fs, r) > 0
    ensures i < |fs| && fs[i].Chat? && fs[i].ref == r
  {
    var n := |fs| - 1;
    if fs[n].Chat? && fs[n].ref == r { i := n; } else { i := SomeTime(fs[..n], r); }
  }

  lemma StartCount<C>(s: State<C>, id: string, r: nat)
    requires Starting(s)
    ensures QueueCount(s, id, r)
  {
    assert Reloaded(s.stored, id, Mailbox(s, id));
    if Times(Mailbox(s, id), r) > 0 {
      var i := SomeTime(Mailbox(s, id), r);
    }
  }

  lemma StartInv<C>(s: State<C>)
    requires Starting(s)
    ensures Inv(s)
  {
    forall id, r: nat ensures QueueCount(s, id, r) { StartCount(s, id, r); }
    forall id ensures Genuine(s, Mailbox(s, id)) && AllChat(Mailbox(s, id)) && |Mailbox(s, id)| <= Q.MAX_LEN {
      assert Reloaded(s.stored, id, Mailbox(s, id));
    }
  }

  /** Under any interleaving each stored message is in exactly one class, and the classes
      are real: it has a routing goroutine, or sits once in its recipient's queue, or once
      in one replay, or went once into the channel of each of its holders, and it is
      nowhere else. A message in the queue, trimmed, expired, being replayed or dropped
      has reached no connection; a delivered one has reached at least one. */
  lemma MessagesAreConserved<C>(start: State<C>, es: seq<Event<C>>, r: nat)
    requires Starting(start) && Run(start, es) && r < |After(start, es).stored|
    ensures var s := After(start, es);
            && |s.fates| == |s.stored|
            && (r in s.routes <==> s.fates[r].Routing?)
            && (forall id :: Times(Mailbox(s, id), r)
                             == Indicator(s.fates[r].Waiting? && id == s.stored[r].msg.recipient))
            && (forall c :: c in s.replays ==> Times(s.replays[c].rest, r) == Indicator(s.fates[r] == Replaying(c)))
            && (s.fates[r].Replaying? ==> s.fates[r].via in s.replays)
            && (forall c :: c in s.hub.conns ==> Times(H.Sent(s.hub.conns[c]), r) == Indicator(c in Holders(s, r)))
            && (forall c :: c in Holders(s, r) ==> c in s.hub.conns)
            && (s.fates[r].Delivered? || s.fates[r].Replayed? ==> Holders(s, r) != {})
            && (!s.fates[r].Delivered? && !s.fates[r].Replayed? && !s.fates[r].Routing? ==> Holders(s, r) == {})
  {
    var s := After(start, es);
    StartInv(start);
    RunKeepsInv(start, es);
    assert FateOk(s, r);
    forall id ensures Times(Mailbox(s, id), r) == Indicator(s.fates[r].Waiting? && id == s.stored[r].msg.recipient) {
      assert QueueCount(s, id, r);
    }
    forall c | c in s.replays ensures Times(s.replays[c].rest, r) == Indicator(s.fates[r] == Replaying(c)) {
      assert ReplayCount(s, c, r);
    }
    forall c | c in s.hub.conns ensures Times(H.Sent(s.hub.conns[c]), r) == Indicator(c in Holders(s, r)) {
      assert SentCount(s, c, r);
    }
  }

  /** The only ways a message can go. */
  predicate Advances<C(==)>(a: Fate<C>, b: Fate<C>) {
    a == b ||
    match a
    case Routing => b.Delivered? || b.Waiting?
    case Waiting => b.Trimmed? || b.Expired? || b.Replaying?
    case Replaying(c) => b == Replayed(c) || b.Dropped?
    case _ => false
  }

  lemma ReplayAdvances<C>(s: State<C>, c: C, r: nat)
    requires Basics(s) && Counts(s) && Authentic(s) && Enabled(s, ReplayNext(c)) && r < |s.fates|
    ensures r < |ReplayNextStep(s, c).fates| && Advances(s.fates[r], ReplayNextStep(s, c).fates[r])
  {
    NextIsReplaying(s, c);
    TimesOne(s.replays[c].rest[0], r);
    DroppedFates(s, c, r);
  }

  lemma FinishAdvances<C>(s: State<C>, ref: nat, now: int, r: nat)
    requires Basics(s) && Counts(s) && Enabled(s, Finish(ref, now)) && r < |s.fates|
    ensures r < |FinishStep(s, ref, now).fates| && Advances(s.fates[r], FinishStep(s, ref, now).fates[r])
  {
    if s.routes[ref].got == {} { EnqueueFates(s, ref, now, r); }
  }

  lemma StoredGrows<C>(s: State<C>, e: Event<C>)
    requires Enabled(s, e)
    ensures s.stored <= Step(s, e).stored
  {}

  /** So what has been delivered, trimmed, expired, replayed or dropped stays so, and
      nothing delivered by routing is ever queued. */
  lemma FatesAdvance<C>(s: State<C>, e: Event<C>, r: nat)
    requires Inv(s) && Enabled(s, e) && r < |s.fates|
    ensures r < |Step(s, e).fates| && Advances(s.fates[r], Step(s, e).fates[r])
    ensures s.stored <= Step(s, e).stored
  {
    StoredGrows(s, e);
    match e
    case Finish(ref, now) => FinishAdvances(s, ref, now, r);
    case StartReplay(c, now) => StartFates(s, c, now, r);
    case ReplayNext(c) => ReplayAdvances(s, c, r);
    case _ =>
  }

  /** The side conditions of the steps always hold, so a routing or replaying goroutine
      can always take its next step. */
  lemma StepsAreEnabled<C>(s: State<C>, ref: nat, c: C, now: int)
    requires Inv(s)
    ensures ref in s.routes && s.routes[ref].Fresh? ==> Enabled(s, Snapshot(ref))
    ensures ref in s.routes && s.routes[ref].Sending? && s.routes[ref].pending != [] ==> Enabled(s, Deliver(ref))
    ensures ref in s.routes && s.routes[ref].Sending? && s.routes[ref].pending == [] ==> Enabled(s, Finish(ref, now))
    ensures c in s.replays && s.replays[c].rest != [] ==> Enabled(s, ReplayNext(c))
  {
    if ref in s.routes {
      assert RouteOk(s, ref) && Origin(s, ref);
      if s.routes[ref].Sending? && s.routes[ref].pending != [] {
        assert ForRecipient(s, s.routes[ref].pending[0], ref);
      }
    }
  }

  // ------------------------------------------------------- what is stored, in what order

  /** Whom the connection was opened for, as the events tell. */
  function Identity<C(==)>(es: seq<Event<C>>, c: C): Option<(Kind, string)> {
    if es == [] then None
    else
      var (front, last) := (es[..|es| - 1], es[|es| - 1]);
      if last.HubEvent? && last.e.Open? && last.e.c == c then Some((last.e.kind, last.e.id)) else Identity(front, c)
  }

  /** A complete message from a participant of a conversation, which could be stored. */
  predicate Admissible(kind: Kind, id: string, json: Option<Incoming>, lookup: Lookup, stores: bool) {
    && json.Some? && json.value.content != "" && json.value.conversation != "" && lookup.Found? && stores
    && id == if kind == Agent then lookup.conv.agent else lookup.conv.user
  }

  /** It goes from this participant to the other, whatever the JSON says. */
  function Addressed<C>(kind: Kind, id: string, m: Incoming, conv: Conversation, c: C): Stored<C> {
    var to := if kind == Agent then conv.user else conv.agent;
    var msg := Routed(m.conversation, m.content, m.attachments, kind, id, to);
    Stored(msg, Some(c), conv)
  }

  /** The admissible messages among the events, in the order they came. */
  function Log<C(==)>(es: seq<Event<C>>): seq<Stored<C>> {
    if es == [] then []
    else
      var (front, last) := (es[..|es| - 1], es[|es| - 1]);
      match last
      case Accept(c, json, lookup, stores) =>
        var who := Identity(front, c);
        if who.Some? && Admissible(who.value.0, who.value.1, json, lookup, stores)
        then Log(front) + [Addressed(who.value.0, who.value.1, json.value, lookup.conv, c)]
        else Log(front)
      case _ => Log(front)
  }

  lemma {:induction false} RunSnoc<C>(s: State<C>, es: seq<Event<C>>)
    requires Run(s, es) && es != []
    ensures var front, last := es[..|es| - 1], es[|es| - 1];
            Run(s, front) && Enabled(After(s, front), last) && After(s, es) == Step(After(s, front), last)
    decreases |es|
  {
    if |es| == 1 {
      assert es[..0] == [] && es[1..] == [];
    } else {
      RunSnoc(Step(s, es[0]), es[1..]);
      assert es[1..][..|es| - 2] == es[..|es| - 1][1..];
    }
  }

  lemma PushKeepsIdentity<C>(h: H.Hub<C>, x: C, f: Frame, c: C)
    requires x in h.conns
    ensures PushTo(h, x, f).conns.Keys == h.conns.Keys
    ensures c in h.conns ==> H.SameOne(h.conns[c], PushTo(h, x, f).conns[c])
  {}

  /** Only the hub's own events change who is connected. */
  lemma StepKeepsIdentity<C>(s: State<C>, e: Event<C>, c: C)
    requires Enabled(s, e) && !e.HubEvent?
    ensures Step(s, e).hub.conns.Keys == s.hub.conns.Keys
    ensures c in s.hub.conns ==> H.SameOne(s.hub.conns[c], Step(s, e).hub.conns[c])
  {
    match e
    case Accept(x, json, lookup, stores) =>
      var v := Validate(s.hub.conns[x].kind, s.hub.conns[x].id, json, lookup, stores);
      if v.Rejected? { PushKeepsIdentity(s.hub, x, Notice(v.error), c); }
    case Deliver(ref) => PushKeepsIdentity(s.hub, s.routes[ref].pending[0], Chat(s.stored[ref].msg, ref), c);
    case Finish(ref, now) => PushKeepsIdentity(s.hub, s.stored[ref].sender.value, Notice("message_sent"), c);
    case ReplayNext(x) => PushKeepsIdentity(s.hub, x, s.replays[x].rest[0], c);
    case _ =>
  }

  /** What the events say of a connection is what the hub has. */
  lemma {:induction false} RunIdentifies<C>(start: State<C>, es: seq<Event<C>>, c: C)
    requires Starting(start) && Run(start, es)
    ensures var h := After(start, es).hub;
            Identity(es, c) == if c in h.conns then Some((h.conns[c].kind, h.conns[c].id)) else None
    decreases |es|
  {
    if es != [] {
      var front, last := es[..|es| - 1], es[|es| - 1];
      RunSnoc(start, es);
      RunIdentifies(start, front, c);
      var s := After(start, front);
      if last.HubEvent? {
        H.StepSameKeys(s.hub, last.e);
        if c in s.hub.conns { H.StepSameOne(s.hub, last.e, c); }
      } else {
        StepKeepsIdentity(s, last, c);
      }
    }
  }

  /** An admissible message is stored as it is addressed; any other leaves the sender one
      error notice, if there is room for it, and nothing else anywhere. */
  lemma AcceptedOrToldWhy<C>(s: State<C>, c: C, json: Option<Incoming>, lookup: Lookup, stores: bool)
    requires c in s.hub.conns
    ensures var conn, t := s.hub.conns[c], AcceptStep(s, c, json, lookup, stores);
            if Admissible(conn.kind, conn.id, json, lookup, stores)
            then t.stored == s.stored + [Addressed(conn.kind, conn.id, json.value, lookup.conv, c)]
            else exists error :: error != "" && t == s.(hub := PushTo(s.hub, c, Notice(error)))
  {
    var conn, t := s.hub.conns[c], AcceptStep(s, c, json, lookup, stores);
    var v := Validate(conn.kind, conn.id, json, lookup, stores);
    if v.Rejected? { assert v.error != "" && t == s.(hub := PushTo(s.hub, c, Notice(v.error))); }
  }

  lemma StoredByStep<C>(s: State<C>, e: Event<C>)
    requires Enabled(s, e) && !e.Accept?
    ensures Step(s, e).stored == s.stored
  {}

  /** Under any interleaving the stored messages are exactly the admissible ones, each
      once, in the order they came: a function of the events alone, in which nothing the
      JSON says about sender or recipient occurs. */
  lemma {:induction false} StoredAreTheAdmissible<C>(start: State<C>, es: seq<Event<C>>)
    requires Starting(start) && Run(start, es)
    ensures After(start, es).stored == start.stored + Log(es)
    decreases |es|
  {
    if es != [] {
      var front, last := es[..|es| - 1], es[|es| - 1];
      RunSnoc(start, es);
      StoredAreTheAdmissible(start, front);
      var s := After(start, front);
      match last
      case Accept(c, json, lookup, stores) =>
        RunIdentifies(start, front, c);
        AcceptedOrToldWhy(s, c, json, lookup, stores);
      case _ => StoredByStep(s, last);
    }
  }

  /** So claims about sender and recipient are worth nothing, in any number of messages. */
  function WithClaims<C>(e: Event<C>, claims: Incoming): Event<C> {
    match e
    case Accept(c, Some(m), lookup, stores) =>
      var m' := m.(senderType := claims.senderType, senderId := claims.senderId, recipient := claims.recipient);
      Accept(c, Some(m'), lookup, stores)
    case _ => e
  }

  lemma {:induction false} ClaimsDoNotMatter<C>(s: State<C>, es: seq<Event<C>>, fs: seq<Event<C>>, claims: Incoming)
    requires |fs| == |es| && forall i :: 0 <= i < |es| ==> fs[i] == WithClaims(es[i], claims)
    ensures Run(s, es) <==> Run(s, fs)
    ensures Run(s, es) ==> After(s, fs) == After(s, es)
    decreases |es|
  {
    if es != [] {
      assert Enabled(s, fs[0]) <==> Enabled(s, es[0]);
      if Enabled(s, es[0]) {
        assert Step(s, fs[0]) == Step(s, es[0]);
        ClaimsDoNotMatter(Step(s, es[0]), es[1..], fs[1..], claims);
      }
    }
  }

  /** Whatever the JSON claimed, a chat frame carries the type and id of the connection
      that sent it, joins the two participants of the conversation it was looked up in,
      and names the holder of the channel or queue it is in as its recipient. */
  lemma ChatsAreAuthentic<C>(start: State<C>, es: seq<Event<C>>, f: Frame, holder: string)
    requires Starting(start) && Run(start, es) && f.Chat?
    requires var s := After(start, es);
             || f in Mailbox(s, holder)
             || exists c :: c in s.hub.conns && s.hub.conns[c].id == holder && f in H.Sent(s.hub.conns[c])
    ensures var s := After(start, es);
            && f.ref < |s.stored| && f.msg == s.stored[f.ref].msg
            && f.msg.recipient == holder && Origin(s, f.ref)
  {
    var s := After(start, es);
    StartInv(start);
    RunKeepsInv(start, es);
    if f in Mailbox(s, holder) {
      var mail := Mailbox(s, holder);
      var i :| 0 <= i < |mail| && mail[i] == f;
      assert Genuine(s, mail);
      TimesAt(mail, i);
      assert QueueCount(s, holder, f.ref);
    } else {
      var c :| c in s.hub.conns && s.hub.conns[c].id == holder && f in H.Sent(s.hub.conns[c]);
      var sent := H.Sent(s.hub.conns[c]);
      var i :| 0 <= i < |sent| && sent[i] == f;
      assert Genuine(s, sent);
      TimesAt(sent, i);
      assert SentCount(s, c, f.ref) && FateOk(s, f.ref);
      assert ForRecipient(s, c, f.ref);
    }
    assert Origin(s, f.ref);
  }

  /** If agent ids and user ids are disjoint, chats go from agents to clients and back. */
  lemma ChatsCrossOver<C>(start: State<C>, es: seq<Event<C>>, c: C, f: Frame, agentIds: set<string>)
    requires Starting(start) && Run(start, es) && f.Chat?
    requires var s := After(start, es);
             && c in s.hub.conns && f in H.Sent(s.hub.conns[c])
             && (forall x :: x in s.hub.conns ==> (s.hub.conns[x].kind == Agent <==> s.hub.conns[x].id in agentIds))
             && (forall r :: 0 <= r < |s.stored| ==>
                   s.stored[r].conv.agent in agentIds && s.stored[r].conv.user !in agentIds)
    ensures After(start, es).hub.conns[c].kind != f.msg.senderType
  {
    ChatsAreAuthentic(start, es, f, After(start, es).hub.conns[c].id);
  }

  /** A replay puts its batch into the channel in order, and always a prefix of it: the
      whole batch if it ends by itself. It gives up only on a connection that has been
      closed or whose channel has taken more than 156 frames besides the replayed ones;
      and the filter on message types never skips anything. */
  lemma ReplayIsFaithful<C>(start: State<C>, es: seq<Event<C>>, c: C)
    requires Starting(start) && Run(start, es) && c in After(start, es).replays
    ensures var s := After(start, es);
            c in s.hub.conns &&
            var (p, sent) := (s.replays[c], H.Sent(s.hub.conns[c]));
            && |p.at| <= |p.batch| <= 100
            && (forall i :: 0 <= i < |p.at| ==> p.at[i] < |sent| && sent[p.at[i]] == p.batch[i])
            && (forall i, j :: 0 <= i < j < |p.at| ==> p.at[i] < p.at[j])
            && (p.rest == [] && !p.aborted ==> |p.at| == |p.batch|)
            && (p.aborted ==> s.hub.conns[c].closed || |sent| - |p.at| > 156)
            && (forall i :: 0 <= i < |p.rest| ==> Replayable(p.rest[i]))
  {
    var s := After(start, es);
    StartInv(start);
    RunKeepsInv(start, es);
    assert ReplayOk(s.replays[c], s.hub.conns[c]);
    assert AllChat(s.replays[c].rest);
  }
}
