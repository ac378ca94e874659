/** What every interleaving of the delivery pipeline keeps: each stored message is in
    exactly one place, is what its sender sent to that recipient, and is replayed in
    order. */
module Conservation {
  import opened Common
  import opened Frames
  import opened Pipeline
  import H = HubModel
  import Q = OfflineQueue

  // -------------------------------------------------------------------- counting

  function Indicator(b: bool): nat { if b then 1 else 0 }

  ghost predicate NoChat(fs: seq<Frame>) { forall i :: 0 <= i < |fs| ==> !fs[i].Chat? }

  lemma {:induction false} TimesConcat(a: seq<Frame>, b: seq<Frame>, r: nat)
    ensures Times(a + b, r) == Times(a, r) + Times(b, r)
    decreases |b|
  {
    if b == [] {
      assert a + b == a;
    } else {
      assert (a + b)[..|a + b| - 1] == a + b[..|b| - 1];
      TimesConcat(a, b[..|b| - 1], r);
    }
  }

  lemma {:induction false} TimesNoChat(fs: seq<Frame>, r: nat)
    requires NoChat(fs)
    ensures Times(fs, r) == 0
  {
    if fs != [] { TimesNoChat(fs[..|fs| - 1], r); }
  }

  lemma TimesOne(f: Frame, r: nat)
    ensures Times([f], r) == Indicator(f.Chat? && f.ref == r)
  {
    assert [f][..0] == [];
  }

  lemma {:induction false} TimesAt(fs: seq<Frame>, i: nat)
    requires i < |fs| && fs[i].Chat?
    ensures Times(fs, fs[i].ref) >= 1
  {
    if i < |fs| - 1 { TimesAt(fs[..|fs| - 1], i); }
  }

  lemma TimesSnoc(fs: seq<Frame>, f: Frame, r: nat)
    ensures Times(fs + [f], r) == Times(fs, r) + Indicator(f.Chat? && f.ref == r)
  {
    assert (fs + [f])[..|fs|] == fs;
  }

  lemma {:induction false} DrainTimes(buf: seq<Q.Queued<Frame>>, now: int, ttl: int, r: nat)
    ensures Times(Q.Live(buf, now, ttl), r) + Times(Q.Expired(buf, now, ttl), r) == Times(FramesOf(buf), r)
  {
    if buf != [] {
      var front, last := buf[..|buf| - 1], buf[|buf| - 1];
      DrainTimes(front, now, ttl, r);
      TimesSnoc(FramesOf(front), last.data, r);
      assert FramesOf(buf) == FramesOf(front) + [last.data];
      if Q.Fresh(last, now, ttl) {
        TimesSnoc(Q.Live(front, now, ttl), last.data, r);
      } else {
        TimesSnoc(Q.Expired(front, now, ttl), last.data, r);
      }
    }
  }

  // ------------------------------------------------------------------ invariants

  /** The connections whose channel has taken message r. */
  function Holders<C>(s: State<C>, r: nat): set<C>
    requires r < |s.fates|
  {
    match s.fates[r]
    case Routing => if r in s.routes && s.routes[r].Sending? then s.routes[r].got else {}
    case Delivered(to) => to
    case Replayed(c) => {c}
    case _ => {}
  }

  /** The message joins the two participants of its conversation, and comes from a real
      connection if it was stored since the start. */
  ghost predicate Origin<C>(s: State<C>, r: nat)
    requires r < |s.stored|
  {
    var st := s.stored[r];
    && JoinsParticipants(st)
    && (st.sender.Some? ==>
          && st.sender.value in s.hub.conns
          && st.msg.senderType == s.hub.conns[st.sender.value].kind
          && st.msg.senderId == s.hub.conns[st.sender.value].id)
  }

  ghost predicate ForRecipient<C>(s: State<C>, c: C, r: nat) {
    r < |s.stored| && c in s.hub.conns && s.hub.conns[c].id == s.stored[r].msg.recipient
  }

  ghost predicate RouteOk<C>(s: State<C>, r: nat)
    requires r in s.routes
  {
    && r < |s.stored| && s.stored[r].sender.Some?
    && (s.routes[r].Sending? ==>
      var (p, g) := (s.routes[r].pending, s.routes[r].got);
      && (forall i :: 0 <= i < |p| ==> ForRecipient(s, p[i], r) && p[i] !in g)
      && (forall i, j :: 0 <= i < j < |p| ==> p[i] != p[j])
      && (forall c :: c in g ==> ForRecipient(s, c, r)))
  }

  ghost predicate FateOk<C>(s: State<C>, r: nat)
    requires r < |s.fates|
  {
    && (forall c :: c in Holders(s, r) ==> ForRecipient(s, c, r))
    && (s.fates[r].Delivered? ==> s.fates[r].to != {})
    && (s.fates[r].Replaying? ==> s.fates[r].via in s.replays && ForRecipient(s, s.fates[r].via, r))
  }

  ghost predicate Basics<C>(s: State<C>) {
    && |s.fates| == |s.stored|
    && (forall r: nat :: r in s.routes <==> r < |s.fates| && s.fates[r].Routing?)
    && (forall r: nat :: r < |s.stored| ==> Origin(s, r))
    && (forall r: nat :: r in s.routes ==> RouteOk(s, r))
    && (forall r: nat :: r < |s.fates| ==> FateOk(s, r))
    && (forall c :: c in s.replays ==> c in s.hub.conns)
  }

  ghost predicate SentCount<C>(s: State<C>, c: C, r: nat)
    requires c in s.hub.conns
  {
    Times(H.Sent(s.hub.conns[c]), r) == Indicator(r < |s.fates| && c in Holders(s, r))
  }

  ghost predicate QueueCount<C>(s: State<C>, id: string, r: nat) {
    Times(Mailbox(s, id), r)
    == Indicator(r < |s.fates| && r < |s.stored| && s.fates[r].Waiting? && s.stored[r].msg.recipient == id)
  }

  ghost predicate ReplayCount<C>(s: State<C>, c: C, r: nat)
    requires c in s.replays
  {
    Times(s.replays[c].rest, r) == Indicator(r < |s.fates| && s.fates[r] == Replaying(c))
  }

  /** Each place holds each message as often as its fate says, which is at most once. */
  ghost predicate Counts<C>(s: State<C>) {
    && (forall c, r: nat :: c in s.hub.conns ==> SentCount(s, c, r))
    && (forall id, r: nat :: QueueCount(s, id, r))
    && (forall c, r: nat :: c in s.replays ==> ReplayCount(s, c, r))
  }

  /** Chat frames carry the stored message they are numbered with. */
  ghost predicate Genuine<C>(s: State<C>, fs: seq<Frame>) {
    forall i :: 0 <= i < |fs| && fs[i].Chat? ==> fs[i].ref < |s.stored| && fs[i].msg == s.stored[fs[i].ref].msg
  }

  ghost predicate AllChat(fs: seq<Frame>) { forall i :: 0 <= i < |fs| ==> fs[i].Chat? }

  ghost predicate Authentic<C>(s: State<C>) {
    && (forall c :: c in s.hub.conns ==> Genuine(s, H.Sent(s.hub.conns[c])))
    && (forall id :: Genuine(s, Mailbox(s, id)) && AllChat(Mailbox(s, id)) && |Mailbox(s, id)| <= Q.MAX_LEN)
    && (forall c :: c in s.replays ==> Genuine(s, s.replays[c].rest) && AllChat(s.replays[c].rest))
  }

  /** The drained batch goes into the channel in order, a prefix of it; giving up is for
      a closed connection or a channel that has taken more than 156 other frames. */
  ghost predicate ReplayOk(p: Replay, conn: H.Conn) {
    && |p.batch| <= Q.MAX_LEN && |p.at| <= |p.batch|
    && (forall i :: 0 <= i < |p.at| ==> p.at[i] < |H.Sent(conn)| && H.Sent(conn)[p.at[i]] == p.batch[i])
    && (forall i, j :: 0 <= i < j < |p.at| ==> p.at[i] < p.at[j])
    && (!p.aborted ==> p.rest == p.batch[|p.at|..])
    && (p.aborted ==> p.rest == [] && (conn.closed || |H.Sent(conn)| - |p.at| > H.CAPACITY - Q.MAX_LEN))
  }

  ghost predicate ReplaysOk<C>(s: State<C>) {
    forall c :: c in s.replays ==> c in s.hub.conns && ReplayOk(s.replays[c], s.hub.conns[c])
  }

  ghost predicate Inv<C>(s: State<C>) {
    H.Inv(s.hub) && Basics(s) && Counts(s) && Authentic(s) && ReplaysOk(s)
  }

  // ------------------------------------------------- frames that are not messages

  /** The same connection later, with at most other kinds of frames added. */
  ghost predicate Extended(a: H.Conn, b: H.Conn) {
    && b.kind == a.kind && b.id == a.id && (a.closed ==> b.closed)
    && H.Sent(a) <= H.Sent(b)
    && forall i :: |H.Sent(a)| <= i < |H.Sent(b)| ==> !H.Sent(b)[i].Chat?
  }

  ghost predicate OnlyNotices<C>(h: H.Hub<C>, k: H.Hub<C>) {
    && (forall c :: c in h.conns ==> c in k.conns && Extended(h.conns[c], k.conns[c]))
    && (forall c :: c in k.conns && c !in h.conns ==> NoChat(H.Sent(k.conns[c])))
  }

  lemma PushExtends(c: H.Conn, f: Frame)
    requires !f.Chat?
    ensures Extended(c, H.Push(c, f))
  {
    if H.Accepts(c) {
      assert H.Sent(H.Push(c, f)) == H.Sent(c) + [f];
    }
  }

  lemma ExtendsTwice(a: H.Conn, b: H.Conn, c: H.Conn)
    requires Extended(a, b) && Extended(b, c)
    ensures Extended(a, c)
  {
    var (y, z) := (H.Sent(b), H.Sent(c));
    assert forall i :: 0 <= i < |y| ==> z[i] == y[i];
  }

  lemma AnnounceOnlyNotices<C>(h: H.Hub<C>, k: H.Hub<C>, agent: string, online: bool)
    requires OnlyNotices(h, k)
    ensures OnlyNotices(h, H.Announce(k, agent, online))
  {
    var m := H.Announce(k, agent, online);
    forall c | c in k.conns ensures Extended(k.conns[c], m.conns[c]) {
      PushExtends(k.conns[c], Presence(agent, online));
    }
    forall c | c in h.conns ensures c in m.conns && Extended(h.conns[c], m.conns[c]) {
      ExtendsTwice(h.conns[c], k.conns[c], m.conns[c]);
    }
    forall c | c in m.conns && c !in h.conns ensures NoChat(H.Sent(m.conns[c])) {
      NoChatExtends(k.conns[c], m.conns[c]);
    }
  }

  lemma NoChatExtends(a: H.Conn, b: H.Conn)
    requires NoChat(H.Sent(a)) && Extended(a, b)
    ensures NoChat(H.Sent(b))
  {
    assert forall i :: 0 <= i < |H.Sent(a)| ==> H.Sent(b)[i] == H.Sent(a)[i];
  }

  lemma RegisterClientOnlyNotices<C>(h: H.Hub<C>, c: C)
    requires c in h.conns
    ensures OnlyNotices(h, H.RegisterClient(h, c))
  {
    var k := H.RegisterClient(h, c);
    forall x | x in h.conns ensures x in k.conns && Extended(h.conns[x], k.conns[x]) {
      assert H.Sent(k.conns[x]) == H.Sent(h.conns[x]);
    }
  }

  lemma UnregisterOnlyNotices<C>(h: H.Hub<C>, c: C)
    requires H.Enabled(h, H.Unregister(c))
    ensures OnlyNotices(h, H.Step(h, H.Unregister(c)))
  {
    var id := h.conns[c].id;
    if h.conns[c].kind == Client {
      var k := H.UnregisterClient(h, c, id);
      forall x | x in h.conns ensures x in k.conns && Extended(h.conns[x], k.conns[x]) {
        assert k.conns[x] == h.conns[x] || k.conns[x] == H.Shut(h.conns[x]);
      }
    } else if id in h.agents && h.agents[id] == c {
      var k := H.AgentRemoved(h, c, id);
      forall x | x in h.conns ensures x in k.conns && Extended(h.conns[x], k.conns[x]) {
        assert k.conns[x] == h.conns[x] || k.conns[x] == H.Shut(h.conns[x]);
      }
      AnnounceOnlyNotices(h, k, id, false);
    }
  }

  lemma RegisterAgentOnlyNotices<C>(h: H.Hub<C>, c: C, now: int)
    requires c in h.conns
    ensures OnlyNotices(h, H.RegisterAgent(h, c, now))
  {
    var k := H.AgentAdded(h, c, now);
    forall x | x in h.conns ensures x in k.conns && Extended(h.conns[x], k.conns[x]) {
      assert H.Sent(k.conns[x]) == H.Sent(h.conns[x]);
    }
    AnnounceOnlyNotices(h, k, h.conns[c].id, true);
  }

  lemma HubEventOnlyNotices<C>(h: H.Hub<C>, e: H.Event<C>)
    requires H.Enabled(h, e) && Quiet(e)
    ensures OnlyNotices(h, H.Step(h, e))
  {
    match e
    case Open(c, _, _, _) => assert H.Sent(H.Step(h, e).conns[c]) == [];
    case Register(c, now) =>
      if h.conns[c].kind == Agent { RegisterAgentOnlyNotices(h, c, now); } else { RegisterClientOnlyNotices(h, c); }
    case Unregister(c) => UnregisterOnlyNotices(h, c);
    case Send(c, f) => PushExtends(h.conns[c], f);
    case Broadcast(f) =>
      forall c | c in h.conns ensures Extended(h.conns[c], H.Step(h, e).conns[c]) { PushExtends(h.conns[c], f); }
    case Receive(c) =>
      assert H.Sent(H.Step(h, e).conns[c]) == H.Sent(h.conns[c]);
    case Touch(c, _) =>
      assert H.Sent(H.Step(h, e).conns[c]) == H.Sent(h.conns[c]);
  }

  lemma ExtendedTimes(a: H.Conn, b: H.Conn, r: nat)
    requires Extended(a, b)
    ensures Times(H.Sent(b), r) == Times(H.Sent(a), r)
  {
    var (x, y) := (H.Sent(a), H.Sent(b));
    assert y == x + y[|x|..] && forall i :: 0 <= i < |y[|x|..]| ==> y[|x|..][i] == y[|x| + i];
    TimesConcat(x, y[|x|..], r);
    TimesNoChat(y[|x|..], r);
  }

  lemma NoticesKeepCounts<C>(s: State<C>, k: H.Hub<C>)
    requires Basics(s) && Counts(s) && OnlyNotices(s.hub, k)
    ensures Counts(s.(hub := k))
  {
    var t := s.(hub := k);
    forall c, r: nat | c in t.hub.conns ensures SentCount(t, c, r) {
      if r < |s.fates| { assert FateOk(s, r) && Holders(t, r) == Holders(s, r); }
      if c in s.hub.conns {
        assert SentCount(s, c, r);
        ExtendedTimes(s.hub.conns[c], k.conns[c], r);
      } else {
        TimesNoChat(H.Sent(k.conns[c]), r);
        assert !ForRecipient(s, c, r);
      }
    }
    forall id, r: nat ensures QueueCount(t, id, r) { assert QueueCount(s, id, r); }
    forall c, r: nat | c in t.replays ensures ReplayCount(t, c, r) { assert ReplayCount(s, c, r); }
  }

  lemma NoticesKeepReplays<C>(s: State<C>, k: H.Hub<C>)
    requires ReplaysOk(s) && OnlyNotices(s.hub, k)
    ensures ReplaysOk(s.(hub := k))
  {
    forall c | c in s.replays ensures c in k.conns && ReplayOk(s.replays[c], k.conns[c]) {
      assert ReplayOk(s.replays[c], s.hub.conns[c]) && Extended(s.hub.conns[c], k.conns[c]);
    }
  }

  /** Whatever the hub does beside chat messages leaves the invariant alone. */
  lemma NoticesKeepInv<C>(s: State<C>, k: H.Hub<C>)
    requires Inv(s) && H.Inv(k) && OnlyNotices(s.hub, k)
    ensures Inv(s.(hub := k))
  {
    NoticesKeepBasics(s, k);
    NoticesKeepCounts(s, k);
    NoticesKeepAuthentic(s, k);
    NoticesKeepReplays(s, k);
  }

  lemma NoticesKeepBasics<C>(s: State<C>, k: H.Hub<C>)
    requires Basics(s) && OnlyNotices(s.hub, k)
    ensures Basics(s.(hub := k))
  {
    var t := s.(hub := k);
    forall c, r: nat | ForRecipient(s, c, r) ensures ForRecipient(t, c, r) {}
    forall r | 0 <= r < |t.stored| ensures Origin(t, r) { assert Origin(s, r); }
    forall r | r in t.routes ensures RouteOk(t, r) { assert RouteOk(s, r); }
    forall r | 0 <= r < |t.fates| ensures FateOk(t, r) { assert FateOk(s, r) && Holders(t, r) == Holders(s, r); }
  }

  lemma NoticesKeepAuthentic<C>(s: State<C>, k: H.Hub<C>)
    requires Authentic(s) && OnlyNotices(s.hub, k)
    ensures Authentic(s.(hub := k))
  {
    var t := s.(hub := k);
    forall c | c in k.conns ensures Genuine(t, H.Sent(k.conns[c])) {
      if c in s.hub.conns {
        var (x, y) := (H.Sent(s.hub.conns[c]), H.Sent(k.conns[c]));
        assert Extended(s.hub.conns[c], k.conns[c]) && Genuine(s, x);
        forall i | 0 <= i < |y| && y[i].Chat? ensures y[i].ref < |s.stored| && y[i].msg == s.stored[y[i].ref].msg {
          assert i < |x| && y[i] == x[i];
        }
      }
    }
    forall id ensures Genuine(t, Mailbox(t, id)) && AllChat(Mailbox(t, id)) && |Mailbox(t, id)| <= Q.MAX_LEN {
      assert Genuine(s, Mailbox(s, id));
    }
    forall c | c in t.replays ensures Genuine(t, t.replays[c].rest) { assert Genuine(s, s.replays[c].rest); }
  }

  // ------------------------------------------------------------ accept and snapshot

  /** One more stored message, not yet anywhere. */
  ghost predicate Admitted<C>(s: State<C>, t: State<C>) {
    && |t.stored| == |s.stored| + 1 && s.stored <= t.stored && t.stored[|s.stored|].sender.Some?
    && t.fates == s.fates + [Routing] && t.routes == s.routes[|s.stored| := Fresh]
    && t.hub == s.hub && t.queue == s.queue && t.replays == s.replays
  }

  lemma AdmittedBasics<C>(s: State<C>, t: State<C>)
    requires Basics(s) && Admitted(s, t) && Origin(t, |s.stored|)
    ensures Basics(t)
  {
    var n := |s.stored|;
    forall r: nat | r < |t.stored| ensures Origin(t, r) { if r < n { assert Origin(s, r); } }
    forall r: nat | r in t.routes ensures RouteOk(t, r) { if r < n { assert RouteOk(s, r); } }
    forall r: nat | r < |t.fates| ensures FateOk(t, r) {
      if r < n { assert FateOk(s, r) && Holders(t, r) == Holders(s, r); }
    }
  }

  lemma AdmittedCounts<C>(s: State<C>, t: State<C>)
    requires Basics(s) && Counts(s) && Admitted(s, t)
    ensures Counts(t)
  {
    forall r: nat | r < |s.fates| ensures Holders(t, r) == Holders(s, r) {}
    forall x, r: nat | x in t.hub.conns ensures SentCount(t, x, r) { assert SentCount(s, x, r); }
    forall id, r: nat ensures QueueCount(t, id, r) { assert QueueCount(s, id, r); }
    forall x, r: nat | x in t.replays ensures ReplayCount(t, x, r) { assert ReplayCount(s, x, r); }
  }

  lemma AuthenticFrame<C>(s: State<C>, t: State<C>)
    requires Authentic(s) && s.stored <= t.stored && t.hub == s.hub && t.queue == s.queue && t.replays == s.replays
    ensures Authentic(t)
  {
    forall x | x in t.hub.conns ensures Genuine(t, H.Sent(t.hub.conns[x])) {
      assert Genuine(s, H.Sent(s.hub.conns[x]));
    }
    forall id ensures Genuine(t, Mailbox(t, id)) && AllChat(Mailbox(t, id)) && |Mailbox(t, id)| <= Q.MAX_LEN {
      assert Genuine(s, Mailbox(s, id));
    }
    forall x | x in t.replays ensures Genuine(t, t.replays[x].rest) { assert Genuine(s, s.replays[x].rest); }
  }

  lemma AcceptKeepsInv<C>(s: State<C>, c: C, json: Option<Incoming>, lookup: Lookup, stores: bool)
    requires Inv(s) && c in s.hub.conns
    requires Validate(s.hub.conns[c].kind, s.hub.conns[c].id, json, lookup, stores).Accepted?
    ensures Inv(AcceptStep(s, c, json, lookup, stores))
  {
    var t := AcceptStep(s, c, json, lookup, stores);
    AdmittedBasics(s, t);
    AdmittedCounts(s, t);
    AuthenticFrame(s, t);
  }

  /** A change that moves no frame and no holder leaves counts and contents alone. */
  lemma SamePlaces<C>(s: State<C>, t: State<C>)
    requires Inv(s) && Basics(t)
    requires t.hub == s.hub && t.queue == s.queue && t.replays == s.replays && t.stored == s.stored
    requires forall r: nat :: r < |s.fates| ==>
               && Holders(t, r) == Holders(s, r)
               && t.fates[r].Waiting? == s.fates[r].Waiting?
               && (t.fates[r].Replaying? || s.fates[r].Replaying? ==> t.fates[r] == s.fates[r])
    ensures Inv(t)
  {
    forall x, r: nat | x in t.hub.conns ensures SentCount(t, x, r) { assert SentCount(s, x, r); }
    forall id, r: nat ensures QueueCount(t, id, r) { assert QueueCount(s, id, r); }
    forall x, r: nat | x in t.replays ensures ReplayCount(t, x, r) { assert ReplayCount(s, x, r); }
    AuthenticFrame(s, t);
  }

  lemma TargetsOk<C>(h: H.Hub<C>, msg: Routed)
    requires H.Inv(h)
    ensures var p := Targets(h, msg);
            && (forall i :: 0 <= i < |p| ==> p[i] in h.conns && h.conns[p[i]].id == msg.recipient)
            && (forall i :: 0 <= i < |p| ==> h.conns[p[i]].kind != msg.senderType)
            && (forall i, j :: 0 <= i < j < |p| ==> p[i] != p[j])
  {
    if msg.senderType == Agent && msg.recipient in h.clients {
      var p := h.clients[msg.recipient];
      assert H.ListOk(h, msg.recipient, p);
      assert forall i :: 0 <= i < |p| ==> H.LiveClient(h, msg.recipient, p[i]);
    }
  }

  lemma SnapshotKeepsInv<C>(s: State<C>, ref: nat)
    requires Inv(s) && Enabled(s, Snapshot(ref))
    ensures Inv(Step(s, Snapshot(ref)))
  {
    var t := Step(s, Snapshot(ref));
    TargetsOk(s.hub, s.stored[ref].msg);
    forall r: nat | r < |s.fates| ensures Holders(t, r) == Holders(s, r) {}
    forall r: nat | r < |t.stored| ensures Origin(t, r) { assert Origin(s, r); }
    forall r: nat | r in t.routes ensures RouteOk(t, r) { if r != ref { assert RouteOk(s, r); } }
    forall r: nat | r < |t.fates| ensures FateOk(t, r) { assert FateOk(s, r); }
    SamePlaces(s, t);
  }

  // ---------------------------------------------------------------------- deliver

  lemma PushSent(c: H.Conn, f: Frame)
    ensures H.Sent(H.Push(c, f)) == if H.Accepts(c) then H.Sent(c) + [f] else H.Sent(c)
  {
    if H.Accepts(c) { assert H.Sent(H.Push(c, f)) == H.Sent(c) + [f]; }
  }

  /** Pushing any frame keeps every replay of every connection as it should be. */
  lemma PushKeepsReplay(p: Replay, conn: H.Conn, f: Frame)
    requires ReplayOk(p, conn)
    ensures ReplayOk(p, H.Push(conn, f))
  {
    PushSent(conn, f);
  }

  lemma DeliverBasics<C>(s: State<C>, ref: nat)
    requires Basics(s) && Enabled(s, Deliver(ref))
    ensures Basics(DeliverStep(s, ref))
    ensures forall r: nat :: r < |s.fates| ==>
              Holders(DeliverStep(s, ref), r) ==
              if r == ref then DeliverStep(s, ref).routes[ref].got else Holders(s, r)
  {
    var t, c := DeliverStep(s, ref), s.routes[ref].pending[0];
    assert RouteOk(s, ref);
    forall x, r: nat | ForRecipient(s, x, r) ensures ForRecipient(t, x, r) {}
    forall r: nat | r < |t.stored| ensures Origin(t, r) { assert Origin(s, r); }
    forall r: nat | r in t.routes ensures RouteOk(t, r) {
      assert RouteOk(s, r);
      if r == ref {
        var (p, q) := (s.routes[ref].pending, t.routes[ref].pending);
        assert forall i :: 0 <= i < |q| ==> q[i] == p[i + 1];
        assert ForRecipient(s, p[0], ref);
      }
    }
    forall r: nat | r < |t.fates| ensures FateOk(t, r) {
      assert FateOk(s, r);
      if r == ref { assert RouteOk(t, ref); }
    }
  }

  lemma DeliverCounts<C>(s: State<C>, ref: nat)
    requires Basics(s) && Counts(s) && Enabled(s, Deliver(ref))
    ensures Counts(DeliverStep(s, ref))
  {
    var t, c := DeliverStep(s, ref), s.routes[ref].pending[0];
    var f := Chat(s.stored[ref].msg, ref);
    DeliverBasics(s, ref);
    assert RouteOk(s, ref);
    forall x, r: nat | x in t.hub.conns ensures SentCount(t, x, r) {
      assert SentCount(s, x, r);
      if x == c {
        PushSent(s.hub.conns[c], f);
        TimesSnoc(H.Sent(s.hub.conns[c]), f, r);
      }
    }
    forall id, r: nat ensures QueueCount(t, id, r) { assert QueueCount(s, id, r); }
    forall x, r: nat | x in t.replays ensures ReplayCount(t, x, r) { assert ReplayCount(s, x, r); }
  }

  lemma DeliverKeepsInv<C>(s: State<C>, ref: nat)
    requires Inv(s) && Enabled(s, Deliver(ref))
    ensures Inv(DeliverStep(s, ref))
  {
    var t, c := DeliverStep(s, ref), s.routes[ref].pending[0];
    var f := Chat(s.stored[ref].msg, ref);
    H.StepKeepsInv(s.hub, H.Send(c, f));
    DeliverBasics(s, ref);
    DeliverCounts(s, ref);
    PushKeepsAuthentic(s, t, c, f);
    DeliverReplays(s, ref);
  }

  lemma DeliverReplays<C>(s: State<C>, ref: nat)
    requires ReplaysOk(s) && Enabled(s, Deliver(ref))
    ensures ReplaysOk(DeliverStep(s, ref))
  {
    var c := s.routes[ref].pending[0];
    if c in s.replays { PushKeepsReplay(s.replays[c], s.hub.conns[c], Chat(s.stored[ref].msg, ref)); }
  }

  lemma PushKeepsAuthentic<C>(s: State<C>, t: State<C>, c: C, f: Frame)
    requires Authentic(s) && c in s.hub.conns && t.hub == PushTo(s.hub, c, f)
    requires t.stored == s.stored && t.queue == s.queue && Genuine(s, [f])
    requires forall x :: x in t.replays ==> x in s.replays
    requires forall x :: x in t.replays && t.replays[x].rest != s.replays[x].rest ==>
               s.replays[x].rest != [] && t.replays[x].rest == s.replays[x].rest[1..]
    ensures Authentic(t)
  {
    assert f == [f][0];
    PushSent(s.hub.conns[c], f);
    forall x | x in t.hub.conns ensures Genuine(t, H.Sent(t.hub.conns[x])) {
      assert Genuine(s, H.Sent(s.hub.conns[x]));
    }
    forall id ensures Genuine(t, Mailbox(t, id)) && AllChat(Mailbox(t, id)) && |Mailbox(t, id)| <= Q.MAX_LEN {
      assert Genuine(s, Mailbox(s, id));
    }
    forall x | x in t.replays ensures Genuine(t, t.replays[x].rest) && AllChat(t.replays[x].rest) {
      assert Genuine(s, s.replays[x].rest) && AllChat(s.replays[x].rest);
    }
  }

  // ----------------------------------------------------------------------- finish

  lemma DeliveredKeepsInv<C>(s: State<C>, ref: nat)
    requires Inv(s) && ref in s.routes && s.routes[ref].Sending? && s.routes[ref].got != {}
    ensures Inv(s.(fates := s.fates[ref := Delivered(s.routes[ref].got)], routes := s.routes - {ref}))
  {
    var t := s.(fates := s.fates[ref := Delivered(s.routes[ref].got)], routes := s.routes - {ref});
    assert RouteOk(s, ref);
    forall r: nat | r < |s.fates| ensures Holders(t, r) == Holders(s, r) {}
    forall r: nat | r < |t.stored| ensures Origin(t, r) { assert Origin(s, r); }
    forall r: nat | r in t.routes ensures RouteOk(t, r) { assert RouteOk(s, r); }
    forall r: nat | r < |t.fates| ensures FateOk(t, r) { assert FateOk(s, r); }
    SamePlaces(s, t);
  }

  lemma NewestFrames(buf: seq<Q.Queued<Frame>>, f: Frame, now: int, max: nat)
    ensures FramesOf(Q.Newest(buf + [Q.Queued(f, now)], max)) == Q.Newest(FramesOf(buf) + [f], max)
  {
    assert FramesOf(buf + [Q.Queued(f, now)]) == FramesOf(buf) + [f];
  }

  lemma EnqueuedMailboxes<C>(s: State<C>, to: string, f: Frame, now: int)
    ensures var t := s.(queue := Q.Enqueued(s.queue, to, f, now, Q.MAX_LEN));
            && Mailbox(t, to) == Q.Newest(Mailbox(s, to) + [f], Q.MAX_LEN)
            && (forall id :: id != to ==> Mailbox(t, id) == Mailbox(s, id))
  {
    NewestFrames(Q.Get(s.queue, to), f, now, Q.MAX_LEN);
  }

  /** Trimming splits the lengthened mailbox in two. */
  lemma EnqueuedSplits<C>(s: State<C>, to: string, f: Frame, now: int, r: nat)
    ensures var t := s.(queue := Q.Enqueued(s.queue, to, f, now, Q.MAX_LEN));
            && Cut(Mailbox(s, to), f) + Mailbox(t, to) == Mailbox(s, to) + [f]
            && (forall id :: id != to ==> Mailbox(t, id) == Mailbox(s, id))
            && 1 <= |Mailbox(t, to)| <= Q.MAX_LEN && Mailbox(t, to)[|Mailbox(t, to)| - 1] == f
            && Times(Cut(Mailbox(s, to), f), r) + Times(Mailbox(t, to), r)
               == Times(Mailbox(s, to), r) + Indicator(f.Chat? && f.ref == r)
  {
    EnqueuedMailboxes(s, to, f, now);
    NewestSplits(Mailbox(s, to), f, r);
  }

  lemma NewestSplits(mail: seq<Frame>, f: Frame, r: nat)
    ensures var left := Q.Newest(mail + [f], Q.MAX_LEN);
            && Cut(mail, f) + left == mail + [f]
            && 1 <= |left| <= Q.MAX_LEN && left[|left| - 1] == f
            && Times(Cut(mail, f), r) + Times(left, r) == Times(mail, r) + Indicator(f.Chat? && f.ref == r)
  {
    var left := Q.Newest(mail + [f], Q.MAX_LEN);
    TimesSnoc(mail, f, r);
    assert Cut(mail, f) + left == mail + [f];
    TimesConcat(Cut(mail, f), left, r);
  }

  lemma EnqueueFates<C>(s: State<C>, ref: nat, now: int, r: nat)
    requires Basics(s) && Counts(s) && ref in s.routes && r < |s.fates|
    ensures var t := EnqueueStep(s, ref, now);
            var to := s.stored[ref].msg.recipient;
            && (r == ref ==> t.fates[r] == Waiting && Times(Mailbox(t, to), r) == 1)
            && (r != ref && Times(Mailbox(t, to), r) == Times(Mailbox(s, to), r) ==> t.fates[r] == s.fates[r])
            && (r != ref && Times(Mailbox(t, to), r) != Times(Mailbox(s, to), r) ==>
                  && t.fates[r] == Trimmed && s.fates[r] == Waiting
                  && s.stored[r].msg.recipient == to && Times(Mailbox(t, to), r) == 0)
  {
    var t, to := EnqueueStep(s, ref, now), s.stored[ref].msg.recipient;
    var f := Chat(s.stored[ref].msg, ref);
    EnqueuedSplits(s, to, f, now, r);
    assert Mailbox(t, to) == Mailbox(s.(queue := t.queue), to);
    assert QueueCount(s, to, r);
    if r == ref { TimesAt(Mailbox(t, to), |Mailbox(t, to)| - 1); }
  }

  lemma EnqueueBasics<C>(s: State<C>, ref: nat, now: int)
    requires Basics(s) && Counts(s) && ref in s.routes && s.routes[ref].Sending? && s.routes[ref].got == {}
    ensures Basics(EnqueueStep(s, ref, now))
    ensures forall r: nat :: r < |s.fates| ==> Holders(EnqueueStep(s, ref, now), r) == Holders(s, r)
  {
    var t := EnqueueStep(s, ref, now);
    forall r: nat | r < |s.fates|
      ensures Holders(t, r) == Holders(s, r) && FateOk(t, r)
      ensures t.fates[r].Routing? <==> s.fates[r].Routing? && r != ref
    {
      EnqueueFates(s, ref, now, r);
      assert FateOk(s, r);
    }
    forall r: nat | r < |t.stored| ensures Origin(t, r) { assert Origin(s, r); }
    forall r: nat | r in t.routes ensures RouteOk(t, r) { assert RouteOk(s, r); }
  }

  lemma EnqueueCounts<C>(s: State<C>, ref: nat, now: int)
    requires Basics(s) && Counts(s) && ref in s.routes && s.routes[ref].Sending? && s.routes[ref].got == {}
    ensures Counts(EnqueueStep(s, ref, now))
  {
    var t, to := EnqueueStep(s, ref, now), s.stored[ref].msg.recipient;
    EnqueueBasics(s, ref, now);
    forall x, r: nat | x in t.hub.conns ensures SentCount(t, x, r) { assert SentCount(s, x, r); }
    forall id, r: nat ensures QueueCount(t, id, r) {
      EnqueuedSplits(s, to, Chat(s.stored[ref].msg, ref), now, r);
      assert Mailbox(t, id) == Mailbox(s.(queue := t.queue), id);
      assert QueueCount(s, id, r) && QueueCount(s, to, r);
      if r < |s.fates| { EnqueueFates(s, ref, now, r); }
    }
    forall x, r: nat | x in t.replays ensures ReplayCount(t, x, r) {
      assert ReplayCount(s, x, r);
      if r < |s.fates| { EnqueueFates(s, ref, now, r); }
    }
  }

  lemma GenuineTail<C>(s: State<C>, a: seq<Frame>, b: seq<Frame>)
    requires Genuine(s, a + b) && AllChat(a + b)
    ensures Genuine(s, b) && AllChat(b)
  {
    assert forall i :: 0 <= i < |b| ==> b[i] == (a + b)[|a| + i];
  }

  lemma EnqueueMailbox<C>(s: State<C>, ref: nat, now: int)
    requires Authentic(s) && ref < |s.stored| == |s.fates|
    ensures var mail := Mailbox(EnqueueStep(s, ref, now), s.stored[ref].msg.recipient);
            Genuine(s, mail) && AllChat(mail) && |mail| <= Q.MAX_LEN
    ensures forall id :: id != s.stored[ref].msg.recipient ==> Mailbox(EnqueueStep(s, ref, now), id) == Mailbox(s, id)
  {
    var t, to := EnqueueStep(s, ref, now), s.stored[ref].msg.recipient;
    var f := Chat(s.stored[ref].msg, ref);
    EnqueuedSplits(s, to, f, now, 0);
    assert Genuine(s, Mailbox(s, to)) && AllChat(Mailbox(s, to));
    assert Mailbox(t, to) == Mailbox(s.(queue := t.queue), to);
    GenuineTail(s, Cut(Mailbox(s, to), f), Mailbox(t, to));
  }

  lemma EnqueueAuthentic<C>(s: State<C>, ref: nat, now: int)
    requires Authentic(s) && ref < |s.stored| == |s.fates|
    ensures Authentic(EnqueueStep(s, ref, now))
  {
    var t, to := EnqueueStep(s, ref, now), s.stored[ref].msg.recipient;
    EnqueueMailbox(s, ref, now);
    forall x | x in t.hub.conns ensures Genuine(t, H.Sent(t.hub.conns[x])) {
      assert Genuine(s, H.Sent(s.hub.conns[x]));
    }
    forall id ensures Genuine(t, Mailbox(t, id)) && AllChat(Mailbox(t, id)) && |Mailbox(t, id)| <= Q.MAX_LEN {
      if id != to { assert Genuine(s, Mailbox(s, id)) && Mailbox(t, id) == Mailbox(s, id); }
    }
    forall x | x in t.replays ensures Genuine(t, t.replays[x].rest) { assert Genuine(s, s.replays[x].rest); }
  }

  lemma FinishKeepsInv<C>(s: State<C>, ref: nat, now: int)
    requires Inv(s) && Enabled(s, Finish(ref, now))
    ensures Inv(FinishStep(s, ref, now))
  {
    var ack := H.Send(s.stored[ref].sender.value, Notice("message_sent"));
    HubEventOnlyNotices(s.hub, ack);
    H.StepKeepsInv(s.hub, ack);
    if s.routes[ref].got == {} {
      EnqueueBasics(s, ref, now);
      EnqueueCounts(s, ref, now);
      EnqueueAuthentic(s, ref, now);
      NoticesKeepInv(EnqueueStep(s, ref, now), H.Step(s.hub, ack));
    } else {
      DeliveredKeepsInv(s, ref);
      var done := s.(fates := s.fates[ref := Delivered(s.routes[ref].got)], routes := s.routes - {ref});
      NoticesKeepInv(done, H.Step(s.hub, ack));
    }
  }

  // ----------------------------------------------------------------------- replay

  lemma StartFates<C>(s: State<C>, c: C, now: int, r: nat)
    requires Basics(s) && Counts(s) && Enabled(s, StartReplay(c, now)) && r < |s.fates|
    ensures var t := StartReplayStep(s, c, now);
            var id := s.hub.conns[c].id;
            var mine := s.fates[r].Waiting? && s.stored[r].msg.recipient == id;
            && (if mine then t.fates[r] == (if Times(t.replays[c].batch, r) == 1 then Replaying(c) else Expired)
                else t.fates[r] == s.fates[r])
            && Times(t.replays[c].batch, r) <= Indicator(mine)
  {
    var id := s.hub.conns[c].id;
    DrainTimes(Q.Get(s.queue, id), now, Q.TTL, r);
    assert QueueCount(s, id, r);
  }

  lemma StartBasics<C>(s: State<C>, c: C, now: int)
    requires Basics(s) && Counts(s) && Enabled(s, StartReplay(c, now))
    ensures Basics(StartReplayStep(s, c, now))
    ensures forall r: nat :: r < |s.fates| ==> Holders(StartReplayStep(s, c, now), r) == Holders(s, r)
  {
    var t := StartReplayStep(s, c, now);
    forall r: nat | r < |s.fates|
      ensures Holders(t, r) == Holders(s, r) && FateOk(t, r) && (t.fates[r].Routing? <==> s.fates[r].Routing?)
    {
      StartFates(s, c, now, r);
      assert FateOk(s, r);
    }
    forall r: nat | r < |t.stored| ensures Origin(t, r) { assert Origin(s, r); }
    forall r: nat | r in t.routes ensures RouteOk(t, r) { assert RouteOk(s, r); }
  }

  lemma StartCounts<C>(s: State<C>, c: C, now: int)
    requires Basics(s) && Counts(s) && Enabled(s, StartReplay(c, now))
    ensures Counts(StartReplayStep(s, c, now))
  {
    var t, mine := StartReplayStep(s, c, now), s.hub.conns[c].id;
    StartBasics(s, c, now);
    forall x, r: nat | x in t.hub.conns ensures SentCount(t, x, r) { assert SentCount(s, x, r); }
    forall id, r: nat ensures QueueCount(t, id, r) {
      assert QueueCount(s, id, r);
      if r < |s.fates| { StartFates(s, c, now, r); }
      assert id != mine ==> Mailbox(t, id) == Mailbox(s, id);
      assert id == mine ==> Mailbox(t, id) == [];
    }
    forall x, r: nat | x in t.replays ensures ReplayCount(t, x, r) {
      if r < |s.fates| {
        StartFates(s, c, now, r);
        assert FateOk(s, r);
      } else {
        DrainTimes(Q.Get(s.queue, mine), now, Q.TTL, r);
        assert QueueCount(s, mine, r);
      }
      if x != c { assert ReplayCount(s, x, r); }
    }
  }

  /** A drained batch is part of the mailbox. */
  lemma {:induction false} LiveIsPart(buf: seq<Q.Queued<Frame>>, now: int, ttl: int)
    ensures |Q.Live(buf, now, ttl)| <= |buf|
    ensures forall f :: f in Q.Live(buf, now, ttl) ==> f in FramesOf(buf)
  {
    if buf != [] {
      LiveIsPart(buf[..|buf| - 1], now, ttl);
      assert FramesOf(buf) == FramesOf(buf[..|buf| - 1]) + [buf[|buf| - 1].data];
    }
  }

  lemma PartIsGenuine<C>(s: State<C>, part: seq<Frame>, all: seq<Frame>)
    requires Genuine(s, all) && AllChat(all) && forall f :: f in part ==> f in all
    ensures Genuine(s, part) && AllChat(part)
  {
    forall i | 0 <= i < |part|
      ensures part[i].Chat? && part[i].ref < |s.stored| && part[i].msg == s.stored[part[i].ref].msg
    {
      assert part[i] in part;
    }
  }

  lemma StartAuthentic<C>(s: State<C>, c: C, now: int)
    requires Authentic(s) && c in s.hub.conns
    ensures Authentic(StartReplayStep(s, c, now)) && |StartReplayStep(s, c, now).replays[c].batch| <= Q.MAX_LEN
  {
    var t, mine := StartReplayStep(s, c, now), s.hub.conns[c].id;
    LiveIsPart(Q.Get(s.queue, mine), now, Q.TTL);
    assert Genuine(s, Mailbox(s, mine)) && AllChat(Mailbox(s, mine)) && |Mailbox(s, mine)| <= Q.MAX_LEN;
    PartIsGenuine(s, t.replays[c].rest, Mailbox(s, mine));
    forall x | x in t.hub.conns ensures Genuine(t, H.Sent(t.hub.conns[x])) {
      assert Genuine(s, H.Sent(s.hub.conns[x]));
    }
    forall id ensures Genuine(t, Mailbox(t, id)) && AllChat(Mailbox(t, id)) && |Mailbox(t, id)| <= Q.MAX_LEN {
      assert Genuine(s, Mailbox(s, id)) && AllChat(Mailbox(s, id));
      assert Mailbox(t, id) == if id == mine then [] else Mailbox(s, id);
    }
    forall x | x in t.replays ensures Genuine(t, t.replays[x].rest) && AllChat(t.replays[x].rest) {
      if x != c { assert Genuine(s, s.replays[x].rest); } else { assert Genuine(s, t.replays[c].rest); }
    }
  }

  lemma StartReplays<C>(s: State<C>, c: C, now: int)
    requires ReplaysOk(s) && Enabled(s, StartReplay(c, now))
    requires |StartReplayStep(s, c, now).replays[c].batch| <= Q.MAX_LEN
    ensures ReplaysOk(StartReplayStep(s, c, now))
  {
    var t := StartReplayStep(s, c, now);
    forall x | x in t.replays ensures x in t.hub.conns && ReplayOk(t.replays[x], t.hub.conns[x]) {
      if x != c { assert ReplayOk(s.replays[x], s.hub.conns[x]); }
    }
  }

  lemma StartKeepsInv<C>(s: State<C>, c: C, now: int)
    requires Inv(s) && Enabled(s, StartReplay(c, now))
    ensures Inv(StartReplayStep(s, c, now))
  {
    StartBasics(s, c, now);
    StartCounts(s, c, now);
    StartAuthentic(s, c, now);
    StartReplays(s, c, now);
  }

  lemma TimesHead(fs: seq<Frame>, r: nat)
    requires fs != []
    ensures Times(fs, r) == Indicator(fs[0].Chat? && fs[0].ref == r) + Times(fs[1..], r)
  {
    assert fs == [fs[0]] + fs[1..];
    TimesConcat([fs[0]], fs[1..], r);
    TimesOne(fs[0], r);
  }

  /** The next frame of a replay is a message that is being replayed by it. */
  lemma NextIsReplaying<C>(s: State<C>, c: C)
    requires Basics(s) && Counts(s) && Authentic(s) && Enabled(s, ReplayNext(c))
    ensures var f := s.replays[c].rest[0];
            && f.Chat? && f.ref < |s.stored| == |s.fates| && f.msg == s.stored[f.ref].msg
            && s.fates[f.ref] == Replaying(c) && Replayable(f)
  {
    var rest := s.replays[c].rest;
    assert Genuine(s, rest) && AllChat(rest);
    TimesAt(rest, 0);
    assert ReplayCount(s, c, rest[0].ref);
  }

  /** One replayed message moved from the rest of the batch into the channel. */
  ghost predicate Moved<C>(s: State<C>, t: State<C>, c: C, f: Frame, conn: H.Conn, p: Replay) {
    && c in s.hub.conns && c in s.replays && s.replays[c].rest == [f] + p.rest
    && f.Chat? && f.ref < |s.fates| && s.fates[f.ref] == Replaying(c)
    && t.stored == s.stored && t.routes == s.routes && t.queue == s.queue
    && t.hub.conns == s.hub.conns[c := conn] && t.replays == s.replays[c := p]
    && conn.kind == s.hub.conns[c].kind && conn.id == s.hub.conns[c].id
    && H.Sent(conn) == H.Sent(s.hub.conns[c]) + [f]
    && t.fates == s.fates[f.ref := Replayed(c)]
  }

  lemma PushedMoves<C>(s: State<C>, c: C)
    requires Basics(s) && Counts(s) && Authentic(s) && Enabled(s, ReplayNext(c)) && H.Accepts(s.hub.conns[c])
    ensures var t := ReplayNextStep(s, c);
            Moved(s, t, c, s.replays[c].rest[0], t.hub.conns[c], t.replays[c])
  {
    var t, f := ReplayNextStep(s, c), s.replays[c].rest[0];
    NextIsReplaying(s, c);
    PushSent(s.hub.conns[c], f);
    forall r: nat | r < |s.fates| ensures t.fates[r] == s.fates[f.ref := Replayed(c)][r] { TimesOne(f, r); }
  }

  lemma MovedBasics<C>(s: State<C>, t: State<C>, c: C, f: Frame, conn: H.Conn, p: Replay)
    requires Basics(s) && Moved(s, t, c, f, conn, p)
    ensures Basics(t)
  {
    forall r: nat | r < |s.fates| ensures FateOk(t, r) {
      assert FateOk(s, r);
      if r != f.ref { assert Holders(t, r) == Holders(s, r); }
    }
    forall r: nat | r < |t.stored| ensures Origin(t, r) { assert Origin(s, r); }
    forall r: nat | r in t.routes ensures RouteOk(t, r) { assert RouteOk(s, r); }
  }

  lemma MovedCounts<C>(s: State<C>, t: State<C>, c: C, f: Frame, conn: H.Conn, p: Replay)
    requires Counts(s) && Moved(s, t, c, f, conn, p)
    ensures Counts(t)
  {
    forall x, r: nat | x in t.hub.conns ensures SentCount(t, x, r) {
      assert SentCount(s, x, r);
      if x == c { TimesSnoc(H.Sent(s.hub.conns[c]), f, r); }
      if r < |s.fates| && r != f.ref { assert Holders(t, r) == Holders(s, r); }
    }
    forall id, r: nat ensures QueueCount(t, id, r) { assert QueueCount(s, id, r) && Mailbox(t, id) == Mailbox(s, id); }
    forall x, r: nat | x in t.replays ensures ReplayCount(t, x, r) {
      assert ReplayCount(s, x, r);
      if x == c { TimesHead(s.replays[c].rest, r); }
    }
  }

  lemma PushedReplay(p: Replay, conn: H.Conn)
    requires ReplayOk(p, conn) && p.rest != [] && H.Accepts(conn)
    ensures ReplayOk(p.(at := p.at + [|H.Sent(conn)|], rest := p.rest[1..]), H.Push(conn, p.rest[0]))
  {
    PushSent(conn, p.rest[0]);
    assert p.rest[0] == p.batch[|p.at|];
  }

  lemma PushedReplays<C>(s: State<C>, c: C)
    requires ReplaysOk(s) && Enabled(s, ReplayNext(c)) && H.Accepts(s.hub.conns[c]) && Replayable(s.replays[c].rest[0])
    ensures ReplaysOk(ReplayNextStep(s, c))
  {
    PushedReplay(s.replays[c], s.hub.conns[c]);
  }

  lemma PushedBasicsAndCounts<C>(s: State<C>, c: C)
    requires Basics(s) && Counts(s) && Authentic(s) && Enabled(s, ReplayNext(c)) && H.Accepts(s.hub.conns[c])
    ensures Basics(ReplayNextStep(s, c)) && Counts(ReplayNextStep(s, c))
  {
    var t, f := ReplayNextStep(s, c), s.replays[c].rest[0];
    PushedMoves(s, c);
    MovedBasics(s, t, c, f, t.hub.conns[c], t.replays[c]);
    MovedCounts(s, t, c, f, t.hub.conns[c], t.replays[c]);
  }

  lemma PushedAuthentic<C>(s: State<C>, c: C)
    requires Authentic(s) && Enabled(s, ReplayNext(c)) && H.Accepts(s.hub.conns[c])
    requires Replayable(s.replays[c].rest[0]) && Genuine(s, [s.replays[c].rest[0]])
    ensures Authentic(ReplayNextStep(s, c))
  {
    PushKeepsAuthentic(s, ReplayNextStep(s, c), c, s.replays[c].rest[0]);
  }

  lemma PushedKeepsInv<C>(s: State<C>, c: C)
    requires Inv(s) && Enabled(s, ReplayNext(c)) && H.Accepts(s.hub.conns[c])
    ensures Inv(ReplayNextStep(s, c))
  {
    NextIsReplaying(s, c);
    H.StepKeepsInv(s.hub, H.Send(c, s.replays[c].rest[0]));
    PushedBasicsAndCounts(s, c);
    PushedAuthentic(s, c);
    PushedReplays(s, c);
  }

  lemma DroppedFates<C>(s: State<C>, c: C, r: nat)
    requires Basics(s) && Counts(s) && c in s.replays && r < |s.fates|
    ensures Mark(s.fates, s.replays[c].rest, Dropped)[r] == if s.fates[r] == Replaying(c) then Dropped else s.fates[r]
  {
    assert ReplayCount(s, c, r);
  }

  lemma DroppedBasics<C>(s: State<C>, c: C)
    requires Basics(s) && Counts(s) && Authentic(s) && Enabled(s, ReplayNext(c)) && !H.Accepts(s.hub.conns[c])
    ensures Basics(ReplayNextStep(s, c))
    ensures forall r: nat :: r < |s.fates| ==> Holders(ReplayNextStep(s, c), r) == Holders(s, r)
  {
    var t := ReplayNextStep(s, c);
    NextIsReplaying(s, c);
    forall r: nat | r < |s.fates|
      ensures Holders(t, r) == Holders(s, r) && FateOk(t, r) && (t.fates[r].Routing? <==> s.fates[r].Routing?)
    {
      DroppedFates(s, c, r);
      assert FateOk(s, r);
    }
    forall r: nat | r < |t.stored| ensures Origin(t, r) { assert Origin(s, r); }
    forall r: nat | r in t.routes ensures RouteOk(t, r) { assert RouteOk(s, r); }
  }

  lemma DroppedCounts<C>(s: State<C>, c: C)
    requires Basics(s) && Counts(s) && Authentic(s) && Enabled(s, ReplayNext(c)) && !H.Accepts(s.hub.conns[c])
    ensures Counts(ReplayNextStep(s, c))
  {
    var t := ReplayNextStep(s, c);
    NextIsReplaying(s, c);
    DroppedBasics(s, c);
    forall x, r: nat | x in t.hub.conns ensures SentCount(t, x, r) { assert SentCount(s, x, r); }
    forall id, r: nat ensures QueueCount(t, id, r) {
      assert QueueCount(s, id, r);
      if r < |s.fates| { DroppedFates(s, c, r); }
    }
    forall x, r: nat | x in t.replays ensures ReplayCount(t, x, r) {
      assert ReplayCount(s, x, r);
      if r < |s.fates| { DroppedFates(s, c, r); }
    }
  }

  lemma DroppedAuthentic<C>(s: State<C>, c: C)
    requires Authentic(s) && Enabled(s, ReplayNext(c)) && !H.Accepts(s.hub.conns[c]) && Replayable(s.replays[c].rest[0])
    ensures Authentic(ReplayNextStep(s, c))
  {
    var t := ReplayNextStep(s, c);
    forall x | x in t.hub.conns ensures Genuine(t, H.Sent(t.hub.conns[x])) {
      assert Genuine(s, H.Sent(s.hub.conns[x]));
    }
    forall id ensures Genuine(t, Mailbox(t, id)) && AllChat(Mailbox(t, id)) && |Mailbox(t, id)| <= Q.MAX_LEN {
      assert Genuine(s, Mailbox(s, id));
    }
    forall x | x in t.replays ensures Genuine(t, t.replays[x].rest) { assert Genuine(s, s.replays[x].rest); }
  }

  lemma DroppedReplays<C>(s: State<C>, c: C)
    requires H.Inv(s.hub) && ReplaysOk(s) && Enabled(s, ReplayNext(c))
    requires !H.Accepts(s.hub.conns[c]) && Replayable(s.replays[c].rest[0])
    ensures ReplaysOk(ReplayNextStep(s, c))
  {
    assert ReplayOk(s.replays[c], s.hub.conns[c]);
    assert |s.replays[c].at| < |s.replays[c].batch|;
  }

  lemma DroppedKeepsInv<C>(s: State<C>, c: C)
    requires Inv(s) && Enabled(s, ReplayNext(c)) && !H.Accepts(s.hub.conns[c])
    ensures Inv(ReplayNextStep(s, c))
  {
    NextIsReplaying(s, c);
    DroppedBasics(s, c);
    DroppedCounts(s, c);
    DroppedAuthentic(s, c);
    DroppedReplays(s, c);
  }

  // ------------------------------------------------------------------------- runs

  lemma StepKeepsInv<C>(s: State<C>, e: Event<C>)
    requires Inv(s) && Enabled(s, e)
    ensures Inv(Step(s, e))
  {
    match e
    case HubEvent(he) =>
      HubEventOnlyNotices(s.hub, he);
      H.StepKeepsInv(s.hub, he);
      NoticesKeepInv(s, H.Step(s.hub, he));
    case Accept(c, json, lookup, stores) =>
      var v := Validate(s.hub.conns[c].kind, s.hub.conns[c].id, json, lookup, stores);
      if v.Accepted? {
        AcceptKeepsInv(s, c, json, lookup, stores);
      } else {
        var he := H.Send(c, Notice(v.error));
        HubEventOnlyNotices(s.hub, he);
        H.StepKeepsInv(s.hub, he);
        NoticesKeepInv(s, H.Step(s.hub, he));
      }
    case Snapshot(ref) => SnapshotKeepsInv(s, ref);
    case Deliver(ref) => DeliverKeepsInv(s, ref);
    case Finish(ref, now) => FinishKeepsInv(s, ref, now);
    case StartReplay(c, now) => StartKeepsInv(s, c, now);
    case ReplayNext(c) => if H.Accepts(s.hub.conns[c]) { PushedKeepsInv(s, c); } else { DroppedKeepsInv(s, c); }
  }

  lemma {:induction false} RunKeepsInv<C>(s: State<C>, es: seq<Event<C>>)
    requires Inv(s) && Run(s, es)
    ensures Inv(After(s, es))
    decreases |es|
  {
    if es != [] {
      StepKeepsInv(s, es[0]);
      RunKeepsInv(Step(s, es[0]), es[1..]);
    }
  }
}
