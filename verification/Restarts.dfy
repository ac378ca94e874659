/** From one server lifetime to the next: whatever queue a crash and a reload leave is one
    that the pipeline's promises start from. */
module Restarts {
  import opened Common
  import opened Frames
  import Q = OfflineQueue
  import D = DurableQueue
  import R = DurableRuns
  import P = Pipeline
  import H = HubModel

  type Letter = D.Letter<Frame>

  function Bodies(ls: seq<Letter>): seq<Frame> { seq(|ls|, i requires 0 <= i < |ls| => ls[i].content) }

  /** The queue without what only the claims about it need. */
  function Contents(q: Q.Buffers<Letter>): Q.Buffers<Frame> {
    map r | r in q :: seq(|q[r]|, i requires 0 <= i < |q[r]| => Q.Queued(q[r][i].data.content, q[r][i].queuedAt))
  }

  // --------------------------------------------------------------- rows were queued once

  lemma RowsStep(s: D.State<Frame>, e: D.Event<Frame>, r: string, all: multiset<Letter>)
    requires multiset(D.Of(s.table, r)) <= all
    ensures multiset(D.Of(D.Step(s, e).table, r)) <= all + multiset(R.PostedBy(e, r))
  {
    match e
    case Enqueue(to, x, at, stored, fails) =>
      D.OfSnoc(s.table, D.Row(to, D.Letter(x, at, !fails), stored / SECOND), r);
    case Drain(x, _, _) => D.OfWithout(s.table, x, r);
    case Clean(now, _) => R.SincePart(s.table, (now - Q.TTL) / SECOND, r);
    case Crash(_, _) =>
  }

  lemma {:induction false} RowsArePosted(s: D.State<Frame>, es: seq<D.Event<Frame>>, r: string, all: multiset<Letter>)
    requires multiset(D.Of(s.table, r)) <= all
    ensures multiset(D.Of(D.After(s, es).table, r)) <= all + multiset(R.Posted(es, r))
    decreases |es|
  {
    if es != [] {
      var more := multiset(R.PostedBy(es[0], r));
      RowsStep(s, es[0], r, all);
      RowsArePosted(D.Step(s, es[0]), es[1..], r, all + more);
      assert multiset(R.Posted(es, r)) == more + multiset(R.Posted(es[1..], r));
    }
  }

  lemma {:induction false} TimesWithout(ls: seq<Letter>, j: nat, ref: nat)
    requires j < |ls|
    ensures P.Times(Bodies(ls), ref) ==
            P.Times(Bodies(ls[..j] + ls[j + 1..]), ref) + P.Times(Bodies([ls[j]]), ref)
    decreases |ls|
  {
    var n := |ls| - 1;
    var rest := ls[..j] + ls[j + 1..];
    assert Bodies(ls)[..n] == Bodies(ls[..n]);
    if j == n {
      assert rest == ls[..n];
      assert Bodies([ls[j]])[..0] == [];
    } else {
      assert rest[..n - 1] == ls[..n][..j] + ls[..n][j + 1..];
      assert Bodies(rest)[..n - 1] == Bodies(rest[..n - 1]);
      TimesWithout(ls[..n], j, ref);
    }
  }

  lemma WithoutOne(b: seq<Letter>, x: Letter) returns (j: nat)
    requires x in multiset(b)
    ensures j < |b| && b[j] == x && multiset(b[..j] + b[j + 1..]) == multiset(b) - multiset{x}
  {
    j :| 0 <= j < |b| && b[j] == x;
    assert b == b[..j] + [b[j]] + b[j + 1..];
  }

  lemma {:induction false} TimesPart(a: seq<Letter>, b: seq<Letter>, ref: nat)
    requires multiset(a) <= multiset(b)
    ensures P.Times(Bodies(a), ref) <= P.Times(Bodies(b), ref)
    decreases |a|
  {
    if a != [] {
      var n := |a| - 1;
      assert a == a[..n] + [a[n]];
      var j := WithoutOne(b, a[n]);
      TimesPart(a[..n], b[..j] + b[j + 1..], ref);
      TimesWithout(b, j, ref);
      TimesWithout(a, n, ref);
      assert a[..n] + a[n + 1..] == a[..n];
    }
  }

  // --------------------------------------------------------------------- a new start

  /** What was queued for this recipient are messages stored for it, each queued once. */
  ghost predicate PostedOnce<C>(stored: seq<P.Stored<C>>, posted: seq<Letter>, id: string) {
    && (forall l :: l in posted ==>
          && l.content.Chat? && l.content.ref < |stored|
          && l.content.msg == stored[l.content.ref].msg && l.content.msg.recipient == id)
    && (forall ref: nat :: P.Times(Bodies(posted), ref) <= 1)
  }

  lemma PartReloads<C>(stored: seq<P.Stored<C>>, posted: seq<Letter>, id: string, mail: seq<Letter>)
    requires PostedOnce(stored, posted, id) && multiset(mail) <= multiset(posted) && |mail| <= Q.MAX_LEN
    ensures P.Reloaded(stored, id, Bodies(mail))
  {
    forall i | 0 <= i < |mail| ensures mail[i] in posted {
      assert mail[i] in multiset(mail);
      assert mail[i] in multiset(posted);
    }
    forall ref: nat ensures P.Times(Bodies(mail), ref) <= 1 { TimesPart(mail, posted, ref); }
  }

  lemma ContentsMail(q: Q.Buffers<Letter>, id: string)
    ensures P.FramesOf(Q.Get(Contents(q), id)) == Bodies(R.Letters(Q.Get(q, id)))
  {}

  lemma MailboxReloads<C>(stored: seq<P.Stored<C>>, s: D.State<Frame>, id: string, posted: seq<Letter>,
                          stamps: seq<int>, now: int)
    requires PostedOnce(stored, posted, id) && multiset(D.Of(s.table, id)) <= multiset(posted)
    ensures P.Reloaded(stored, id, P.FramesOf(Q.Get(Contents(D.Step(s, D.Crash(stamps, now)).queue), id)))
  {
    var q := D.Step(s, D.Crash(stamps, now)).queue;
    var mail := Q.Newest(D.Of(s.table, id), Q.MAX_LEN);
    R.ReloadIs(s.table, stamps, now, Q.MAX_LEN, id);
    R.NewestPart(D.Of(s.table, id), Q.MAX_LEN);
    PartReloads(stored, posted, id, mail);
    ContentsMail(q, id);
  }

  /** The server that a start brings up with this queue. */
  function Restarted<C>(stored: seq<P.Stored<C>>, queue: Q.Buffers<Frame>): P.State<C> {
    var s := P.State(H.Empty(), queue, stored, [], map[], map[]);
    s.(fates := seq(|stored|, r requires 0 <= r < |stored| =>
                      if P.Times(P.Mailbox(s, stored[r].msg.recipient), r) > 0 then P.Waiting else P.Settled))
  }

  /** After any run of the queue and its table, with any failures and crashes, in which each
      stored message was queued once at most, for its recipient: the queue that the next
      start loads is one from which conservation, authenticity and replay hold. */
  lemma ReloadCanStart<C>(stored: seq<P.Stored<C>>, start: int, es: seq<D.Event<Frame>>, stamps: seq<int>, now: int)
    requires forall r :: 0 <= r < |stored| ==> stored[r].sender == None && P.JoinsParticipants(stored[r])
    requires forall id :: PostedOnce(stored, R.Posted(es, id), id)
    ensures var q := D.Step(D.After(D.Start(start), es), D.Crash(stamps, now)).queue;
            P.Starting(Restarted(stored, Contents(q)))
  {
    var s := D.After(D.Start(start), es);
    var t := Restarted(stored, Contents(D.Step(s, D.Crash(stamps, now)).queue));
    forall id ensures P.Reloaded(stored, id, P.Mailbox(t, id)) {
      RowsArePosted(D.Start(start), es, id, multiset{});
      MailboxReloads(stored, s, id, R.Posted(es, id), stamps, now);
    }
    forall r: nat | r < |stored|
      ensures t.fates[r] == if P.Times(P.Mailbox(t, stored[r].msg.recipient), r) > 0 then P.Waiting else P.Settled
    {
      var u := P.State(H.Empty<C>(), t.queue, stored, [], map[], map[]);
      assert P.Mailbox(u, stored[r].msg.recipient) == P.Mailbox(t, stored[r].msg.recipient);
    }
  }
}
