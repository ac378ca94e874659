/** What every run of the queue and its table keeps (server/queue_persist.go): what a crash
    loses, what it brings back, and what is handed over how often. */
module DurableRuns {
  import opened Common
  import opened OfflineQueue
  import opened DurableQueue

  // ------------------------------------------------------------------ invariants

  function Letters<T>(buf: seq<Queued<Letter<T>>>): seq<Letter<T>> {
    seq(|buf|, i requires 0 <= i < |buf| => buf[i].data)
  }

  function Mailbox<T>(s: State<T>, r: string): seq<Letter<T>> { Letters(Get(s.queue, r)) }

  predicate Young<T>(l: Letter<T>, now: int) { now - l.first <= TTL }

  ghost predicate InOrder<T>(ls: seq<Letter<T>>, clock: int) {
    && (forall i, j :: 0 <= i < j < |ls| ==> ls[i].first <= ls[j].first)
    && (forall i :: 0 <= i < |ls| ==> ls[i].first <= clock)
  }

  /** The messages whose own insert worked. */
  function Saved<T>(ls: seq<Letter<T>>): seq<Letter<T>> {
    if ls == [] then []
    else
      var (front, last) := (Saved(ls[..|ls| - 1]), ls[|ls| - 1]);
      if last.saved then front + [last] else front
  }

  ghost predicate AllSaved<T>(ls: seq<Letter<T>>) { forall l :: l in ls ==> l.saved }

  /** From the first young message on, what was saved of memory is a suffix of the
      recipient's rows. */
  ghost predicate Backed<T>(mail: seq<Letter<T>>, rows: seq<Letter<T>>, now: int) {
    forall i :: 0 <= i < |mail| && Young(mail[i], now) ==> Suffix(Saved(mail[i..]), rows)
  }

  ghost predicate Inv<T>(s: State<T>, r: string) {
    && InOrder(Mailbox(s, r), s.clock) && InOrder(Of(s.table, r), s.clock)
    && |Mailbox(s, r)| <= MAX_LEN && AllSaved(Of(s.table, r))
    && Backed(Mailbox(s, r), Of(s.table, r), s.clock)
  }

  lemma {:induction false} SavedHas<T>(ls: seq<Letter<T>>)
    ensures |Saved(ls)| <= |ls|
    ensures forall l :: l in ls && l.saved ==> l in Saved(ls)
    ensures forall l :: l in Saved(ls) ==> l in ls && l.saved
  {
    if ls != [] {
      SavedHas(ls[..|ls| - 1]);
      assert ls == ls[..|ls| - 1] + [ls[|ls| - 1]];
    }
  }

  lemma SavedSnoc<T>(ls: seq<Letter<T>>, x: Letter<T>)
    ensures Saved(ls + [x]) == if x.saved then Saved(ls) + [x] else Saved(ls)
  {
    assert (ls + [x])[..|ls|] == ls;
  }

  lemma {:induction false} SavedAll<T>(ls: seq<Letter<T>>)
    requires AllSaved(ls)
    ensures Saved(ls) == ls
  {
    if ls != [] { SavedAll(ls[..|ls| - 1]); }
  }

  lemma InOrderSnoc<T>(ls: seq<Letter<T>>, x: Letter<T>, clock: int)
    ensures InOrder(ls + [x], clock) <==>
            InOrder(ls, clock) && x.first <= clock && forall l :: l in ls ==> l.first <= x.first
  {
    var all := ls + [x];
    if InOrder(all, clock) {
      assert forall i :: 0 <= i < |ls| ==> ls[i] == all[i];
      assert all[|ls|] == x;
    }
  }

  lemma {:induction false} SinceInOrder<T>(table: seq<Row<T>>, r: string, cutoff: int, clock: int)
    requires InOrder(Of(table, r), clock)
    ensures InOrder(Of(Since(table, cutoff), r), clock)
    ensures forall l :: l in Of(Since(table, cutoff), r) ==> l in Of(table, r)
    decreases |table|
  {
    if table != [] {
      var front, last := table[..|table| - 1], table[|table| - 1];
      OfSnoc(Since(front, cutoff), last, r);
      InOrderSnoc(Of(front, r), last.letter, clock);
      SinceInOrder(front, r, cutoff, clock);
      InOrderSnoc(Of(Since(front, cutoff), r), last.letter, clock);
    }
  }

  lemma {:induction false} SinceTimed<T>(table: seq<Row<T>>, cutoff: int)
    requires RowsTimed(table)
    ensures RowsTimed(Since(table, cutoff))
  {
    if table != [] { SinceTimed(table[..|table| - 1], cutoff); }
  }

  lemma EnqueuedMailbox<T>(q: Buffers<Letter<T>>, to: string, x: Letter<T>, now: int, max: nat, r: string)
    ensures Letters(Get(Enqueued(q, to, x, now, max), r)) ==
            if r == to then Newest(Letters(Get(q, r)) + [x], max) else Letters(Get(q, r))
  {}

  lemma NewestTwice<T>(s: seq<T>, x: T, max: nat)
    requires max >= 1
    ensures Newest(Newest(s, max) + [x], max) == Newest(s + [x], max)
  {}

  /** A reload leaves each recipient the newest rows, in order. */
  lemma {:induction false} ReloadIs<T>(table: seq<Row<T>>, stamps: seq<int>, now: int, max: nat, r: string)
    requires max >= 1
    ensures Letters(Get(Reloaded(map[], table, stamps, now, max), r)) == Newest(Of(table, r), max)
    decreases |table|
  {
    if table != [] {
      var front, last := table[..|table| - 1], table[|table| - 1];
      ReloadIs(front, stamps, now, max, r);
      EnqueuedMailbox(Reloaded(map[], front, stamps, now, max), last.recipient, last.letter,
                      StampAt(stamps, |front|, now), max, r);
      NewestTwice(Of(front, r), last.letter, max);
    }
  }

  // --------------------------------------------------------------- what steps keep

  lemma InOrderTail<T>(ls: seq<Letter<T>>, clock: int, later: int, n: nat)
    requires InOrder(ls, clock) && clock <= later
    ensures InOrder(Newest(ls, n), later)
  {}

  lemma YoungFromHereOn<T>(ls: seq<Letter<T>>, clock: int, now: int, i: nat)
    requires InOrder(ls, clock) && i < |ls| && Young(ls[i], now)
    ensures forall k :: i <= k < |ls| ==> Young(ls[k], now)
  {}

  lemma BackedLater<T>(mail: seq<Letter<T>>, rows: seq<Letter<T>>, now: int, later: int)
    requires Backed(mail, rows, now) && now <= later
    ensures Backed(mail, rows, later)
  {
    forall i | 0 <= i < |mail| && Young(mail[i], later) ensures Suffix(Saved(mail[i..]), rows) {
      assert Young(mail[i], now);
    }
  }

  lemma BackedSnoc<T>(mail: seq<Letter<T>>, rows: seq<Letter<T>>, x: Letter<T>, now: int)
    requires Backed(mail, rows, now)
    ensures Backed(mail + [x], if x.saved then rows + [x] else rows, now)
  {
    var more, rows' := mail + [x], if x.saved then rows + [x] else rows;
    forall i | 0 <= i < |more| && Young(more[i], now) ensures Suffix(Saved(more[i..]), rows') {
      var part := if i < |mail| then mail[i..] else [];
      assert more[i..] == part + [x];
      SavedSnoc(part, x);
      assert Suffix(Saved(part), rows);
      SuffixSnoc(Saved(part), rows, x);
    }
  }

  /** Trimming memory, or rebuilding it as the newest rows, keeps it backed. */
  lemma BackedNewest<T>(mail: seq<Letter<T>>, rows: seq<Letter<T>>, now: int, n: nat)
    requires Backed(mail, rows, now)
    ensures Backed(Newest(mail, n), rows, now)
  {
    var kept := Newest(mail, n);
    forall i | 0 <= i < |kept| && Young(kept[i], now) ensures Suffix(Saved(kept[i..]), rows) {
      var k := |mail| - |kept| + i;
      assert kept[i..] == mail[k..] && mail[k] == kept[i];
    }
  }

  lemma SuffixItself<T>(s: seq<T>, i: nat)
    requires i <= |s|
    ensures Suffix(s[i..], s)
  {}

  lemma AddNewer<T>(ls: seq<Letter<T>>, x: Letter<T>, clock: int, later: int)
    requires InOrder(ls, clock) && clock <= x.first <= later
    ensures InOrder(ls + [x], later)
  {
    InOrderTail(ls, clock, later, |ls|);
    InOrderSnoc(ls, x, later);
  }

  /** One more message behind mail and, if its insert worked, behind the rows. */
  lemma MineKeepsInv<T>(mail: seq<Letter<T>>, rows: seq<Letter<T>>, x: Letter<T>, clock: int, later: int)
    requires InOrder(mail, clock) && InOrder(rows, clock) && Backed(mail, rows, clock) && AllSaved(rows)
    requires clock <= x.first <= later
    ensures var rows' := if x.saved then rows + [x] else rows;
            && InOrder(Newest(mail + [x], MAX_LEN), later) && InOrder(rows', later) && AllSaved(rows')
            && Backed(Newest(mail + [x], MAX_LEN), rows', later)
  {
    var rows' := if x.saved then rows + [x] else rows;
    BackedLater(mail, rows, clock, later);
    AddNewer(mail, x, clock, later);
    AddNewer(rows, x, clock, later);
    InOrderTail(rows, clock, later, |rows|);
    BackedSnoc(mail, rows, x, later);
    BackedNewest(mail + [x], rows', later, MAX_LEN);
    InOrderTail(mail + [x], later, later, MAX_LEN);
  }

  /** Time alone changes nothing. */
  lemma LaterKeepsInv<T>(mail: seq<Letter<T>>, rows: seq<Letter<T>>, clock: int, later: int)
    requires InOrder(mail, clock) && InOrder(rows, clock) && Backed(mail, rows, clock) && clock <= later
    ensures InOrder(mail, later) && InOrder(rows, later) && Backed(mail, rows, later)
  {
    InOrderTail(mail, clock, later, |mail|);
    InOrderTail(rows, clock, later, |rows|);
    BackedLater(mail, rows, clock, later);
  }

  lemma EnqueueKeepsInv<T>(s: State<T>, e: Event<T>, r: string)
    requires Inv(s, r) && e.Enqueue? && Enabled(s, e)
    ensures Inv(Step(s, e), r)
  {
    var x, mail, rows := Letter(e.content, e.at, !e.insertFails), Mailbox(s, r), Of(s.table, r);
    OfSnoc(s.table, Row(e.recipient, x, e.stored / SECOND), r);
    EnqueuedMailbox(s.queue, e.recipient, x, e.at, MAX_LEN, r);
    if r == e.recipient {
      MineKeepsInv(mail, rows, x, s.clock, e.stored);
    } else {
      LaterKeepsInv(mail, rows, s.clock, e.stored);
    }
  }

  lemma SavedIsYoung<T>(mail: seq<Letter<T>>, clock: int, now: int, i: nat)
    requires InOrder(mail, clock) && i < |mail| && Young(mail[i], now)
    ensures Within(Saved(mail[i..]), now, TTL)
  {
    YoungFromHereOn(mail, clock, now, i);
    SavedHas(mail[i..]);
    forall k | 0 <= k < |Saved(mail[i..])| ensures now - Saved(mail[i..])[k].first <= TTL {
      assert Saved(mail[i..])[k] in mail[i..];
    }
  }

  lemma CleanKeepsInv<T>(s: State<T>, now: int, r: string)
    requires Inv(s, r) && RowsTimed(s.table) && s.clock <= now
    ensures Inv(Step(s, Clean(now, false)), r)
  {
    var mail, rows := Mailbox(s, r), Of(s.table, r);
    var cutoff := (now - TTL) / SECOND;
    InOrderTail(mail, s.clock, now, |mail|);
    InOrderTail(rows, s.clock, now, |rows|);
    SinceInOrder(s.table, r, cutoff, now);
    BackedLater(mail, rows, s.clock, now);
    forall i | 0 <= i < |mail| && Young(mail[i], now) ensures Suffix(Saved(mail[i..]), Of(Since(s.table, cutoff), r)) {
      SavedIsYoung(mail, s.clock, now, i);
      SinceKeepsYoung(s.table, r, now, TTL, Saved(mail[i..]));
    }
    assert Mailbox(Step(s, Clean(now, false)), r) == mail;
  }

  lemma RowsBackThemselves<T>(rows: seq<Letter<T>>, now: int)
    requires AllSaved(rows)
    ensures Backed(rows, rows, now)
  {
    forall i | 0 <= i < |rows| ensures Suffix(Saved(rows[i..]), rows) {
      SavedAll(rows[i..]);
      SuffixItself(rows, i);
    }
  }

  lemma CrashKeepsInv<T>(s: State<T>, stamps: seq<int>, now: int, r: string)
    requires Inv(s, r) && s.clock <= now
    ensures Inv(Step(s, Crash(stamps, now)), r)
  {
    var rows := Of(s.table, r);
    ReloadIs(s.table, stamps, now, MAX_LEN, r);
    InOrderTail(rows, s.clock, now, MAX_LEN);
    InOrderTail(rows, s.clock, now, |rows|);
    RowsBackThemselves(rows, now);
    BackedNewest(rows, rows, now, MAX_LEN);
  }

  lemma StepKeepsTimed<T>(s: State<T>, e: Event<T>)
    requires RowsTimed(s.table) && Enabled(s, e)
    ensures RowsTimed(Step(s, e).table)
  {
    match e
    case Clean(now, _) => SinceTimed(s.table, (now - TTL) / SECOND);
    case Drain(x, _, _) => WithoutTimed(s.table, x);
    case _ =>
  }

  lemma StepKeepsInv<T>(s: State<T>, e: Event<T>, r: string)
    requires Inv(s, r) && RowsTimed(s.table) && Enabled(s, e)
    ensures Inv(Step(s, e), r)
  {
    var mail, rows := Mailbox(s, r), Of(s.table, r);
    match e
    case Enqueue(_, _, _, _, _) => EnqueueKeepsInv(s, e, r);
    case Clean(now, fails) =>
      if fails {
        LaterKeepsInv(mail, rows, s.clock, now);
        assert Mailbox(Step(s, e), r) == mail;
      } else {
        CleanKeepsInv(s, now, r);
      }
    case Crash(stamps, now) => CrashKeepsInv(s, stamps, now, r);
    case Drain(x, now, _) =>
      OfWithout(s.table, x, r);
      LaterKeepsInv(mail, rows, s.clock, now);
      assert r != x ==> Mailbox(Step(s, e), r) == mail;
      assert r == x ==> Mailbox(Step(s, e), r) == [];
  }

  lemma {:induction false} RunKeepsInv<T>(s: State<T>, es: seq<Event<T>>, r: string)
    requires Inv(s, r) && RowsTimed(s.table) && Run(s, es)
    ensures Inv(After(s, es), r)
    decreases |es|
  {
    if es != [] {
      StepKeepsInv(s, es[0], r);
      StepKeepsTimed(s, es[0]);
      RunKeepsInv(Step(s, es[0]), es[1..], r);
    }
  }

  lemma SuffixOfNewest<T>(a: seq<T>, b: seq<T>, n: nat)
    requires Suffix(a, b) && |a| <= n
    ensures Suffix(a, Newest(b, n))
  {}

  lemma CrashKeepsYoung<T>(s: State<T>, r: string, i: nat, stamps: seq<int>, now: int)
    requires Inv(s, r) && s.clock <= now && i < |Mailbox(s, r)| && Young(Mailbox(s, r)[i], now)
    ensures var t, saved := Step(s, Crash(stamps, now)), Saved(Mailbox(s, r)[i..]);
            && Suffix(saved, Of(s.table, r)) && Suffix(saved, Mailbox(t, r))
            && AllSaved(Of(s.table, r)) && AllSaved(Mailbox(t, r))
            && (Mailbox(s, r)[i] in Mailbox(t, r) <==> Mailbox(s, r)[i].saved)
  {
    var t, mail := Step(s, Crash(stamps, now)), Mailbox(s, r);
    assert Young(mail[i], s.clock);
    ReloadIs(s.table, stamps, now, MAX_LEN, r);
    SavedHas(mail[i..]);
    SuffixOfNewest(Saved(mail[i..]), Of(s.table, r), MAX_LEN);
    assert mail[i] == mail[i..][0];
    InSuffix(mail[i], Saved(mail[i..]), Mailbox(t, r));
  }

  lemma InSuffix<T>(x: T, a: seq<T>, b: seq<T>)
    requires Suffix(a, b)
    ensures x in a ==> x in b
  {
    if x in a {
      var k :| 0 <= k < |a| && a[k] == x;
      assert b[|b| - |a| + k] == x;
    }
  }

  /** In every run, whatever fails: from any message in memory that is still within the TTL
      of its first queueing on, the messages whose own insert worked are a suffix of the
      recipient's rows, and a crash and reload at that point keeps all of them, in order.
      Rows hold saved messages only, so a young message survives exactly when its own
      insert worked. */
  lemma CrashKeepsTheSaved<T>(start: int, es: seq<Event<T>>, r: string, i: nat, stamps: seq<int>, now: int)
    requires Run(Start(start), es)
    requires var s := After(Start(start), es);
             s.clock <= now && i < |Mailbox(s, r)| && Young(Mailbox(s, r)[i], now)
    ensures var s := After(Start(start), es);
            var t, saved := Step(s, Crash(stamps, now)), Saved(Mailbox(s, r)[i..]);
            && Suffix(saved, Of(s.table, r)) && Suffix(saved, Mailbox(t, r))
            && AllSaved(Of(s.table, r)) && AllSaved(Mailbox(t, r))
            && (Mailbox(s, r)[i] in Mailbox(t, r) <==> Mailbox(s, r)[i].saved)
  {
    RunKeepsInv(Start<T>(start), es, r);
    CrashKeepsYoung(After(Start(start), es), r, i, stamps, now);
  }

  /** So if none of those inserts failed, a crash loses none of them. */
  lemma CrashLosesNothingYoung<T>(start: int, es: seq<Event<T>>, r: string, i: nat, stamps: seq<int>, now: int)
    requires Run(Start(start), es)
    requires var s := After(Start(start), es);
             && s.clock <= now && i < |Mailbox(s, r)| && Young(Mailbox(s, r)[i], now)
             && AllSaved(Mailbox(s, r)[i..])
    ensures var s := After(Start(start), es);
            && Suffix(Mailbox(s, r)[i..], Of(s.table, r))
            && Suffix(Mailbox(s, r)[i..], Mailbox(Step(s, Crash(stamps, now)), r))
  {
    CrashKeepsTheSaved(start, es, r, i, stamps, now);
    SavedAll(Mailbox(After(Start(start), es), r)[i..]);
  }

  /** What a crash leaves of a message just queued is its row. */
  lemma CrashKeepsInserted<T>(s: State<T>, r: string, x: T, at: int, stored: int, fails: bool, stamps: seq<int>,
                              now: int)
    ensures var t := Step(Step(s, Enqueue(r, x, at, stored, fails)), Crash(stamps, now));
            Mailbox(t, r) == Newest(Of(s.table, r) + (if fails then [] else [Letter(x, at, true)]), MAX_LEN)
  {
    var t := Step(s, Enqueue(r, x, at, stored, fails));
    OfSnoc(s.table, Row(r, Letter(x, at, !fails), stored / SECOND), r);
    ReloadIs(t.table, stamps, now, MAX_LEN, r);
    assert Of(s.table, r) + [] == Of(s.table, r);
  }

  // --------------------------------------------------------- what a crash brings back

  /** The rows that are still there after a drain. */
  predicate DrainLeavesRows<T>(s: State<T>, r: string, now: int, fails: bool) {
    fails || Live(Get(s.queue, r), now, TTL) == []
  }

  /** After a drain, a cleanup and a crash: the recipient's rows that the cleanup kept, if
      the drain left any, and otherwise nothing. */
  lemma BackAfterDrain<T>(s: State<T>, r: string, now: int, fails: bool, clean: Event<T>, stamps: seq<int>, later: int)
    requires clean.Clean?
    ensures var t := Step(Step(Step(s, Drain(r, now, fails)), clean), Crash(stamps, later));
            Mailbox(t, r) == if DrainLeavesRows(s, r, now, fails)
                             then Newest(Of(Kept(s.table, clean.now, clean.fails), r), MAX_LEN) else []
  {
    var u := Step(Step(s, Drain(r, now, fails)), clean);
    ReloadIs(u.table, stamps, later, MAX_LEN, r);
    OfWithout(s.table, r, r);
    OfNone(WithoutRecipient(s.table, r), r);
    SinceOfNone(WithoutRecipient(s.table, r), (clean.now - TTL) / SECOND, r);
  }

  lemma {:induction false} SinceOfNone<T>(table: seq<Row<T>>, cutoff: int, r: string)
    ensures Of(Since(table, cutoff), r) == [] <==>
            forall i :: 0 <= i < |table| && table[i].recipient == r ==> table[i].seconds < cutoff
  {
    if table != [] {
      var n := |table| - 1;
      var front, last := table[..n], table[n];
      SinceOfNone(front, cutoff, r);
      if last.seconds >= cutoff { OfSnoc(Since(front, cutoff), last, r); }
      if Of(Since(table, cutoff), r) == [] {
        forall i | 0 <= i < |table| && table[i].recipient == r ensures table[i].seconds < cutoff {
          if i < n { assert front[i] == table[i]; }
        }
      } else if last.recipient != r || last.seconds < cutoff {
        var i :| 0 <= i < n && front[i].recipient == r && front[i].seconds >= cutoff;
        assert table[i] == front[i];
      }
    }
  }

  lemma {:induction false} OfNone<T>(table: seq<Row<T>>, r: string)
    ensures Of(table, r) == [] <==> forall i :: 0 <= i < |table| ==> table[i].recipient != r
  {
    if table != [] {
      var n := |table| - 1;
      OfNone(table[..n], r);
      assert forall i :: 0 <= i < n ==> table[..n][i] == table[i];
    }
  }

  /** A drained message is gone for good if and only if the drain found something to hand
      over and its delete worked, or the recipient had no row; a cleanup before the crash
      mends it exactly when all the recipient's rows are of seconds before its cutoff. */
  lemma DrainedIsGoneIff<T>(s: State<T>, r: string, now: int, fails: bool, clean: int, stamps: seq<int>, later: int)
    ensures var d := Step(s, Drain(r, now, fails));
            && (Mailbox(Step(d, Crash(stamps, later)), r) == [] <==>
                  !DrainLeavesRows(s, r, now, fails) || forall i :: 0 <= i < |s.table| ==> s.table[i].recipient != r)
            && (Mailbox(Step(Step(d, Clean(clean, false)), Crash(stamps, later)), r) == [] <==>
                  !DrainLeavesRows(s, r, now, fails) ||
                  forall i :: 0 <= i < |s.table| && s.table[i].recipient == r ==>
                                s.table[i].seconds < (clean - TTL) / SECOND)
  {
    var d, cutoff := Step(s, Drain(r, now, fails)), (clean - TTL) / SECOND;
    ReloadIs(d.table, stamps, later, MAX_LEN, r);
    OfWithout(s.table, r, r);
    OfNone(s.table, r);
    SinceOfNone(s.table, cutoff, r);
    BackAfterDrain(s, r, now, fails, Clean(clean, false), stamps, later);
  }

  /** A message is back after a drain and a crash, expired or not, if and only if the drain
      left the rows and its row is among the newest. */
  lemma ExpiredComeBackIff<T>(s: State<T>, r: string, now: int, fails: bool, stamps: seq<int>, later: int, l: Letter<T>)
    ensures var back := Mailbox(Step(Step(s, Drain(r, now, fails)), Crash(stamps, later)), r);
            && back == (if DrainLeavesRows(s, r, now, fails) then Newest(Of(s.table, r), MAX_LEN) else [])
            && (l in back <==> DrainLeavesRows(s, r, now, fails) && l in Newest(Of(s.table, r), MAX_LEN))
  {
    BackAfterDrain(s, r, now, fails, Clean(now, true), stamps, later);
    assert Step(Step(s, Drain(r, now, fails)), Clean(now, true)).table == Step(s, Drain(r, now, fails)).table;
  }

  lemma AfterThree<T>(s: State<T>, a: Event<T>, b: Event<T>, c: Event<T>)
    ensures After(s, [a, b, c]) == Step(Step(Step(s, a), b), c)
    ensures Run(s, [a, b, c]) <==> Enabled(s, a) && Enabled(Step(s, a), b) && Enabled(Step(Step(s, a), b), c)
  {
    assert [a, b, c][1..] == [b, c] && [b, c][1..] == [c] && [c][1..] == [];
    var (t, u) := (Step(s, a), Step(Step(s, a), b));
    assert After(u, [c]) == Step(u, c) && After(t, [b, c]) == After(u, [c]);
    assert Run(u, [c]) <==> Enabled(u, c);
    assert Run(t, [b, c]) <==> Enabled(t, b) && Run(u, [c]);
  }

  /** And it happens: queued, found expired by a drain, back after the next start. */
  lemma ExpiredComeBack<T>(r: string, x: T)
    ensures var es := [Enqueue(r, x, 0, 0, false), Drain(r, TTL + 1, false), Crash([], TTL + 1)];
            && Run(Start(0), es)
            && Live(Get(Step(Start(0), es[0]).queue, r), TTL + 1, TTL) == []
            && Mailbox(After(Start(0), es), r) == [Letter(x, 0, true)]
  {
    var a, b, c := Enqueue(r, x, 0, 0, false), Drain(r, TTL + 1, false), Crash([], TTL + 1);
    var s: State<T> := Start(0);
    AfterThree(s, a, b, c);
    var t := Step(s, a);
    OfSnoc([], Row(r, Letter(x, 0, true), 0), r);
    assert Get(t.queue, r) == [Queued(Letter(x, 0, true), 0)];
    ReloadIs(t.table, [], TTL + 1, MAX_LEN, r);
  }

  // -------------------------------------------------------------- handed over how often

  function HandedBy<T>(s: State<T>, e: Event<T>, r: string): seq<Letter<T>> {
    if e.Drain? && e.recipient == r then Live(Get(s.queue, r), e.now, TTL) else []
  }

  function PostedBy<T>(e: Event<T>, r: string): seq<Letter<T>> {
    if e.Enqueue? && e.recipient == r then [Letter(e.content, e.at, !e.insertFails)] else []
  }

  /** What the recipient's drains handed over along the run. */
  function Handed<T>(s: State<T>, es: seq<Event<T>>, r: string): seq<Letter<T>>
    decreases |es|
  {
    if es == [] then [] else HandedBy(s, es[0], r) + Handed(Step(s, es[0]), es[1..], r)
  }

  /** What was queued for the recipient along the run. */
  function Posted<T>(es: seq<Event<T>>, r: string): seq<Letter<T>> {
    if es == [] then [] else PostedBy(es[0], r) + Posted(es[1..], r)
  }

  predicate Deletes<T>(e: Event<T>, r: string) { e.Drain? && e.recipient == r ==> !e.deleteFails }

  /** Memory and rows hold no message more often than this. */
  ghost predicate HoldsAtMost<T>(s: State<T>, r: string, all: multiset<Letter<T>>) {
    multiset(Mailbox(s, r)) <= all && multiset(Of(s.table, r)) <= all
  }

  lemma NewestPart<T>(s: seq<T>, max: nat)
    ensures multiset(Newest(s, max)) <= multiset(s)
  {
    if |s| > max { assert s == s[..|s| - max] + s[|s| - max..]; }
  }

  lemma {:induction false} LivePart<T>(buf: seq<Queued<Letter<T>>>, now: int)
    ensures multiset(Live(buf, now, TTL)) <= multiset(Letters(buf))
  {
    if buf != [] {
      var n := |buf| - 1;
      LivePart(buf[..n], now);
      assert Letters(buf) == Letters(buf[..n]) + [buf[n].data];
    }
  }

  lemma {:induction false} SincePart<T>(table: seq<Row<T>>, cutoff: int, r: string)
    ensures multiset(Of(Since(table, cutoff), r)) <= multiset(Of(table, r))
  {
    if table != [] {
      var front, last := table[..|table| - 1], table[|table| - 1];
      SincePart(front, cutoff, r);
      OfSnoc(Since(front, cutoff), last, r);
    }
  }

  lemma EnqueueHolds<T>(s: State<T>, e: Event<T>, r: string, all: multiset<Letter<T>>)
    requires HoldsAtMost(s, r, all) && e.Enqueue?
    ensures HoldsAtMost(Step(s, e), r, all + multiset(PostedBy(e, r)))
  {
    var x := Letter(e.content, e.at, !e.insertFails);
    OfSnoc(s.table, Row(e.recipient, x, e.stored / SECOND), r);
    EnqueuedMailbox(s.queue, e.recipient, x, e.at, MAX_LEN, r);
    NewestPart(Mailbox(s, r) + [x], MAX_LEN);
  }

  lemma DrainHolds<T>(s: State<T>, e: Event<T>, r: string, all: multiset<Letter<T>>)
    requires HoldsAtMost(s, r, all) && e.Drain? && Deletes(e, r)
    ensures multiset(HandedBy(s, e, r)) <= all
    ensures HoldsAtMost(Step(s, e), r, all - multiset(HandedBy(s, e, r)))
  {
    OfWithout(s.table, e.recipient, r);
    if e.recipient == r {
      LivePart(Get(s.queue, r), e.now);
      assert Mailbox(Step(s, e), r) == [];
    } else {
      assert Mailbox(Step(s, e), r) == Mailbox(s, r);
    }
  }

  lemma CleanHolds<T>(s: State<T>, e: Event<T>, r: string, all: multiset<Letter<T>>)
    requires HoldsAtMost(s, r, all) && e.Clean?
    ensures HoldsAtMost(Step(s, e), r, all)
  {
    SincePart(s.table, (e.now - TTL) / SECOND, r);
    assert Mailbox(Step(s, e), r) == Mailbox(s, r);
  }

  lemma CrashHolds<T>(s: State<T>, e: Event<T>, r: string, all: multiset<Letter<T>>)
    requires HoldsAtMost(s, r, all) && e.Crash?
    ensures HoldsAtMost(Step(s, e), r, all)
  {
    ReloadIs(s.table, e.stamps, e.now, MAX_LEN, r);
    NewestPart(Of(s.table, r), MAX_LEN);
  }

  lemma StepHolds<T>(s: State<T>, e: Event<T>, r: string, all: multiset<Letter<T>>)
    requires HoldsAtMost(s, r, all) && Deletes(e, r)
    ensures multiset(HandedBy(s, e, r)) <= all
    ensures HoldsAtMost(Step(s, e), r, all - multiset(HandedBy(s, e, r)) + multiset(PostedBy(e, r)))
  {
    match e
    case Enqueue(_, _, _, _, _) => EnqueueHolds(s, e, r, all);
    case Drain(_, _, _) => DrainHolds(s, e, r, all);
    case Clean(_, _) => CleanHolds(s, e, r, all);
    case Crash(_, _) => CrashHolds(s, e, r, all);
  }

  lemma {:induction false} RunHandsOver<T>(s: State<T>, es: seq<Event<T>>, r: string, all: multiset<Letter<T>>)
    requires HoldsAtMost(s, r, all) && forall i :: 0 <= i < |es| ==> Deletes(es[i], r)
    ensures multiset(Handed(s, es, r)) <= all + multiset(Posted(es, r))
    decreases |es|
  {
    if es != [] {
      StepHolds(s, es[0], r, all);
      var (out, more) := (multiset(HandedBy(s, es[0], r)), multiset(PostedBy(es[0], r)));
      RunHandsOver(Step(s, es[0]), es[1..], r, all - out + more);
      var (rest, later) := (multiset(Handed(Step(s, es[0]), es[1..], r)), multiset(Posted(es[1..], r)));
      assert multiset(Handed(s, es, r)) == out + rest && multiset(Posted(es, r)) == more + later;
      AddsUp(all, out, more, rest, later);
    }
  }

  lemma AddsUp<T>(all: multiset<T>, out: multiset<T>, more: multiset<T>, rest: multiset<T>, later: multiset<T>)
    requires out <= all && rest <= all - out + more + later
    ensures out + rest <= all + (more + later)
  {}

  /** Through any crashes, if the recipient's deletes work, no message is handed over more
      often than it was queued. */
  lemma HandedAtMostOnce<T>(start: int, es: seq<Event<T>>, r: string)
    requires forall i :: 0 <= i < |es| ==> Deletes(es[i], r)
    ensures multiset(Handed(Start(start), es, r)) <= multiset(Posted(es, r))
  {
    RunHandsOver(Start(start), es, r, multiset{});
  }

  /** A message that a drain hands over is there again after a crash if and only if its
      delete failed and its row is among the newest. */
  lemma HandedAgainIff<T>(s: State<T>, r: string, now: int, fails: bool, stamps: seq<int>, later: int, l: Letter<T>)
    requires l in Live(Get(s.queue, r), now, TTL)
    ensures l in Mailbox(Step(Step(s, Drain(r, now, fails)), Crash(stamps, later)), r) <==>
            fails && l in Newest(Of(s.table, r), MAX_LEN)
  {
    ExpiredComeBackIff(s, r, now, fails, stamps, later, l);
  }

  /** And it happens: a delete fails, the server crashes, and the message is handed over
      again. */
  lemma HandedTwice<T>(r: string, x: T)
    ensures var es := [Enqueue(r, x, 0, 0, false), Drain(r, 0, true), Crash([], 0), Drain(r, 0, false)];
            Run(Start(0), es) && Handed(Start(0), es, r) == [Letter(x, 0, true), Letter(x, 0, true)]
  {
    var a, b, c, d := Enqueue(r, x, 0, 0, false), Drain(r, 0, true), Crash([], 0), Drain(r, 0, false);
    var l, s: State<T> := Letter(x, 0, true), Start(0);
    var table := [Row(r, l, 0)];
    assert table[..0] == [];
    var s1, s2 := State(map[r := [Queued(l, 0)]], table, 0), State(map[], table, 0);
    assert Step(s, a) == s1 by {
      assert Newest(Get(s.queue, r) + [Queued(l, 0)], MAX_LEN) == [Queued(l, 0)];
      assert s.queue[r := [Queued(l, 0)]] == s1.queue;
      assert s.table + [Row(r, l, 0)] == table;
    }
    assert [Queued(l, 0)][..0] == [] && Live(Get(s1.queue, r), 0, TTL) == [l];
    assert Step(s1, b) == s2;
    assert Reloaded(map[], table[..0], [], 0, MAX_LEN) == map[];
    assert Step(s2, c) == s1;
    assert Handed(s1, [d], r) == [l] && Run(s1, [d]) by { assert [d][1..] == []; }
    assert Handed(s2, [c, d], r) == [l] && Run(s2, [c, d]) by { assert [c, d][1..] == [d]; }
    assert Handed(s1, [b, c, d], r) == [l, l] && Run(s1, [b, c, d]) by { assert [b, c, d][1..] == [c, d]; }
    assert [a, b, c, d][1..] == [b, c, d];
  }
}
