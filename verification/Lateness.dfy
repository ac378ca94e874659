/** How long after it was first queued a message can be delivered (server/queue_persist.go):
    the TTL is counted from a stamp that a reload renews. */
module Lateness {
  import opened Common
  import opened OfflineQueue
  import opened DurableQueue
  import opened DurableRuns

  // ----------------------------------------------------------------- late if restamped

  /** No stamp is before its message was first queued, and no message is from the future. */
  ghost predicate BuffersStamped<T>(q: Buffers<Letter<T>>) {
    forall r, i :: r in q && 0 <= i < |q[r]| ==> q[r][i].data.first <= q[r][i].queuedAt
  }

  ghost predicate Stamped<T>(s: State<T>) {
    && BuffersStamped(s.queue)
    && (forall i :: 0 <= i < |s.table| ==> s.table[i].letter.first <= s.clock)
  }

  lemma {:induction false} ReloadStamps<T>(table: seq<Row<T>>, stamps: seq<int>, now: int, max: nat, clock: int)
    requires forall i :: 0 <= i < |table| ==> table[i].letter.first <= clock
    requires clock <= now && forall i :: 0 <= i < |stamps| ==> clock <= stamps[i]
    ensures BuffersStamped(Reloaded(map[], table, stamps, now, max))
    decreases |table|
  {
    if table != [] {
      var n := |table| - 1;
      ReloadStamps(table[..n], stamps, now, max, clock);
      var q := Reloaded(map[], table[..n], stamps, now, max);
      EnqueuedStamped(q, table[n].recipient, table[n].letter, StampAt(stamps, n, now), max);
    }
  }

  lemma EnqueuedStamped<T>(q: Buffers<Letter<T>>, r: string, l: Letter<T>, at: int, max: nat)
    requires BuffersStamped(q) && l.first <= at
    ensures BuffersStamped(Enqueued(q, r, l, at, max))
  {}

  lemma {:induction false} SinceBound<T>(table: seq<Row<T>>, cutoff: int, clock: int)
    requires forall i :: 0 <= i < |table| ==> table[i].letter.first <= clock
    ensures forall i :: 0 <= i < |Since(table, cutoff)| ==> Since(table, cutoff)[i].letter.first <= clock
  {
    if table != [] { SinceBound(table[..|table| - 1], cutoff, clock); }
  }

  lemma {:induction false} WithoutBound<T>(table: seq<Row<T>>, r: string, clock: int)
    requires forall i :: 0 <= i < |table| ==> table[i].letter.first <= clock
    ensures forall i :: 0 <= i < |WithoutRecipient(table, r)| ==> WithoutRecipient(table, r)[i].letter.first <= clock
  {
    if table != [] { WithoutBound(table[..|table| - 1], r, clock); }
  }

  lemma StepKeepsStamped<T>(s: State<T>, e: Event<T>)
    requires Stamped(s) && Enabled(s, e)
    ensures Stamped(Step(s, e))
  {
    match e
    case Enqueue(r, x, at, _, fails) => EnqueuedStamped(s.queue, r, Letter(x, at, !fails), at, MAX_LEN);
    case Drain(r, now, _) => WithoutBound(s.table, r, s.clock);
    case Clean(now, _) => SinceBound(s.table, (now - TTL) / SECOND, s.clock);
    case Crash(stamps, now) => ReloadStamps(s.table, stamps, now, MAX_LEN, s.clock);
  }

  lemma {:induction false} RunKeepsStamped<T>(s: State<T>, es: seq<Event<T>>)
    requires Stamped(s) && Run(s, es)
    ensures Stamped(After(s, es))
    decreases |es|
  {
    if es != [] {
      StepKeepsStamped(s, es[0]);
      RunKeepsStamped(Step(s, es[0]), es[1..]);
    }
  }

  /** In every run: a message in memory can still be handed over after its own TTL if and
      only if its copy has not expired and carries another stamp than that of its first
      queueing. */
  lemma LateIff<T>(start: int, es: seq<Event<T>>, r: string, i: nat)
    requires Run(Start(start), es) && i < |Get(After(Start<T>(start), es).queue, r)|
    ensures var s := After(Start(start), es);
            var m := Get(s.queue, r)[i];
            (exists now :: s.clock <= now && Fresh(m, now, TTL) && !Young(m.data, now))
            <==> Fresh(m, s.clock, TTL) && m.queuedAt != m.data.first
  {
    RunKeepsStamped(Start<T>(start), es);
    var s := After(Start(start), es);
    var m := Get(s.queue, r)[i];
    if Fresh(m, s.clock, TTL) && m.queuedAt != m.data.first {
      assert Fresh(m, m.queuedAt + TTL, TTL) && !Young(m.data, m.queuedAt + TTL);
    }
  }

  ghost predicate FirstStamps<T>(q: Buffers<Letter<T>>) {
    forall r, i :: r in q && 0 <= i < |q[r]| ==> q[r][i].queuedAt == q[r][i].data.first
  }

  lemma {:induction false} NoCrashNoRestamp<T>(s: State<T>, es: seq<Event<T>>)
    requires FirstStamps(s.queue) && forall i :: 0 <= i < |es| ==> !es[i].Crash?
    ensures FirstStamps(After(s, es).queue)
    decreases |es|
  {
    if es != [] { NoCrashNoRestamp(Step(s, es[0]), es[1..]); }
  }

  /** Only a reload renews a stamp, so a server that has not been restarted hands nothing
      over after the TTL. */
  lemma DeliveredInTime<T>(start: int, es: seq<Event<T>>, r: string, now: int, l: Letter<T>)
    requires forall i :: 0 <= i < |es| ==> !es[i].Crash?
    requires l in Live(Get(After(Start(start), es).queue, r), now, TTL)
    ensures now - l.first <= TTL
  {
    NoCrashNoRestamp(Start<T>(start), es);
    var i := LiveIsFresh(Get(After(Start(start), es).queue, r), now, TTL, l);
  }

  // -------------------------------------------------------- how late a delivery can be

  /** Cleanups that work come often enough: when a reload is over, the last one, or the
      start, is at most `period` ago. The time the server was down counts. */
  predicate Tended<T>(cleaned: int, es: seq<Event<T>>, period: int)
    decreases |es|
  {
    es == [] ||
    match es[0]
    case Clean(now, false) => Tended(now, es[1..], period)
    case Crash(_, now) => now <= cleaned + period && Tended(cleaned, es[1..], period)
    case _ => Tended(cleaned, es[1..], period)
  }

  /** Between the two clock readings of an enqueue lies at most `delay`. */
  predicate Prompt<T>(e: Event<T>, delay: int) { e.Enqueue? ==> e.stored <= e.at + delay }

  ghost predicate RowAged<T>(row: Row<T>, cleaned: int, delay: int) {
    && row.seconds <= (row.letter.first + delay) / SECOND
    && row.letter.first > cleaned - TTL - SECOND - delay
  }

  ghost predicate RowsAged<T>(table: seq<Row<T>>, cleaned: int, delay: int) {
    forall i :: 0 <= i < |table| ==> RowAged(table[i], cleaned, delay)
  }

  ghost predicate StampsAged<T>(q: Buffers<Letter<T>>, lag: int) {
    forall r, i :: r in q && 0 <= i < |q[r]| ==> q[r][i].queuedAt - q[r][i].data.first < lag
  }

  lemma EnqueuedAged<T>(q: Buffers<Letter<T>>, r: string, l: Letter<T>, at: int, max: nat, lag: int)
    requires StampsAged(q, lag) && at - l.first < lag
    ensures StampsAged(Enqueued(q, r, l, at, max), lag)
  {}

  lemma {:induction false} ReloadedAged<T>(table: seq<Row<T>>, stamps: seq<int>, now: int, max: nat, cleaned: int,
                                           delay: int, lag: int)
    requires RowsAged(table, cleaned, delay) && now - cleaned + TTL + SECOND + delay <= lag
    requires forall i :: 0 <= i < |stamps| ==> stamps[i] <= now
    ensures StampsAged(Reloaded(map[], table, stamps, now, max), lag)
    decreases |table|
  {
    if table != [] {
      var n := |table| - 1;
      ReloadedAged(table[..n], stamps, now, max, cleaned, delay, lag);
      assert RowAged(table[n], cleaned, delay);
      EnqueuedAged(Reloaded(map[], table[..n], stamps, now, max), table[n].recipient, table[n].letter,
                   StampAt(stamps, n, now), max, lag);
    }
  }

  lemma {:induction false} SinceAged<T>(table: seq<Row<T>>, cleaned: int, now: int, delay: int)
    requires RowsAged(table, cleaned, delay)
    ensures RowsAged(Since(table, (now - TTL) / SECOND), now, delay)
  {
    if table != [] {
      SinceAged(table[..|table| - 1], cleaned, now, delay);
      assert RowAged(table[|table| - 1], cleaned, delay);
    }
  }

  lemma {:induction false} WithoutAged<T>(table: seq<Row<T>>, r: string, cleaned: int, delay: int)
    requires RowsAged(table, cleaned, delay)
    ensures RowsAged(WithoutRecipient(table, r), cleaned, delay)
  {
    if table != [] {
      WithoutAged(table[..|table| - 1], r, cleaned, delay);
      assert RowAged(table[|table| - 1], cleaned, delay);
    }
  }

  function Lag(period: int, delay: int): int { period + TTL + SECOND + delay }

  lemma EnqueueAged<T>(s: State<T>, e: Event<T>, cleaned: int, period: int, delay: int)
    requires e.Enqueue? && Enabled(s, e) && Prompt(e, delay) && cleaned <= s.clock && period >= 0 && delay >= 0
    requires RowsAged(s.table, cleaned, delay) && StampsAged(s.queue, Lag(period, delay))
    ensures RowsAged(Step(s, e).table, cleaned, delay) && StampsAged(Step(s, e).queue, Lag(period, delay))
  {
    EnqueuedAged(s.queue, e.recipient, Letter(e.content, e.at, !e.insertFails), e.at, MAX_LEN, Lag(period, delay));
    assert RowAged(Row(e.recipient, Letter(e.content, e.at, !e.insertFails), e.stored / SECOND), cleaned, delay);
  }

  lemma {:induction false} RunAged<T>(s: State<T>, es: seq<Event<T>>, cleaned: int, period: int, delay: int)
    requires Run(s, es) && Tended(cleaned, es, period) && cleaned <= s.clock && period >= 0 && delay >= 0
    requires forall i :: 0 <= i < |es| ==> Prompt(es[i], delay)
    requires RowsAged(s.table, cleaned, delay) && StampsAged(s.queue, Lag(period, delay))
    ensures StampsAged(After(s, es).queue, Lag(period, delay))
    decreases |es|
  {
    if es != [] {
      var t := Step(s, es[0]);
      var last := if es[0].Clean? && !es[0].fails then es[0].now else cleaned;
      match es[0] {
        case Enqueue(_, _, _, _, _) => EnqueueAged(s, es[0], cleaned, period, delay);
        case Drain(r, _, _) => WithoutAged(s.table, r, cleaned, delay);
        case Clean(now, _) => SinceAged(s.table, cleaned, now, delay);
        case Crash(stamps, now) => ReloadedAged(s.table, stamps, now, MAX_LEN, cleaned, delay, Lag(period, delay));
      }
      RunAged(t, es[1..], last, period, delay);
    }
  }

  lemma {:induction false} LiveIsFresh<T>(buf: seq<Queued<T>>, now: int, ttl: int, x: T) returns (i: nat)
    requires x in Live(buf, now, ttl)
    ensures i < |buf| && buf[i].data == x && Fresh(buf[i], now, ttl)
  {
    var n := |buf| - 1;
    if Fresh(buf[n], now, ttl) && buf[n].data == x {
      i := n;
    } else {
      i := LiveIsFresh(buf[..n], now, ttl, x);
    }
  }

  /** Reloading stamps messages afresh, so the TTL does not bound a message's age. In every
      run with a cleanup at most `period` before the end of each reload this does: twice
      the TTL, the period, the delay of an insert and a second. */
  lemma DeliveredWithin<T>(start: int, es: seq<Event<T>>, period: int, delay: int, r: string, now: int, l: Letter<T>)
    requires Run(Start(start), es) && Tended(start, es, period) && period >= 0 && delay >= 0
    requires forall i :: 0 <= i < |es| ==> Prompt(es[i], delay)
    requires l in Live(Get(After(Start(start), es).queue, r), now, TTL)
    ensures now - l.first < 2 * TTL + period + delay + SECOND
  {
    RunAged(Start<T>(start), es, start, period, delay);
    var i := LiveIsFresh(Get(After(Start(start), es).queue, r), now, TTL, l);
  }

  /** Without cleanups nothing does: any time after it was queued, a message is delivered
      by a server that has just started. */
  lemma DeliveredHoweverLate<T>(r: string, x: T, now: int)
    requires now >= 0
    ensures var es := [Enqueue(r, x, 0, 0, false), Crash([], now), Clean(now, true)];
            Run(Start(0), es) && Live(Get(After(Start(0), es).queue, r), now, TTL) == [Letter(x, 0, true)]
  {
    var a, b, c := Enqueue(r, x, 0, 0, false), Crash([], now), Clean(now, true);
    var s: State<T> := Start(0);
    AfterThree(s, a, b, c);
    var table := Step(s, a).table;
    assert table == [Row(r, Letter(x, 0, true), 0)] && table[..0] == [];
    assert Reloaded(map[], table[..0], [], now, MAX_LEN) == map[];
    var buf := Get(Step(Step(s, a), b).queue, r);
    assert buf == [Queued(Letter(x, 0, true), now)] && buf[..0] == [];
  }
}
