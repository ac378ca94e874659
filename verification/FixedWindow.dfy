/** The two fixed-window limiters that share one idea but count differently:
    `RateLimiter` (server/middleware.go) stores the end of the window and keeps
    counting after the limit, `AttemptLimiter` (the `rateLimiter` of
    server/auth.go) stores the start of the window and stops counting at the limit.

    Times are integers on one non-decreasing clock; a window is any non-negative
    number of clock units. */
module FixedWindow {
  import opened Common

  // ---------------------------------------------------------------- RateLimiter

  datatype Counter = Counter(count: int, expires: int)
  type Counters = map<string, Counter>

  /** No counter, or one whose window has ended: `now.After(expires)`. */
  predicate Lapsed(m: Counters, id: string, now: int) {
    id !in m || now > m[id].expires
  }

  function Admit(m: Counters, window: int, id: string, now: int): Counters {
    if Lapsed(m, id, now) then m[id := Counter(1, now + window)]
    else m[id := Counter(m[id].count + 1, m[id].expires)]
  }

  predicate Admits(m: Counters, limit: int, id: string, now: int) {
    Lapsed(m, id, now) || m[id].count + 1 <= limit
  }

  function Swept(m: Counters, now: int): Counters {
    map id | id in m && !Lapsed(m, id, now) :: m[id]
  }

  class RateLimiter {
    var counters: Counters
    const limit: int
    const window: int

    constructor (limit: int, window: int)
      ensures counters == map[] && this.limit == limit && this.window == window
    {
      counters := map[];
      this.limit, this.window := limit, window;
    }

    method Allow(id: string, now: int) returns (ok: bool)
      modifies this
      ensures counters == Admit(old(counters), window, id, now)
      ensures ok <==> Admits(old(counters), limit, id, now)
    {
      if id !in counters || now > counters[id].expires {
        counters := counters[id := Counter(1, now + window)];
        return true;
      }
      var count := counters[id].count + 1;
      counters := counters[id := Counter(count, counters[id].expires)];
      if count > limit {
        return false;
      }
      return true;
    }

    /** One tick of the background goroutine: a range loop, in any order, that deletes. */
    method Cleanup(now: int)
      modifies this
      ensures counters == Swept(old(counters), now)
    {
      var todo := counters.Keys;
      while todo != {}
        invariant todo <= counters.Keys <= old(counters).Keys
        invariant forall id :: id in counters ==> counters[id] == old(counters)[id]
        invariant forall id :: id in old(counters) && id !in todo ==>
                    (id in counters <==> !Lapsed(old(counters), id, now))
        decreases todo
      {
        var id :| id in todo;
        todo := todo - {id};
        if now > counters[id].expires {
          counters := counters - {id};
        }
      }
    }

    method Reset()
      modifies this
      ensures counters == map[]
    {
      counters := map[];
    }
  }

  // ------------------------------------------------------------- AttemptLimiter

  datatype Attempts = Attempts(count: int, firstSeen: int)
  type AttemptMap = map<string, Attempts>

  predicate Forgotten(a: AttemptMap, window: int, id: string, now: int) {
    id !in a || now - a[id].firstSeen > window
  }

  /** The test reads the clock at `now`, a new entry is stamped by a later reading. */
  function Attempt(a: AttemptMap, limit: int, window: int, id: string, now: int, stamp: int): AttemptMap {
    if Forgotten(a, window, id, now) then a[id := Attempts(1, stamp)]
    else if a[id].count >= limit then a
    else a[id := Attempts(a[id].count + 1, a[id].firstSeen)]
  }

  predicate AttemptOk(a: AttemptMap, limit: int, window: int, id: string, now: int) {
    Forgotten(a, window, id, now) || a[id].count < limit
  }

  /** The clean-up loop reads the clock again at every entry. */
  function Cleaned(a: AttemptMap, window: int, readings: map<string, int>): AttemptMap {
    map id | id in a && !(id in readings && Forgotten(a, window, id, readings[id])) :: a[id]
  }

  class AttemptLimiter {
    var attempts: AttemptMap
    const maxAttempts: int
    const window: int

    constructor (maxAttempts: int, window: int)
      ensures attempts == map[] && this.maxAttempts == maxAttempts && this.window == window
    {
      attempts := map[];
      this.maxAttempts, this.window := maxAttempts, window;
    }

    method Allow(id: string, now: int, stamp: int) returns (ok: bool)
      modifies this
      ensures attempts == Attempt(old(attempts), maxAttempts, window, id, now, stamp)
      ensures ok <==> AttemptOk(old(attempts), maxAttempts, window, id, now)
    {
      if id !in attempts || now - attempts[id].firstSeen > window {
        attempts := attempts[id := Attempts(1, stamp)];
        return true;
      }
      if attempts[id].count >= maxAttempts {
        return false;
      }
      attempts := attempts[id := attempts[id].(count := attempts[id].count + 1)];
      return true;
    }

    method Clean(readings: map<string, int>)
      requires attempts.Keys <= readings.Keys
      modifies this
      ensures attempts == Cleaned(old(attempts), window, readings)
    {
      var todo := attempts.Keys;
      while todo != {}
        invariant todo <= attempts.Keys <= old(attempts).Keys
        invariant forall id :: id in attempts ==> attempts[id] == old(attempts)[id]
        invariant forall id :: id in old(attempts) && id !in todo ==>
                    (id in attempts <==> !Forgotten(old(attempts), window, id, readings[id]))
        decreases todo
      {
        var id :| id in todo;
        todo := todo - {id};
        if readings[id] - attempts[id].firstSeen > window {
          attempts := attempts - {id};
        }
      }
    }
  }

  // ----------------------------------------------------------------------- runs

  /** A request reads the clock once, or twice if it has to stamp an entry. A clean-up
      ends at `now`; `readings` are those of its loop over the entries. */
  datatype Event = Request(id: string, now: int, stamp: int) | Tick(now: int, readings: map<string, int>)

  function Ends(e: Event): int { if e.Request? then e.stamp else e.now }

  predicate OnClock(clock: int, e: Event) {
    match e
    case Request(_, now, stamp) => clock <= now <= stamp
    case Tick(now, readings) => clock <= now && forall id :: id in readings ==> clock <= readings[id] <= now
  }

  predicate Chronological(clock: int, es: seq<Event>)
    decreases |es|
  {
    es == [] || (OnClock(clock, es[0]) && Chronological(Ends(es[0]), es[1..]))
  }

  /** The clock at the end of the run. */
  function Until(clock: int, es: seq<Event>): int {
    if es == [] then clock else Ends(es[|es| - 1])
  }

  function Requests(es: seq<Event>): seq<Event> {
    if es == [] then []
    else (if es[0].Request? then [es[0]] else []) + Requests(es[1..])
  }

  /** What `RateLimiter.Allow` answers along a run, one answer a request. */
  function Answers(m: Counters, limit: int, window: int, es: seq<Event>): seq<bool>
    decreases |es|
  {
    if es == [] then []
    else match es[0]
      case Request(id, now, _) =>
        [Admits(m, limit, id, now)] + Answers(Admit(m, window, id, now), limit, window, es[1..])
      case Tick(now, _) => Answers(Swept(m, now), limit, window, es[1..])
  }

  /** What the agent `rateLimiter.Allow` answers along a run. */
  function AttemptAnswers(a: AttemptMap, limit: int, window: int, es: seq<Event>): seq<bool>
    decreases |es|
  {
    if es == [] then []
    else match es[0]
      case Request(id, now, stamp) =>
        [AttemptOk(a, limit, window, id, now)]
        + AttemptAnswers(Attempt(a, limit, window, id, now, stamp), limit, window, es[1..])
      case Tick(_, readings) => AttemptAnswers(Cleaned(a, window, readings), limit, window, es[1..])
  }

  // ------------------------------------------------------ clean-ups are invisible

  /** Two counter maps that no request from `clock` on can tell apart. */
  ghost predicate SameLive(clock: int, m: Counters, n: Counters) {
    forall id :: (Lapsed(m, id, clock) <==> Lapsed(n, id, clock)) &&
                 (!Lapsed(m, id, clock) ==> m[id] == n[id])
  }

  ghost predicate SameAttempts(clock: int, window: int, a: AttemptMap, b: AttemptMap) {
    forall id :: (Forgotten(a, window, id, clock) <==> Forgotten(b, window, id, clock)) &&
                 (!Forgotten(a, window, id, clock) ==> a[id] == b[id])
  }

  lemma {:induction false} SweepsAreInvisible(clock: int, m: Counters, n: Counters, limit: int, window: int,
                                              es: seq<Event>)
    requires Chronological(clock, es) && SameLive(clock, m, n) && window >= 0
    ensures Answers(m, limit, window, es) == Answers(n, limit, window, Requests(es))
    decreases |es|
  {
    if es != [] {
      match es[0]
      case Request(id, now, stamp) =>
        assert Requests(es) == [es[0]] + Requests(es[1..]);
        assert Requests(es)[1..] == Requests(es[1..]);
        assert Lapsed(m, id, clock) <==> Lapsed(n, id, clock);
        SweepsAreInvisible(stamp, Admit(m, window, id, now), Admit(n, window, id, now), limit, window, es[1..]);
      case Tick(now, _) =>
        assert Requests(es) == Requests(es[1..]);
        SweepsAreInvisible(now, Swept(m, now), n, limit, window, es[1..]);
    }
  }

  lemma {:induction false} CleansAreInvisible(clock: int, a: AttemptMap, b: AttemptMap, limit: int, window: int,
                                              es: seq<Event>)
    requires Chronological(clock, es) && SameAttempts(clock, window, a, b) && window >= 0
    ensures AttemptAnswers(a, limit, window, es) == AttemptAnswers(b, limit, window, Requests(es))
    decreases |es|
  {
    if es != [] {
      match es[0]
      case Request(id, now, stamp) =>
        assert Requests(es) == [es[0]] + Requests(es[1..]);
        assert Requests(es)[1..] == Requests(es[1..]);
        assert Forgotten(a, window, id, clock) <==> Forgotten(b, window, id, clock);
        var a', b' := Attempt(a, limit, window, id, now, stamp), Attempt(b, limit, window, id, now, stamp);
        CleansAreInvisible(stamp, a', b', limit, window, es[1..]);
      case Tick(now, readings) =>
        assert Requests(es) == Requests(es[1..]);
        CleansAreInvisible(now, Cleaned(a, window, readings), b, limit, window, es[1..]);
    }
  }

  // ------------------------------------------------ the two limiters side by side

  /** The counter's window, which began at the first reading, is over, and the attempt
      window, which began at the second, is not. */
  predicate InGap(m: Counters, a: AttemptMap, window: int, id: string, now: int) {
    Lapsed(m, id, now) && !Forgotten(a, window, id, now)
  }

  /** No request of the run falls in the gap between the two window ends of its key. */
  predicate Unbroken(m: Counters, a: AttemptMap, limit: int, window: int, es: seq<Event>)
    decreases |es|
  {
    es == [] ||
    match es[0]
    case Request(id, now, stamp) =>
      && !InGap(m, a, window, id, now)
      && Unbroken(Admit(m, window, id, now), Attempt(a, limit, window, id, now, stamp), limit, window, es[1..])
    case Tick(_, _) => Unbroken(m, a, limit, window, es[1..])
  }

  /** The attempt map saturates where the counter map keeps counting, and its windows end
      no earlier. */
  ghost predicate Saturated(clock: int, limit: int, window: int, m: Counters, a: AttemptMap) {
    && (forall id :: id in a ==> a[id].count >= 1)
    && forall id :: (Forgotten(a, window, id, clock) ==> Lapsed(m, id, clock)) &&
                    (!Lapsed(m, id, clock) ==>
                       && m[id].expires <= a[id].firstSeen + window
                       && a[id].count == Min(m[id].count, limit))
  }

  /** Both maps after a run of requests. */
  function Counted(m: Counters, window: int, rs: seq<Event>): Counters
    decreases |rs|
  {
    if rs == [] then m
    else Counted(if rs[0].Request? then Admit(m, window, rs[0].id, rs[0].now) else m, window, rs[1..])
  }

  function Attempted(a: AttemptMap, limit: int, window: int, rs: seq<Event>): AttemptMap
    decreases |rs|
  {
    if rs == [] then a
    else
      var a' := if rs[0].Request? then Attempt(a, limit, window, rs[0].id, rs[0].now, rs[0].stamp) else a;
      Attempted(a', limit, window, rs[1..])
  }

  ghost predicate OnlyRequests(rs: seq<Event>) { forall i :: 0 <= i < |rs| ==> rs[i].Request? }

  /** Through a run of requests of which none falls in a gap the answers are the same, and
      the limiters stay in step. */
  lemma {:induction false} SaturatingAgrees(clock: int, m: Counters, a: AttemptMap, limit: int, window: int,
                                            rs: seq<Event>)
    requires Chronological(clock, rs) && OnlyRequests(rs) && Saturated(clock, limit, window, m, a)
    requires limit >= 1 && window >= 0 && Unbroken(m, a, limit, window, rs)
    ensures AttemptAnswers(a, limit, window, rs) == Answers(m, limit, window, rs)
    ensures Saturated(Until(clock, rs), limit, window, Counted(m, window, rs), Attempted(a, limit, window, rs))
    decreases |rs|
  {
    if rs != [] {
      var Request(id, now, stamp) := rs[0];
      assert Forgotten(a, window, id, clock) ==> Lapsed(m, id, clock);
      SaturatingAgrees(stamp, Admit(m, window, id, now), Attempt(a, limit, window, id, now, stamp), limit, window,
                       rs[1..]);
    }
  }

  lemma {:induction false} RequestsAreRequests(clock: int, es: seq<Event>)
    requires Chronological(clock, es)
    ensures OnlyRequests(Requests(es)) && Chronological(clock, Requests(es))
    decreases |es|
  {
    if es != [] {
      RequestsAreRequests(Ends(es[0]), es[1..]);
      if es[0].Request? {
        assert Requests(es)[1..] == Requests(es[1..]);
      } else {
        assert Requests(es) == Requests(es[1..]);
        ChronologicalEarlier(clock, es[0].now, Requests(es[1..]));
      }
    }
  }

  lemma ChronologicalEarlier(clock: int, later: int, es: seq<Event>)
    requires clock <= later && Chronological(later, es)
    ensures Chronological(clock, es)
  {}

  /** Whatever clean-ups each limiter gets, two limiters that see the same requests answer
      every one of them identically, if none of them falls in a gap. */
  lemma LimitersAgree(clock: int, limit: int, window: int, es: seq<Event>, fs: seq<Event>)
    requires limit >= 1 && window >= 0
    requires Chronological(clock, es) && Chronological(clock, fs) && Requests(es) == Requests(fs)
    requires Unbroken(map[], map[], limit, window, Requests(es))
    ensures Answers(map[], limit, window, es) == Answers(map[], limit, window, Requests(es))
    ensures AttemptAnswers(map[], limit, window, fs) == Answers(map[], limit, window, es)
  {
    SweepsAreInvisible(clock, map[], map[], limit, window, es);
    CleansAreInvisible(clock, map[], map[], limit, window, fs);
    RequestsAreRequests(clock, es);
    SaturatingAgrees(clock, map[], map[], limit, window, Requests(es));
  }

  /** With both readings of every request equal there is no gap, so they always agree. */
  lemma {:induction false} EqualReadingsLeaveNoGap(clock: int, m: Counters, a: AttemptMap, limit: int, window: int,
                                                   rs: seq<Event>)
    requires Chronological(clock, rs) && OnlyRequests(rs) && window >= 0
    requires forall i :: 0 <= i < |rs| ==> rs[i].now == rs[i].stamp
    requires m.Keys == a.Keys && forall id :: id in a ==> m[id].expires == a[id].firstSeen + window
    ensures Unbroken(m, a, limit, window, rs)
    decreases |rs|
  {
    if rs != [] {
      var Request(id, now, stamp) := rs[0];
      EqualReadingsLeaveNoGap(stamp, Admit(m, window, id, now), Attempt(a, limit, window, id, now, stamp), limit,
                              window, rs[1..]);
    }
  }

  // ------------------------------------------------ the gap is all that separates

  function Burst(id: string, now: int, n: nat): seq<Event> {
    seq(n, _ => Request(id, now, now))
  }

  lemma {:induction false} AnswersConcat(m: Counters, limit: int, window: int, rs: seq<Event>, more: seq<Event>)
    requires OnlyRequests(rs)
    ensures Answers(m, limit, window, rs + more) ==
            Answers(m, limit, window, rs) + Answers(Counted(m, window, rs), limit, window, more)
    decreases |rs|
  {
    if rs == [] {
      assert rs + more == more;
    } else {
      assert (rs + more)[1..] == rs[1..] + more;
      AnswersConcat(Admit(m, window, rs[0].id, rs[0].now), limit, window, rs[1..], more);
    }
  }

  lemma {:induction false} AttemptsConcat(a: AttemptMap, limit: int, window: int, rs: seq<Event>, more: seq<Event>)
    requires OnlyRequests(rs)
    ensures AttemptAnswers(a, limit, window, rs + more) ==
            AttemptAnswers(a, limit, window, rs) + AttemptAnswers(Attempted(a, limit, window, rs), limit, window, more)
    decreases |rs|
  {
    if rs == [] {
      assert rs + more == more;
    } else {
      var a' := Attempt(a, limit, window, rs[0].id, rs[0].now, rs[0].stamp);
      assert (rs + more)[1..] == rs[1..] + more;
      AttemptsConcat(a', limit, window, rs[1..], more);
    }
  }

  lemma {:induction false} RoomForBurst(m: Counters, limit: int, window: int, id: string, now: int, n: nat)
    requires window >= 0 && n <= limit && (!Lapsed(m, id, now) ==> m[id].count + n <= limit)
    ensures false !in Answers(m, limit, window, Burst(id, now, n))
    decreases n
  {
    if n > 0 {
      assert Burst(id, now, n)[1..] == Burst(id, now, n - 1);
      RoomForBurst(Admit(m, window, id, now), limit, window, id, now, n - 1);
    }
  }

  lemma {:induction false} BurstOverflows(a: AttemptMap, limit: int, window: int, id: string, now: int, n: nat)
    requires !Forgotten(a, window, id, now) && a[id].count + n > limit && n > 0
    ensures false in AttemptAnswers(a, limit, window, Burst(id, now, n))
    decreases n
  {
    var rest := AttemptAnswers(Attempt(a, limit, window, id, now, now), limit, window, Burst(id, now, n)[1..]);
    if a[id].count >= limit {
      assert ([false] + rest)[0] == false;
    } else {
      assert Burst(id, now, n)[1..] == Burst(id, now, n - 1);
      BurstOverflows(Attempt(a, limit, window, id, now, now), limit, window, id, now, n - 1);
      assert AttemptAnswers(a, limit, window, Burst(id, now, n))[1..] == rest;
    }
  }

  lemma {:induction false} BurstOutsideGap(clock: int, m: Counters, a: AttemptMap, limit: int, window: int,
                                           id: string, now: int, n: nat)
    requires clock <= now && window >= 0 && !InGap(m, a, window, id, now)
    ensures Chronological(clock, Burst(id, now, n)) && Unbroken(m, a, limit, window, Burst(id, now, n))
    decreases n
  {
    if n > 0 {
      assert Burst(id, now, n)[1..] == Burst(id, now, n - 1);
      BurstOutsideGap(now, Admit(m, window, id, now), Attempt(a, limit, window, id, now, now), limit, window, id, now,
                      n - 1);
    }
  }

  /** The gap is exactly what separates the limiters. After any unbroken run, asking both
      for `id` at `now` as often as the limit tells them apart if and only if `now` lies
      between the two window ends of `id`. */
  lemma ToldApartIff(clock: int, limit: int, window: int, rs: seq<Event>, id: string, now: int)
    requires limit >= 1 && window >= 0 && Chronological(clock, rs) && OnlyRequests(rs) && Until(clock, rs) <= now
    requires Unbroken(map[], map[], limit, window, rs)
    ensures var more := rs + Burst(id, now, limit);
            AttemptAnswers(map[], limit, window, more) != Answers(map[], limit, window, more)
            <==> InGap(Counted(map[], window, rs), Attempted(map[], limit, window, rs), window, id, now)
  {
    var (m, a) := (Counted(map[], window, rs), Attempted(map[], limit, window, rs));
    var burst := Burst(id, now, limit);
    SaturatingAgrees(clock, map[], map[], limit, window, rs);
    AnswersConcat(map[], limit, window, rs, burst);
    AttemptsConcat(map[], limit, window, rs, burst);
    if InGap(m, a, window, id, now) {
      RoomForBurst(m, limit, window, id, now, limit);
      BurstOverflows(a, limit, window, id, now, limit);
      Different(Answers(map[], limit, window, rs), Answers(m, limit, window, burst),
                AttemptAnswers(a, limit, window, burst));
    } else {
      BurstOutsideGap(Until(clock, rs), m, a, limit, window, id, now, limit);
      SaturatingAgrees(Until(clock, rs), m, a, limit, window, burst);
    }
  }

  lemma Different(front: seq<bool>, x: seq<bool>, y: seq<bool>)
    requires false !in x && false in y
    ensures front + x != front + y
  {
    assert x == (front + x)[|front|..];
    assert y == (front + y)[|front|..];
  }

  /** And it happens: one nanosecond between the two readings of the first request. */
  lemma GapHappens(limit: int, window: int, id: string)
    requires limit >= 1 && window >= 0
    ensures var run := [Request(id, 0, 1)] + Burst(id, window + 1, limit);
            && Chronological(0, run)
            && AttemptAnswers(map[], limit, window, run) != Answers(map[], limit, window, run)
  {
    var rs := [Request(id, 0, 1)];
    var burst := Burst(id, window + 1, limit);
    assert rs[1..] == [] && (rs + burst)[1..] == burst;
    var a := map[id := Attempts(1, 1)];
    assert Attempted(map[], limit, window, rs) == a by {
      assert Attempt(map[], limit, window, id, 0, 1) == a;
      assert Attempted(a, limit, window, rs[1..]) == a;
    }
    var m := map[id := Counter(1, window)];
    assert Counted(map[], window, rs) == m by {
      assert Admit(map[], window, id, 0) == m;
      assert Counted(m, window, rs[1..]) == m;
    }
    assert Unbroken(m, a, limit, window, rs[1..]);
    ToldApartIff(0, limit, window, rs, id, window + 1);
    BurstInOrder(window + 1, id, limit);
    ChronologicalEarlier(1, window + 1, burst);
  }

  lemma {:induction false} BurstInOrder(now: int, id: string, n: nat)
    ensures Chronological(now, Burst(id, now, n))
    decreases n
  {
    if n > 0 {
      assert Burst(id, now, n)[1..] == Burst(id, now, n - 1);
      BurstInOrder(now, id, n - 1);
    }
  }

  // -------------------------------------------------- at most two windows' worth

  /** How many requests of `key` made at times in [lo, hi] were answered yes. */
  function Passed(rs: seq<Event>, answers: seq<bool>, key: string, lo: int, hi: int): nat
    requires |rs| == |answers|
  {
    if rs == [] then 0
    else (if rs[0].Request? && rs[0].id == key && lo <= rs[0].now <= hi && answers[0] then 1 else 0)
         + Passed(rs[1..], answers[1..], key, lo, hi)
  }

  /** How many more passes the interval [lo, lo + window] can still see: a window
      reaching past it leaves its own rest, one ending inside it leaves its rest and
      one window more. */
  function Allowance(m: Counters, limit: int, window: int, clock: int, key: string, lo: int): int {
    if clock > lo + window then 0
    else if key !in m || m[key].expires < lo then 2 * limit
    else (limit - Min(m[key].count, limit)) + (if m[key].expires >= lo + window then 0 else limit)
  }

  lemma {:induction false} PassedWithinAllowance(m: Counters, limit: int, window: int, clock: int, es: seq<Event>,
                                                 key: string, lo: int)
    requires Chronological(clock, es) && OnlyRequests(es) && limit >= 1 && window >= 0
    ensures |Answers(m, limit, window, es)| == |es|
    ensures 0 <= Allowance(m, limit, window, clock, key, lo)
    ensures Passed(es, Answers(m, limit, window, es), key, lo, lo + window)
            <= Allowance(m, limit, window, clock, key, lo)
    decreases |es|
  {
    if es != [] {
      var Request(id, now, stamp) := es[0];
      var rest := Answers(Admit(m, window, id, now), limit, window, es[1..]);
      PassedWithinAllowance(Admit(m, window, id, now), limit, window, stamp, es[1..], key, lo);
      assert Answers(m, limit, window, es)[1..] == rest;
    }
  }

  /** In any run with any ticks, no closed interval one window long sees more than
      twice the limit pass for one key. */
  lemma TwoWindowsBound(clock: int, limit: int, window: int, es: seq<Event>, key: string, lo: int)
    requires Chronological(clock, es) && limit >= 1 && window >= 0
    ensures |Answers(map[], limit, window, es)| == |Requests(es)|
    ensures Passed(Requests(es), Answers(map[], limit, window, es), key, lo, lo + window) <= 2 * limit
  {
    RequestsAreRequests(clock, es);
    SweepsAreInvisible(clock, map[], map[], limit, window, es);
    PassedWithinAllowance(map[], limit, window, clock, Requests(es), key, lo);
  }
}
