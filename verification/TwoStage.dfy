/** The two message limiters in series (`checkRateLimit`, server/middleware.go): 60 a
    minute first and, for what that lets pass, 120 a minute under the same key. No lock is
    held across the two questions, so the checks of different connections of one user or
    agent interleave; one connection asks about one message at a time. */
module TwoStage {
  import opened Common
  import opened FixedWindow

  const MESSAGE_LIMIT := 60
  const USER_LIMIT := 120
  const MINUTE := 60 * SECOND

  datatype Config = Config(limit: int, userLimit: int, window: int)

  /** The two counter maps and, for each key, how many checks are in flight: past the
      first question and not yet at the second. */
  datatype Pair = Pair(conn: Counters, user: Counters, flight: map<string, nat>)

  function Flying(p: Pair, id: string): nat { if id in p.flight then p.flight[id] else 0 }

  const Idle := Pair(map[], map[], map[])

  datatype Ask =
    | First(id: string, now: int)
    | Second(id: string, now: int)
    | ConnTick(now: int)
    | UserTick(now: int)

  datatype Verdict = Passed | ConnRefused | UserRefused

  /** At most `k` checks of one key at a time. */
  predicate Enabled(p: Pair, k: nat, e: Ask) {
    match e
    case First(id, _) => Flying(p, id) < k
    case Second(id, _) => Flying(p, id) > 0
    case _ => true
  }

  function Less(n: nat): nat { if n == 0 then 0 else n - 1 }

  function Step(p: Pair, c: Config, e: Ask): Pair {
    match e
    case First(id, now) =>
      Pair(Admit(p.conn, c.window, id, now), p.user,
           if Admits(p.conn, c.limit, id, now) then p.flight[id := Flying(p, id) + 1] else p.flight)
    case Second(id, now) => Pair(p.conn, Admit(p.user, c.window, id, now), p.flight[id := Less(Flying(p, id))])
    case ConnTick(now) => p.(conn := Swept(p.conn, now))
    case UserTick(now) => p.(user := Swept(p.user, now))
  }

  function Reply(p: Pair, c: Config, e: Ask): Verdict {
    match e
    case First(id, now) => if Admits(p.conn, c.limit, id, now) then Passed else ConnRefused
    case Second(id, now) => if Admits(p.user, c.userLimit, id, now) then Passed else UserRefused
    case _ => Passed
  }

  predicate Run(p: Pair, c: Config, k: nat, clock: int, es: seq<Ask>)
    decreases |es|
  {
    es == [] || (clock <= es[0].now && Enabled(p, k, es[0]) && Run(Step(p, c, es[0]), c, k, es[0].now, es[1..]))
  }

  function Replies(p: Pair, c: Config, es: seq<Ask>): seq<Verdict>
    decreases |es|
  {
    if es == [] then [] else [Reply(p, c, es[0])] + Replies(Step(p, c, es[0]), c, es[1..])
  }

  /** One call that nobody interrupts is the two questions one after the other, the
      second asked only if the first is answered yes, and leaves nothing in flight. */
  method CheckRateLimit(message: RateLimiter, user: RateLimiter, id: string, first: int, second: int)
    returns (v: Verdict)
    requires message != user && message.window == user.window
    modifies message, user
    ensures var c := Config(message.limit, user.limit, message.window);
            var p := Pair(old(message.counters), old(user.counters), map[]);
            var q := Step(p, c, First(id, first));
            if Reply(p, c, First(id, first)) == ConnRefused
            then v == ConnRefused && Pair(message.counters, user.counters, map[]) == q
            else && Enabled(q, 1, Second(id, second)) && v == Reply(q, c, Second(id, second))
                 && Pair(message.counters, user.counters, map[id := 0]) == Step(q, c, Second(id, second))
  {
    var connAllowed := message.Allow(id, first);
    if !connAllowed {
      return ConnRefused;
    }
    var userAllowed := user.Allow(id, second);
    if !userAllowed {
      return UserRefused;
    }
    return Passed;
  }

  // ------------------------------------------------------------------ never refused

  /** While a user window is open for `id`, what it has counted and what is in flight
      passed the connection window now open, or that and one earlier, or was in flight
      already when the user window opened. */
  ghost predicate Covered(clock: int, c: Config, k: nat, p: Pair, id: string) {
    && Flying(p, id) <= k
    && (id in p.conn ==> p.conn[id].count >= 1)
    && (!Lapsed(p.user, id, clock) ==>
      var due := p.user[id].count + Flying(p, id);
      && p.user[id].expires - c.window <= clock
      && (id in p.conn ==>
            var passed := Min(p.conn[id].count, c.limit);
            due <= k - 1 + passed || (due <= k - 1 + c.limit + passed && p.user[id].expires <= p.conn[id].expires))
      && (id !in p.conn ==> due <= k - 1 + c.limit))
  }

  ghost predicate Ample(c: Config, k: nat) {
    c.limit >= 1 && c.window >= 0 && k >= 1 && c.userLimit >= 2 * c.limit + k - 1
  }

  lemma StepKeepsCovered(clock: int, c: Config, k: nat, p: Pair, e: Ask, id: string)
    requires Ample(c, k) && clock <= e.now && Enabled(p, k, e) && Covered(clock, c, k, p, id)
    ensures Covered(e.now, c, k, Step(p, c, e), id)
    ensures e.Second? && e.id == id ==> Reply(p, c, e) == Passed
  {}

  lemma {:induction false} CoveredNeverRefuses(clock: int, c: Config, k: nat, p: Pair, es: seq<Ask>)
    requires Ample(c, k) && Run(p, c, k, clock, es) && forall id :: Covered(clock, c, k, p, id)
    ensures UserRefused !in Replies(p, c, es)
    decreases |es|
  {
    if es != [] {
      forall id ensures Covered(es[0].now, c, k, Step(p, c, es[0]), id) {
        StepKeepsCovered(clock, c, k, p, es[0], id);
      }
      if es[0].Second? { StepKeepsCovered(clock, c, k, p, es[0], es[0].id); }
      CoveredNeverRefuses(es[0].now, c, k, Step(p, c, es[0]), es[1..]);
    }
  }

  const Server := Config(MESSAGE_LIMIT, USER_LIMIT, MINUTE)

  /** The 120-a-minute limiter refuses nothing as long as every id has one check in flight
      at a time, as when it has one connection, whatever other ids do. */
  lemma UserLimiterNeverRefuses(clock: int, es: seq<Ask>)
    requires Run(Idle, Server, 1, clock, es)
    ensures UserRefused !in Replies(Idle, Server, es)
  {
    CoveredNeverRefuses(clock, Server, 1, Idle, es);
  }

  // ---------------------------------------------------------------- the exact bound

  function After(p: Pair, c: Config, es: seq<Ask>): Pair
    decreases |es|
  {
    if es == [] then p else After(Step(p, c, es[0]), c, es[1..])
  }

  /** The run leads from `p` at `clock` to `q` at `t`. */
  ghost predicate Reaches(p: Pair, clock: int, c: Config, k: nat, es: seq<Ask>, q: Pair, t: int) {
    && clock <= t && Run(p, c, k, clock, es) && After(p, c, es) == q
    && forall i :: 0 <= i < |es| ==> es[i].now <= t
  }

  lemma {:induction false} ReachesOn(p: Pair, clock: int, c: Config, k: nat, es: seq<Ask>, q: Pair, t: int,
                                     fs: seq<Ask>, r: Pair, u: int)
    requires Reaches(p, clock, c, k, es, q, t) && Reaches(q, t, c, k, fs, r, u)
    ensures Reaches(p, clock, c, k, es + fs, r, u)
    decreases |es|
  {
    if es == [] {
      assert es + fs == fs;
      RunEarlier(p, c, k, clock, t, fs);
    } else {
      assert (es + fs)[1..] == es[1..] + fs;
      ReachesOn(Step(p, c, es[0]), es[0].now, c, k, es[1..], q, t, fs, r, u);
    }
  }

  lemma RunEarlier(p: Pair, c: Config, k: nat, clock: int, later: int, es: seq<Ask>)
    requires clock <= later && Run(p, c, k, later, es)
    ensures Run(p, c, k, clock, es)
  {}

  lemma ReachesOne(p: Pair, clock: int, c: Config, k: nat, e: Ask)
    requires clock <= e.now && Enabled(p, k, e)
    ensures Reaches(p, clock, c, k, [e], Step(p, c, e), e.now)
  {
    assert [e][1..] == [];
    assert Run(Step(p, c, e), c, k, e.now, [e][1..]);
  }

  /** If nobody has been refused, no user counter is above its limit. */
  lemma {:induction false} UnrefusedIsWithin(p: Pair, c: Config, es: seq<Ask>, id: string)
    requires UserRefused !in Replies(p, c, es) && c.userLimit >= 1
    requires id in p.user ==> p.user[id].count <= c.userLimit
    ensures id in After(p, c, es).user ==> After(p, c, es).user[id].count <= c.userLimit
    decreases |es|
  {
    if es != [] {
      var rs := Replies(p, c, es);
      assert rs[0] == Reply(p, c, es[0]) && rs[1..] == Replies(Step(p, c, es[0]), c, es[1..]);
      UnrefusedIsWithin(Step(p, c, es[0]), c, es[1..], id);
    }
  }

  /** Checks that pass the first question in a window each and stay in flight. */
  function Openers(t: int, n: nat, window: int): seq<Ask>
    decreases n
  {
    if n == 0 then [] else [First("u", t)] + Openers(t + window + 1, n - 1, window)
  }

  function LastOpened(t: int, n: nat, window: int): int
    decreases n
  {
    if n <= 1 then t else LastOpened(t + window + 1, n - 1, window)
  }

  lemma {:induction false} OpenersReach(p: Pair, t: int, c: Config, k: nat, n: nat) returns (q: Pair)
    requires Lapsed(p.conn, "u", t) && n >= 1 && Flying(p, "u") + n <= k && c.window >= 0
    ensures Reaches(p, t, c, k, Openers(t, n, c.window), q, LastOpened(t, n, c.window))
    ensures q.user == p.user && Flying(q, "u") == Flying(p, "u") + n
    ensures "u" in q.conn && q.conn["u"] == Counter(1, LastOpened(t, n, c.window) + c.window)
    decreases n
  {
    var e := First("u", t);
    q := Step(p, c, e);
    ReachesOne(p, t, c, k, e);
    if n == 1 {
      assert Openers(t, n, c.window) == [e];
    } else {
      var p1, later := q, t + c.window + 1;
      q := OpenersReach(p1, later, c, k, n - 1);
      var es, last := Openers(later, n - 1, c.window), LastOpened(t, n, c.window);
      assert Reaches(p, t, c, k, [e], p1, later);
      ReachesOn(p, t, c, k, [e], p1, later, es, q, last);
    }
  }

  function Seconds(t: int, n: nat): seq<Ask> {
    if n == 0 then [] else [Second("u", t)] + Seconds(t, n - 1)
  }

  /** `n` checks in a row, none overtaking another. */
  function Serial(t: int, n: nat): seq<Ask> {
    if n == 0 then [] else [First("u", t)] + ([Second("u", t)] + Serial(t, n - 1))
  }

  /** The count of the window that is open at t, 0 if none is. */
  function OpenCount(m: Counters, t: int): int { if Lapsed(m, "u", t) then 0 else m["u"].count }

  function OpenEnd(m: Counters, t: int, window: int): int { if Lapsed(m, "u", t) then t + window else m["u"].expires }

  lemma {:induction false} SecondsReach(p: Pair, t: int, c: Config, k: nat, n: nat) returns (q: Pair)
    requires Flying(p, "u") >= n && c.window >= 0
    ensures Reaches(p, t, c, k, Seconds(t, n), q, t)
    ensures q.conn == p.conn && Flying(q, "u") == Flying(p, "u") - n && OpenCount(q.user, t) == OpenCount(p.user, t) + n
    ensures n > 0 ==> !Lapsed(q.user, "u", t) && q.user["u"].expires == OpenEnd(p.user, t, c.window)
    decreases n
  {
    q := p;
    if n > 0 {
      var e := Second("u", t);
      ReachesOne(p, t, c, k, e);
      var p1 := Step(p, c, e);
      q := SecondsReach(p1, t, c, k, n - 1);
      ReachesOn(p, t, c, k, [e], p1, t, Seconds(t, n - 1), q, t);
    }
  }

  lemma {:induction false} SerialReach(p: Pair, t: int, c: Config, k: nat, n: nat) returns (q: Pair)
    requires k >= 1 && Flying(p, "u") == 0 && c.window >= 0 && OpenCount(p.conn, t) + n <= c.limit
    ensures Reaches(p, t, c, k, Serial(t, n), q, t) && Flying(q, "u") == 0
    ensures OpenCount(q.user, t) == OpenCount(p.user, t) + n
    ensures n > 0 ==> !Lapsed(q.user, "u", t) && q.user["u"].expires == OpenEnd(p.user, t, c.window)
    ensures n == 0 ==> q == p
    ensures Lapsed(p.conn, "u", t) || ("u" in q.conn && q.conn["u"].expires == p.conn["u"].expires)
    decreases n
  {
    q := p;
    if n > 0 {
      var e, f := First("u", t), Second("u", t);
      var p1 := Step(p, c, e);
      ReachesOne(p, t, c, k, e);
      ReachesOne(p1, t, c, k, f);
      var p2 := Step(p1, c, f);
      q := SerialReach(p2, t, c, k, n - 1);
      ReachesOn(p1, t, c, k, [f], p2, t, Serial(t, n - 1), q, t);
      ReachesOn(p, t, c, k, [e], p1, t, [f] + Serial(t, n - 1), q, t);
    }
  }

  /** With `k` checks in flight, the last of which opened a connection window at `s`: all
      of them reach the second question a moment later and open a user window; the rest of
      that connection window follows, and the whole next one still falls in the user
      window. */
  function Crossing(s: int, k: nat, limit: nat, window: int): seq<Ask>
    requires limit >= 1
  {
    Seconds(s + 1, k) + (Serial(s + 1, limit - 1) + Serial(s + 1 + window, limit))
  }

  lemma CrossingReach(p: Pair, s: int, c: Config, k: nat) returns (q: Pair)
    requires c.limit >= 1 && c.window >= 1 && k >= 1 && Flying(p, "u") == k && Lapsed(p.user, "u", s + 1)
    requires "u" in p.conn && p.conn["u"] == Counter(1, s + c.window)
    ensures Reaches(p, s, c, k, Crossing(s, k, c.limit, c.window), q, s + 1 + c.window)
    ensures "u" in q.user && q.user["u"].count == 2 * c.limit + k - 1
  {
    var t, u := s + 1, s + 1 + c.window;
    var p1 := SecondsReach(p, t, c, k, k);
    var p2 := SerialReach(p1, t, c, k, c.limit - 1);
    q := SerialReach(p2, u, c, k, c.limit);
    assert Reaches(p1, t, c, k, Serial(t, c.limit - 1), p2, u);
    ReachesOn(p1, t, c, k, Serial(t, c.limit - 1), p2, u, Serial(u, c.limit), q, u);
    ReachesOn(p, t, c, k, Seconds(t, k), p1, t, Serial(t, c.limit - 1) + Serial(u, c.limit), q, u);
    RunEarlier(p, c, k, s, t, Crossing(s, k, c.limit, c.window));
  }

  ghost predicate RefusesNone(c: Config, k: nat, clock: int, es: seq<Ask>) {
    Run(Idle, c, k, clock, es) ==> UserRefused !in Replies(Idle, c, es)
  }

  /** A run with `k` checks in flight in which the user limiter counts one less than twice
      the limit and `k`. */
  function WorstRun(c: Config, k: nat): seq<Ask>
    requires c.limit >= 1
  {
    Openers(0, k, c.window) + Crossing(LastOpened(0, k, c.window), k, c.limit, c.window)
  }

  lemma WorstRunRefuses(c: Config, k: nat)
    requires c.limit >= 1 && c.window >= 1 && c.userLimit >= 1 && k >= 1
    ensures Run(Idle, c, k, 0, WorstRun(c, k))
    ensures c.userLimit < 2 * c.limit + k - 1 ==> UserRefused in Replies(Idle, c, WorstRun(c, k))
  {
    var s := LastOpened(0, k, c.window);
    var p := OpenersReach(Idle, 0, c, k, k);
    var q := CrossingReach(p, s, c, k);
    ReachesOn(Idle, 0, c, k, Openers(0, k, c.window), p, s, Crossing(s, k, c.limit, c.window), q, s + 1 + c.window);
    if UserRefused !in Replies(Idle, c, WorstRun(c, k)) { UnrefusedIsWithin(Idle, c, WorstRun(c, k), "u"); }
  }

  /** Exactly how large the second stage has to be to refuse nothing, when up to `k` checks
      of one key may be in flight. */
  lemma SecondStageInertIff(c: Config, k: nat)
    requires c.limit >= 1 && c.window >= 1 && c.userLimit >= 1 && k >= 1
    ensures c.userLimit >= 2 * c.limit + k - 1 <==> forall clock, es :: RefusesNone(c, k, clock, es)
  {
    if c.userLimit >= 2 * c.limit + k - 1 {
      forall clock, es ensures RefusesNone(c, k, clock, es) {
        if Run(Idle, c, k, clock, es) { CoveredNeverRefuses(clock, c, k, Idle, es); }
      }
    } else {
      WorstRunRefuses(c, k);
      assert !RefusesNone(c, k, 0, WorstRun(c, k));
    }
  }

  /** Two connections of one user are enough to be refused by the limits of the server,
      without a check taking more than two nanoseconds: a message opens the windows; one
      asks the first question at the last moment of the connection window, another just
      after it; both then ask the second, and the crossing follows. */
  function TwoDevices(): seq<Ask> {
    Serial(0, 1) + ([First("u", MINUTE)] + ([First("u", MINUTE + 1)] + Crossing(MINUTE + 1, 2, MESSAGE_LIMIT, MINUTE)))
  }

  lemma TwoDevicesAreRefused()
    ensures Run(Idle, Server, 2, 0, TwoDevices()) && UserRefused in Replies(Idle, Server, TwoDevices())
  {
    var c, e, f := Server, First("u", MINUTE), First("u", MINUTE + 1);
    var tail := Crossing(MINUTE + 1, 2, MESSAGE_LIMIT, MINUTE);
    var p0 := FirstMessage(c, 2);
    var p1 := Step(p0, c, e);
    var p2 := Step(p1, c, f);
    var q := CrossingReach(p2, MINUTE + 1, c, 2);
    ReachesOne(p0, MINUTE, c, 2, e);
    ReachesOne(p1, MINUTE, c, 2, f);
    ReachesOn(p1, MINUTE, c, 2, [f], p2, MINUTE + 1, tail, q, 2 * MINUTE + 2);
    ReachesOn(p0, MINUTE, c, 2, [e], p1, MINUTE, [f] + tail, q, 2 * MINUTE + 2);
    ReachesOn(Idle, 0, c, 2, Serial(0, 1), p0, MINUTE, [e] + ([f] + tail), q, 2 * MINUTE + 2);
    if UserRefused !in Replies(Idle, c, TwoDevices()) { UnrefusedIsWithin(Idle, c, TwoDevices(), "u"); }
  }

  lemma FirstMessage(c: Config, k: nat) returns (p: Pair)
    requires c.limit >= 1 && c.window >= 0 && k >= 1
    ensures Reaches(Idle, 0, c, k, Serial(0, 1), p, c.window) && Flying(p, "u") == 0
    ensures p.conn == map["u" := Counter(1, c.window)] && p.user == map["u" := Counter(1, c.window)]
  {
    var e, f := First("u", 0), Second("u", 0);
    var p1 := Step(Idle, c, e);
    p := Step(p1, c, f);
    ReachesOne(Idle, 0, c, k, e);
    ReachesOne(p1, 0, c, k, f);
    ReachesOn(Idle, 0, c, k, [e], p1, 0, [f], p, 0);
    assert Serial(0, 0) == [] && Serial(0, 1) == [e] + [f];
  }
}
