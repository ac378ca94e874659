/** The tiered HTTP limiter (server/rate_limit_tiers.go): fixed windows whose size
    depends on a per-user tier that is also kept in a table and reloaded at start-up.
    Times are nanoseconds. */
module Tiered {
  import opened Common

  datatype Tier = Free | Pro | Enterprise

  const WINDOW := 60 * SECOND
  const GRACE := 600 * SECOND

  function Burst(t: Tier): int {
    match t case Free => 60 case Pro => 300 case Enterprise => 1500
  }

  function Rank(t: Tier): nat {
    match t case Free => 0 case Pro => 1 case Enterprise => 2
  }

  function Name(t: Tier): string {
    match t case Free => "free" case Pro => "pro" case Enterprise => "enterprise"
  }

  /** The switch of `loadTiersFromDB`: an unknown name is the free tier. */
  function Parse(name: string): Tier {
    if name == "pro" then Pro else if name == "enterprise" then Enterprise else Free
  }

  datatype Entry = Entry(count: int, windowEnd: int, tier: Tier)
  type Limits = map<string, Entry>
  datatype Reply = Reply(allowed: bool, remaining: int, retryAfter: int)

  /** The user's entry once this call has been counted. */
  function Charged(m: Limits, user: string, now: int): Entry {
    var e := if user in m then m[user] else Entry(0, now + WINDOW, Free);
    if now > e.windowEnd then Entry(1, now + WINDOW, e.tier) else e.(count := e.count + 1)
  }

  function ReplyOf(e: Entry, now: int): Reply {
    if e.count > Burst(e.tier) then
      var wait := (e.windowEnd - now) / SECOND + 1;
      Reply(false, 0, if wait < 1 then 1 else wait)
    else Reply(true, Burst(e.tier) - e.count, 0)
  }

  predicate Stale(e: Entry, now: int) {
    now > e.windowEnd && now - e.windowEnd > GRACE
  }

  function Swept(m: Limits, now: int): Limits {
    map u | u in m && !Stale(m[u], now) :: m[u]
  }

  function TierOf(m: Limits, user: string): Tier {
    if user in m then m[user].tier else Free
  }

  function Remaining(m: Limits, user: string, now: int): int {
    if user !in m then Burst(Free)
    else if now > m[user].windowEnd then Burst(m[user].tier)
    else if Burst(m[user].tier) < m[user].count then 0
    else Burst(m[user].tier) - m[user].count
  }

  /** Rows of the tier table in the order the driver hands them over; free rows are
      not put in memory. */
  function Loaded(m: Limits, rows: seq<(string, string)>, now: int): Limits {
    if rows == [] then m
    else
      var (front, row) := (Loaded(m, rows[..|rows| - 1], now), rows[|rows| - 1]);
      if Parse(row.1) == Free then front else front[row.0 := Entry(0, now + WINDOW, Parse(row.1))]
  }

  class TieredRateLimiter {
    var limits: Limits

    constructor ()
      ensures limits == map[]
    {
      limits := map[];
    }

    method Allow(user: string, now: int) returns (allowed: bool, remaining: int, retryAfter: int)
      modifies this
      ensures limits == old(limits)[user := Charged(old(limits), user, now)]
      ensures Reply(allowed, remaining, retryAfter) == ReplyOf(Charged(old(limits), user, now), now)
    {
      var entry := Entry(0, now + WINDOW, Free);
      if user in limits {
        entry := limits[user];
      }
      if now > entry.windowEnd {
        entry := entry.(count := 0, windowEnd := now + WINDOW);
      }
      entry := entry.(count := entry.count + 1);
      limits := limits[user := entry];
      remaining := Burst(entry.tier) - entry.count;
      if remaining < 0 {
        remaining := 0;
      }
      if entry.count > Burst(entry.tier) {
        retryAfter := (entry.windowEnd - now) / SECOND + 1;
        if retryAfter < 1 {
          retryAfter := 1;
        }
        return false, 0, retryAfter;
      }
      return true, remaining, 0;
    }

    method SetTier(user: string, tier: Tier, now: int)
      modifies this
      ensures limits == old(limits)[user := Entry(0, now + WINDOW, tier)]
    {
      if user in limits {
        limits := limits[user := limits[user].(tier := tier)];
        limits := limits[user := limits[user].(count := 0, windowEnd := now + WINDOW)];
      } else {
        limits := limits[user := Entry(0, now + WINDOW, tier)];
      }
    }

    method GetRemaining(user: string, now: int) returns (remaining: int)
      ensures remaining == Remaining(limits, user, now)
    {
      if user !in limits {
        return Burst(Free);
      }
      if now > limits[user].windowEnd {
        return Burst(limits[user].tier);
      }
      remaining := Burst(limits[user].tier) - limits[user].count;
      if remaining < 0 {
        remaining := 0;
      }
    }

    method CleanupOnce(now: int)
      modifies this
      ensures limits == Swept(old(limits), now)
    {
      var todo := limits.Keys;
      while todo != {}
        invariant todo <= limits.Keys <= old(limits).Keys
        invariant forall u :: u in limits ==> limits[u] == old(limits)[u]
        invariant forall u :: u in old(limits) && u !in todo ==>
                    (u in limits <==> !Stale(old(limits)[u], now))
        decreases todo
      {
        var u :| u in todo;
        todo := todo - {u};
        if now > limits[u].windowEnd && now - limits[u].windowEnd > GRACE {
          limits := limits - {u};
        }
      }
    }

    method LoadTiersFromDB(rows: seq<(string, string)>, now: int)
      modifies this
      ensures limits == Loaded(old(limits), rows, now)
    {
      for i := 0 to |rows|
        invariant limits == Loaded(old(limits), rows[..i], now)
      {
        assert rows[..i + 1][..i] == rows[..i];
        var tier := Parse(rows[i].1);
        if tier != Free {
          SetTier(rows[i].0, tier, now);
        }
      }
      assert rows[..|rows|] == rows;
    }
  }

  /** The table `user_rate_limit_tiers`. */
  class TierTable {
    var rows: map<string, string>

    /** One row a user, the old one replaced; nothing on error. */
    method PersistTierToDB(user: string, tier: Tier, broken: bool) returns (ok: bool)
      modifies this
      ensures ok == !broken && rows == if ok then old(rows)[user := Name(tier)] else old(rows)
    {
      if !broken {
        rows := rows[user := Name(tier)];
      }
      return !broken;
    }
  }

  // ----------------------------------------------------------------------- runs

  /** The limiter, the tier table, the users whose paid tier memory has lost (swept
      entries, and rows the last load could not scan), and the handlers that have set a
      tier in memory and are yet to persist it. */
  datatype Server = Server(limits: Limits, table: map<string, string>, lost: set<string>,
                           flight: multiset<(string, Tier)>)

  datatype Event =
    | Call(user: string, now: int)
    | SetTier(user: string, tier: Tier, now: int)
    | Persist(user: string, tier: Tier, now: int, fails: bool)
    | Sweep(now: int)
    | Restart(rows: seq<(string, string)>, now: int)

  const Fresh := Server(map[], map[], {}, multiset{})

  function Users(rows: seq<(string, string)>): set<string> {
    set i | 0 <= i < |rows| :: rows[i].0
  }

  /** A load sees rows of the table, at most one a user. */
  predicate RowsOf(rows: seq<(string, string)>, table: map<string, string>) {
    forall i :: 0 <= i < |rows| ==> rows[i].0 in table && table[rows[i].0] == rows[i].1
  }

  predicate Enabled(s: Server, e: Event) {
    match e
    case Persist(u, tier, _, _) => s.flight[(u, tier)] > 0
    case Restart(rows, _) => RowsOf(rows, s.table)
    case _ => true
  }

  /** The admin handler sets the tier in memory and persists it later, with no lock held
      and an error only logged; a restart ends the handlers that were on their way. */
  function Step(s: Server, e: Event): Server {
    match e
    case Call(u, now) => s.(limits := s.limits[u := Charged(s.limits, u, now)])
    case SetTier(u, tier, now) =>
      Server(s.limits[u := Entry(0, now + WINDOW, tier)], s.table, s.lost - {u}, s.flight + multiset{(u, tier)})
    case Persist(u, tier, _, fails) =>
      s.(table := if fails then s.table else s.table[u := Name(tier)], flight := s.flight - multiset{(u, tier)})
    case Sweep(now) =>
      s.(limits := Swept(s.limits, now), lost := s.lost + (s.limits.Keys - Swept(s.limits, now).Keys))
    case Restart(rows, now) => Server(Loaded(map[], rows, now), s.table, s.table.Keys - Users(rows), multiset{})
  }

  /** A handler that nobody interrupts: both steps, and 200 whether the second worked or
      not; nothing for a missing name or an unknown tier. */
  method HandleSetRateLimitTier(limiter: TieredRateLimiter, table: TierTable, user: string, name: string, now: int,
                                broken: bool, ghost s: Server)
    returns (status: int)
    requires s.limits == limiter.limits && s.table == table.rows
    modifies limiter, table
    ensures status == if user != "" && name in {"free", "pro", "enterprise"} then 200 else 400
    ensures status == 400 ==> limiter.limits == s.limits && table.rows == s.table
    ensures status == 200 ==>
              var t := Step(Step(s, SetTier(user, Parse(name), now)), Persist(user, Parse(name), now, broken));
              limiter.limits == t.limits && table.rows == t.table && t.flight == s.flight
  {
    if user == "" || name == "" {
      return 400;
    }
    if name != "free" && name != "pro" && name != "enterprise" {
      return 400;
    }
    limiter.SetTier(user, Parse(name), now);
    var _ := table.PersistTierToDB(user, Parse(name), broken);
    return 200;
  }

  predicate Run(s: Server, es: seq<Event>)
    decreases |es|
  {
    es == [] || (Enabled(s, es[0]) && Run(Step(s, es[0]), es[1..]))
  }

  function After(s: Server, es: seq<Event>): Server
    decreases |es|
  {
    if es == [] then s else After(Step(s, es[0]), es[1..])
  }

  // ----------------------------------------------------------- memory and the table

  function Persisted(table: map<string, string>, user: string): Tier {
    if user in table then Parse(table[user]) else Free
  }

  /** The tier of the user's last write to the table, as the events tell. */
  function LastPersisted(es: seq<Event>, u: string): Tier {
    if es == [] then Free
    else
      var last := es[|es| - 1];
      if last.Persist? && last.user == u && !last.fails then last.tier else LastPersisted(es[..|es| - 1], u)
  }

  /** The tier last set in memory, by the handler or by a load. */
  function LastSet(es: seq<Event>, u: string): Tier {
    if es == [] then Free
    else
      var (front, last) := (es[..|es| - 1], es[|es| - 1]);
      if last.SetTier? && last.user == u then last.tier
      else if last.Restart? then LastPersisted(front, u)
      else LastSet(front, u)
  }

  lemma {:induction false} LoadedTier(rows: seq<(string, string)>, table: map<string, string>, now: int, u: string)
    requires RowsOf(rows, table)
    ensures TierOf(Loaded(map[], rows, now), u) == if u in Users(rows) then Persisted(table, u) else Free
  {
    if rows != [] {
      var front := rows[..|rows| - 1];
      LoadedTier(front, table, now, u);
      assert Users(rows) == Users(front) + {rows[|rows| - 1].0};
    }
  }

  lemma {:induction false} RunSnoc(s: Server, es: seq<Event>)
    requires es != []
    ensures var front, last := es[..|es| - 1], es[|es| - 1];
            && After(s, es) == Step(After(s, front), last)
            && (Run(s, es) <==> Run(s, front) && Enabled(After(s, front), last))
    decreases |es|
  {
    if |es| == 1 {
      assert es[..0] == [] && es[1..] == [];
    } else {
      RunSnoc(Step(s, es[0]), es[1..]);
      assert es[1..][..|es| - 2] == es[..|es| - 1][1..];
    }
  }

  lemma StepInForce(s: Server, e: Event, u: string, set_: Tier, persisted: Tier)
    requires Enabled(s, e)
    requires TierOf(s.limits, u) == (if u in s.lost then Free else set_) && Persisted(s.table, u) == persisted
    ensures var t := Step(s, e);
            && Persisted(t.table, u) == (if e.Persist? && e.user == u && !e.fails then e.tier else persisted)
            && TierOf(t.limits, u) == (if u in t.lost then Free
                                       else if e.SetTier? && e.user == u then e.tier
                                       else if e.Restart? then persisted else set_)
  {
    if e.Restart? { LoadedTier(e.rows, s.table, e.now, u); }
  }

  /** In every run, however the handlers interleave and whatever fails: the tier in force is
      the one last set, or free if memory has lost the user since; the table holds the one
      last persisted. So memory outranks the table exactly when the last set outranks the
      last write and has not been lost. */
  lemma {:induction false} TierInForce(es: seq<Event>, u: string)
    requires Run(Fresh, es)
    ensures var s := After(Fresh, es);
            && TierOf(s.limits, u) == (if u in s.lost then Free else LastSet(es, u))
            && Persisted(s.table, u) == LastPersisted(es, u)
            && (Rank(TierOf(s.limits, u)) > Rank(Persisted(s.table, u)) <==>
                  u !in s.lost && Rank(LastSet(es, u)) > Rank(LastPersisted(es, u)))
    decreases |es|
  {
    if es != [] {
      var front, last := es[..|es| - 1], es[|es| - 1];
      RunSnoc(Fresh, es);
      TierInForce(front, u);
      StepInForce(After(Fresh, front), last, u, LastSet(front, u), LastPersisted(front, u));
    }
  }

  /** The writes of this user's tiers that are on their way. */
  function InFlight(s: Server, u: string): nat {
    s.flight[(u, Free)] + s.flight[(u, Pro)] + s.flight[(u, Enterprise)]
  }

  /** The user's tier is set only when no earlier write of it is on its way, and its writes
      work. */
  predicate OneAtATime(s: Server, es: seq<Event>, u: string)
    decreases |es|
  {
    es == [] ||
    (&& (es[0].SetTier? && es[0].user == u ==> InFlight(s, u) == 0)
     && (es[0].Persist? && es[0].user == u ==> !es[0].fails)
     && OneAtATime(Step(s, es[0]), es[1..], u))
  }

  /** Either nothing is on its way and memory and table agree, or one write is and it is of
      the tier in force. */
  ghost predicate Settling(s: Server, u: string, set_: Tier, persisted: Tier) {
    || (InFlight(s, u) == 0 && set_ == persisted)
    || (InFlight(s, u) == 1 && s.flight[(u, set_)] == 1)
  }

  lemma StepSettles(s: Server, e: Event, u: string, set_: Tier, persisted: Tier)
    requires Settling(s, u, set_, persisted) && Enabled(s, e)
    requires e.SetTier? && e.user == u ==> InFlight(s, u) == 0
    requires e.Persist? && e.user == u ==> !e.fails
    ensures Settling(Step(s, e), u,
                     if e.SetTier? && e.user == u then e.tier else if e.Restart? then persisted else set_,
                     if e.Persist? && e.user == u && !e.fails then e.tier else persisted)
  {
    match e
    case SetTier(x, tier, _) => assert x != u ==> forall t :: (u, t) != (x, tier);
    case Persist(x, tier, _, _) => if x == u { PersistSettles(s, u, tier, set_); }
    case _ =>
  }

  /** The one write on its way is of the tier in force, and then none is. */
  lemma PersistSettles(s: Server, u: string, tier: Tier, set_: Tier)
    requires s.flight[(u, tier)] > 0
    requires InFlight(s, u) == 0 || (InFlight(s, u) == 1 && s.flight[(u, set_)] == 1)
    ensures tier == set_ && InFlight(s.(flight := s.flight - multiset{(u, tier)}), u) == 0
  {}

  lemma {:induction false} OneAtATimeSnoc(s: Server, es: seq<Event>, u: string)
    requires es != [] && OneAtATime(s, es, u)
    ensures var front, last := es[..|es| - 1], es[|es| - 1];
            && OneAtATime(s, front, u)
            && (last.SetTier? && last.user == u ==> InFlight(After(s, front), u) == 0)
            && (last.Persist? && last.user == u ==> !last.fails)
    decreases |es|
  {
    if |es| == 1 {
      assert es[..0] == [];
    } else {
      OneAtATimeSnoc(Step(s, es[0]), es[1..], u);
      assert es[1..][..|es| - 2] == es[..|es| - 1][1..];
    }
  }

  lemma {:induction false} RunSettles(es: seq<Event>, u: string)
    requires Run(Fresh, es) && OneAtATime(Fresh, es, u)
    ensures Settling(After(Fresh, es), u, LastSet(es, u), LastPersisted(es, u))
    decreases |es|
  {
    if es != [] {
      var front, last := es[..|es| - 1], es[|es| - 1];
      RunSnoc(Fresh, es);
      OneAtATimeSnoc(Fresh, es, u);
      RunSettles(front, u);
      StepSettles(After(Fresh, front), last, u, LastSet(front, u), LastPersisted(front, u));
    }
  }

  /** If the sets of a user do not overlap and their writes work, then whenever none is on
      its way the tier in force is the persisted one, or free if memory has lost the user;
      and it never outranks the table. */
  lemma TierFollowsTable(es: seq<Event>, u: string)
    requires Run(Fresh, es) && OneAtATime(Fresh, es, u) && InFlight(After(Fresh, es), u) == 0
    ensures var s := After(Fresh, es);
            && TierOf(s.limits, u) == (if u in s.lost then Free else Persisted(s.table, u))
            && Rank(TierOf(s.limits, u)) <= Rank(Persisted(s.table, u))
  {
    TierInForce(es, u);
    RunSettles(es, u);
  }

  lemma RunOne(s: Server, e: Event, es: seq<Event>)
    ensures After(s, [e] + es) == After(Step(s, e), es)
    ensures Run(s, [e] + es) <==> Enabled(s, e) && Run(Step(s, e), es)
  {
    assert ([e] + es)[1..] == es;
  }

  lemma OvertakingSteps(u: string, now: int) returns (s1: Server, s2: Server, s3: Server, s4: Server)
    ensures Step(Fresh, SetTier(u, Free, now)) == s1 && Step(s1, SetTier(u, Enterprise, now)) == s2
    ensures Step(s2, Persist(u, Enterprise, now, false)) == s3 && Enabled(s2, Persist(u, Enterprise, now, false))
    ensures Step(s3, Persist(u, Free, now, false)) == s4 && Enabled(s3, Persist(u, Free, now, false))
    ensures s4.flight == multiset{} && TierOf(s4.limits, u) == Enterprise && Persisted(s4.table, u) == Free
  {
    var limits := map[u := Entry(0, now + WINDOW, Enterprise)];
    s1 := Server(map[u := Entry(0, now + WINDOW, Free)], map[], {}, multiset{(u, Free)});
    s2 := Server(limits, map[], {}, multiset{(u, Free), (u, Enterprise)});
    s3 := Server(limits, map[u := Name(Enterprise)], {}, multiset{(u, Free)});
    s4 := Server(limits, map[u := Name(Free)], {}, multiset{});
  }

  /** Otherwise it can, with nothing on its way: two sets whose writes overtake each other
      leave memory at enterprise and the table at free. */
  lemma OvertakingOutranks(u: string, now: int)
    ensures var es := [SetTier(u, Free, now)] + ([SetTier(u, Enterprise, now)] +
                      ([Persist(u, Enterprise, now, false)] + ([Persist(u, Free, now, false)] + [])));
            var s := After(Fresh, es);
            && Run(Fresh, es) && s.flight == multiset{}
            && TierOf(s.limits, u) == Enterprise && Persisted(s.table, u) == Free
  {
    var a, b := SetTier(u, Free, now), SetTier(u, Enterprise, now);
    var c, d := Persist(u, Enterprise, now, false), Persist(u, Free, now, false);
    var s1, s2, s3, s4 := OvertakingSteps(u, now);
    RunOne(s3, d, []);
    RunOne(s2, c, [d] + []);
    RunOne(s1, b, [c] + ([d] + []));
    RunOne(Fresh, a, [b] + ([c] + ([d] + [])));
  }

  /** And a write that fails leaves the user a tier that the table never had. */
  lemma FailingWriteOutranks(u: string, now: int)
    ensures var es := [SetTier(u, Pro, now)] + ([Persist(u, Pro, now, true)] + []);
            var s := After(Fresh, es);
            Run(Fresh, es) && s.flight == multiset{} && TierOf(s.limits, u) == Pro && Persisted(s.table, u) == Free
  {
    var a, b := SetTier(u, Pro, now), Persist(u, Pro, now, true);
    var s1 := Server(map[u := Entry(0, now + WINDOW, Pro)], map[], {}, multiset{(u, Pro)});
    assert Step(Fresh, a) == s1;
    assert Step(s1, b) == s1.(flight := multiset{});
    RunOne(s1, b, []);
    RunOne(Fresh, a, [b] + []);
  }

  // -------------------------------------------------- what a reply lets one predict

  predicate Timed(clock: int, es: seq<Event>, until: int)
    decreases |es|
  {
    clock <= until && (es == [] || (clock <= es[0].now && Timed(es[0].now, es[1..], until)))
  }

  /** No restart, and nobody sets this user's tier. */
  predicate Undisturbed(es: seq<Event>, u: string) {
    forall i :: 0 <= i < |es| ==> !es[i].Restart? && !(es[i].SetTier? && es[i].user == u)
  }

  /** The answers this user's calls get along the run, whatever others do meanwhile. */
  function Outcomes(s: Server, es: seq<Event>, u: string): seq<bool>
    decreases |es|
  {
    if es == [] then []
    else
      (if es[0].Call? && es[0].user == u then [ReplyOf(Charged(s.limits, u, es[0].now), es[0].now).allowed] else [])
      + Outcomes(Step(s, es[0]), es[1..], u)
  }

  lemma {:induction false} WithinWindow(s: Server, clock: int, es: seq<Event>, u: string)
    requires u in s.limits && Undisturbed(es, u) && Timed(clock, es, s.limits[u].windowEnd)
    ensures var e, os := s.limits[u], Outcomes(s, es, u);
            && (forall i :: 0 <= i < |os| ==> (os[i] <==> e.count + i + 1 <= Burst(e.tier)))
            && u in After(s, es).limits
            && After(s, es).limits[u] == e.(count := e.count + |os|)
    decreases |es|
  {
    if es != [] {
      assert Undisturbed(es[1..], u);
      WithinWindow(Step(s, es[0]), es[0].now, es[1..], u);
    }
  }

  /** The `remaining` of a reply is exact: of the user's next calls in the same
      window, precisely that many succeed, and they come first. */
  lemma RemainingIsExact(s: Server, u: string, now: int, es: seq<Event>)
    requires var e := Charged(s.limits, u, now);
             Undisturbed(es, u) && Timed(now, es, e.windowEnd)
    ensures var e := Charged(s.limits, u, now);
            var os := Outcomes(Step(s, Call(u, now)), es, u);
            forall i :: 0 <= i < |os| ==> (os[i] <==> i < ReplyOf(e, now).remaining)
    ensures Remaining(Step(s, Call(u, now)).limits, u, now) == ReplyOf(Charged(s.limits, u, now), now).remaining
  {
    WithinWindow(Step(s, Call(u, now)), now, es, u);
  }

  predicate CallsNot(es: seq<Event>, u: string) { forall i :: 0 <= i < |es| ==> !(es[i].Call? && es[i].user == u) }

  /** While a user makes no call, memory keeps the entry or, long after its window, loses it. */
  lemma {:induction false} QuietUser(s: Server, clock: int, es: seq<Event>, u: string, t: int)
    requires Undisturbed(es, u) && CallsNot(es, u) && Timed(clock, es, t)
    ensures u in After(s, es).limits ==> u in s.limits && After(s, es).limits[u] == s.limits[u]
    ensures u in s.limits && u !in After(s, es).limits ==> t > s.limits[u].windowEnd + GRACE
    decreases |es|
  {
    if es != [] {
      assert Undisturbed(es[1..], u) && CallsNot(es[1..], u);
      QuietUser(Step(s, es[0]), es[0].now, es[1..], u, t);
    }
  }

  /** `GetRemaining` foretells: for any user, known or not, window running or past, and
      whatever others do meanwhile, of the user's calls in the window it speaks of exactly
      the first so many succeed. The one exception is a sweep before the first of those
      calls, which leaves the user the free tier's. */
  lemma RemainingAhead(s: Server, u: string, now: int, idle: seq<Event>, t: int, es: seq<Event>)
    requires Undisturbed(idle, u) && CallsNot(idle, u) && Timed(now, idle, t)
    requires u in s.limits && now <= s.limits[u].windowEnd ==> t <= s.limits[u].windowEnd
    requires Undisturbed(es, u) && Timed(t, es, Charged(After(s, idle).limits, u, t).windowEnd)
    ensures var s' := After(s, idle);
            var os := Outcomes(s', [Call(u, t)] + es, u);
            var swept := u in s.limits && u !in s'.limits;
            forall i :: 0 <= i < |os| ==> (os[i] <==> i < if swept then Burst(Free) else Remaining(s.limits, u, now))
  {
    var s' := After(s, idle);
    var call := Call(u, t);
    QuietUser(s, now, idle, u, t);
    WithinWindow(Step(s', call), t, es, u);
    assert ([call] + es)[1..] == es;
    var (first, rest) := (ReplyOf(Charged(s'.limits, u, t), t).allowed, Outcomes(Step(s', call), es, u));
    assert Outcomes(s', [call] + es, u) == [first] + rest;
  }

  /** Calls up to Retry-After less one second later are all refused. */
  lemma RetryAfterIsNeeded(s: Server, u: string, now: int, es: seq<Event>)
    requires var r := ReplyOf(Charged(s.limits, u, now), now);
             !r.allowed && Undisturbed(es, u) && Timed(now, es, now + (r.retryAfter - 1) * SECOND)
    ensures var os := Outcomes(Step(s, Call(u, now)), es, u);
            forall i :: 0 <= i < |os| ==> !os[i]
  {
    var e := Charged(s.limits, u, now);
    WaitReachesEnd(e.windowEnd - now);
    TimedLonger(now, es, now + (ReplyOf(e, now).retryAfter - 1) * SECOND, e.windowEnd);
    RemainingIsExact(s, u, now, es);
  }

  lemma WaitReachesEnd(d: int)
    requires d >= 0
    ensures d / SECOND * SECOND <= d < (d / SECOND + 1) * SECOND
  {}

  lemma {:induction false} TimedLonger(clock: int, es: seq<Event>, until: int, later: int)
    requires Timed(clock, es, until) && until <= later
    ensures Timed(clock, es, later)
    decreases |es|
  {
    if es != [] { TimedLonger(es[0].now, es[1..], until, later); }
  }

  /** This user's calls after the end of the refused window, and the first of them. */
  function Late(es: seq<Event>, u: string, end: int): seq<int> {
    if es == [] then []
    else (if es[0].Call? && es[0].user == u && es[0].now > end then [es[0].now] else [])
         + Late(es[1..], u, end)
  }

  /** Every call of the user comes before `before`. */
  predicate CallsBefore(es: seq<Event>, u: string, before: int) {
    forall i :: 0 <= i < |es| && es[i].Call? && es[i].user == u ==> es[i].now < before
  }

  /** The refused window, still remembered or already swept away. */
  ghost predicate Exhausted(m: Limits, u: string, clock: int, e: Entry) {
    if u in m then m[u].windowEnd == e.windowEnd && m[u].tier == e.tier && m[u].count > Burst(e.tier)
    else clock > e.windowEnd
  }

  /** A window opened at `start` that has counted `n` calls, or its sweeping. */
  ghost predicate Reopened(m: Limits, u: string, clock: int, tier: Tier, start: int, n: int) {
    if u in m then m[u] == Entry(n, start + WINDOW, tier) else clock > start + WINDOW
  }

  lemma {:induction false} ReopenedRun(s: Server, clock: int, es: seq<Event>, u: string, tier: Tier, start: int,
                                       n: int, end: int, before: int, t: int)
    requires end < start <= clock && before <= start + WINDOW && n >= 1
    requires Reopened(s.limits, u, clock, tier, start, n)
    requires Undisturbed(es, u) && Timed(clock, es, t) && CallsBefore(es, u, before)
    ensures Reopened(After(s, es).limits, u, t, tier, start, n + |Late(es, u, end)|)
    decreases |es|
  {
    if es != [] {
      assert Undisturbed(es[1..], u) && CallsBefore(es[1..], u, before);
      var more := if es[0].Call? && es[0].user == u then 1 else 0;
      ReopenedRun(Step(s, es[0]), es[0].now, es[1..], u, tier, start, n + more, end, before, t);
    }
  }

  lemma {:induction false} ExhaustedRun(s: Server, clock: int, es: seq<Event>, u: string, e: Entry, before: int, t: int)
    requires Exhausted(s.limits, u, clock, e) && before <= e.windowEnd + WINDOW
    requires Undisturbed(es, u) && Timed(clock, es, t) && CallsBefore(es, u, before)
    requires u in s.limits || clock >= before
    ensures var late := Late(es, u, e.windowEnd);
            if late == [] then Exhausted(After(s, es).limits, u, t, e)
            else Reopened(After(s, es).limits, u, t, e.tier, late[0], |late|)
    decreases |es|
  {
    if es != [] {
      assert Undisturbed(es[1..], u) && CallsBefore(es[1..], u, before);
      var now := es[0].now;
      assert es[0].Call? && es[0].user == u ==> now < before;
      if es[0].Call? && es[0].user == u && now > e.windowEnd {
        ReopenedRun(Step(s, es[0]), now, es[1..], u, e.tier, now, 1, e.windowEnd, before, t);
        assert Late(es, u, e.windowEnd) == [now] + Late(es[1..], u, e.windowEnd);
      } else {
        ExhaustedRun(Step(s, es[0]), now, es[1..], u, e, before, t);
      }
    }
  }

  /** After a refusal, the first call at or after Retry-After succeeds exactly when the
      user has not already used up the next window in the last fraction of a second. */
  lemma RetryAfterSuffices(s: Server, u: string, now: int, es: seq<Event>, t: int)
    requires var r := ReplyOf(Charged(s.limits, u, now), now);
             && !r.allowed && t >= now + r.retryAfter * SECOND
             && Undisturbed(es, u) && Timed(now, es, t) && CallsBefore(es, u, now + r.retryAfter * SECOND)
    ensures var e := Charged(s.limits, u, now);
            var late := Late(es, u, e.windowEnd);
            var s' := After(Step(s, Call(u, now)), es);
            ReplyOf(Charged(s'.limits, u, t), t).allowed
            <==> |late| < Burst(e.tier) || t > late[0] + WINDOW
  {
    var e := Charged(s.limits, u, now);
    var r := ReplyOf(e, now);
    WaitReachesEnd(e.windowEnd - now);
    ExhaustedRun(Step(s, Call(u, now)), now, es, u, e, now + r.retryAfter * SECOND, t);
  }

  function Repeat(e: Event, n: nat): seq<Event> {
    seq(n, _ => e)
  }

  lemma {:induction false} RepeatedCalls(u: string, at: int, n: nat, end: int, until: int)
    requires end < at <= until
    ensures Timed(at, Repeat(Call(u, at), n), until)
    ensures |Late(Repeat(Call(u, at), n), u, end)| == n
    ensures n > 0 ==> Late(Repeat(Call(u, at), n), u, end)[0] == at
  {
    if n > 0 {
      assert Repeat(Call(u, at), n)[1..] == Repeat(Call(u, at), n - 1);
      RepeatedCalls(u, at, n - 1, end, until);
    }
  }

  lemma {:induction false} CallsAddUp(u: string, at: int, k: nat, n: nat)
    ensures After(Server(map[u := Entry(k, at + WINDOW, Free)], map[], {}, multiset{}), Repeat(Call(u, at), n)) ==
            Server(map[u := Entry(k + n, at + WINDOW, Free)], map[], {}, multiset{})
    decreases n
  {
    if n > 0 {
      var s := Server(map[u := Entry(k, at + WINDOW, Free)], map[], {}, multiset{});
      assert Step(s, Call(u, at)) == Server(map[u := Entry(k + 1, at + WINDOW, Free)], map[], {}, multiset{});
      assert Repeat(Call(u, at), n)[1..] == Repeat(Call(u, at), n - 1);
      CallsAddUp(u, at, k + 1, n - 1);
    }
  }

  lemma SixtyCalls(u: string, at: int)
    ensures After(Fresh, Repeat(Call(u, at), 60)) ==
            Server(map[u := Entry(60, at + WINDOW, Free)], map[], {}, multiset{})
  {
    assert Step(Fresh, Call(u, at)) == Server(map[u := Entry(1, at + WINDOW, Free)], map[], {}, multiset{});
    assert Repeat(Call(u, at), 60)[1..] == Repeat(Call(u, at), 59);
    CallsAddUp(u, at, 1, 59);
  }

  /** Waiting Retry-After is not always enough: after 60 calls, refused at the very end of
      its window, a free user who makes 60 calls one nanosecond later is refused a second
      later. */
  lemma ImpatienceDefeatsRetryAfter(start: int)
    ensures var s := After(Fresh, Repeat(Call("u", start), 60));
            var end := start + WINDOW;
            var r := ReplyOf(Charged(s.limits, "u", end), end);
            var s' := After(Step(s, Call("u", end)), Repeat(Call("u", end + 1), 60));
            var t := end + r.retryAfter * SECOND;
            !r.allowed && r.retryAfter == 1 && !ReplyOf(Charged(s'.limits, "u", t), t).allowed
  {
    var end := start + WINDOW;
    SixtyCalls("u", start);
    var s := Server(map["u" := Entry(60, end, Free)], map[], {}, multiset{});
    var es := Repeat(Call("u", end + 1), 60);
    RepeatedCalls("u", end + 1, 60, end, end + SECOND);
    assert Timed(end, es, end + SECOND);
    RetryAfterSuffices(s, "u", end, es, end + SECOND);
  }
}
