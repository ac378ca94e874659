/** The heartbeat monitor (`checkStaleAgents`, server/hub.go) beside the hub: it reads the
    clock, selects the silent agents under the read lock, and only later sends them to be
    unregistered one by one. */
module Heartbeats {
  import opened Common
  import opened Frames
  import opened HubModel
  import opened HubRuns

  /** The hub, the latest clock reading, and the connections selected and not yet sent to
      be unregistered. */
  datatype Watched<C(==)> = Watched(hub: Hub<C>, clock: int, condemned: set<C>)

  datatype Deed<C> =
    | Do(e: Event<C>)
    | Check(now: int)
    | Evict(c: C)

  /** The agents that a check selects. */
  ghost predicate Stale<C>(h: Hub<C>, c: C, now: int, timeout: int) {
    Registered(h, c) && h.conns[c].kind == Agent && now - h.conns[c].heartbeat > timeout
  }

  /** Registrations and beats read the clock under the lock; a check may have read it some
      time before it selects. */
  predicate WEnabled<C>(w: Watched<C>, d: Deed<C>) {
    match d
    case Do(e) => Enabled(w.hub, e) && (e.Register? || e.Touch? ==> w.clock <= e.now)
    case Check(_) => true
    case Evict(c) => c in w.condemned && Enabled(w.hub, Unregister(c))
  }

  ghost function WStep<C>(w: Watched<C>, timeout: int, d: Deed<C>): Watched<C>
    requires WEnabled(w, d)
  {
    match d
    case Do(e) => Watched(Step(w.hub, e), if e.Register? || e.Touch? then e.now else w.clock, w.condemned)
    case Check(now) =>
      Watched(w.hub, Max(w.clock, now), w.condemned + set c | c in w.hub.conns && Stale(w.hub, c, now, timeout))
    case Evict(c) => Watched(Step(w.hub, Unregister(c)), w.clock, w.condemned - {c})
  }

  ghost predicate WRun<C>(w: Watched<C>, timeout: int, ds: seq<Deed<C>>)
    decreases |ds|
  {
    ds == [] || (WEnabled(w, ds[0]) && WRun(WStep(w, timeout, ds[0]), timeout, ds[1..]))
  }

  ghost function WAfter<C>(w: Watched<C>, timeout: int, ds: seq<Deed<C>>): Watched<C>
    requires WRun(w, timeout, ds)
    decreases |ds|
  {
    if ds == [] then w else WAfter(WStep(w, timeout, ds[0]), timeout, ds[1..])
  }

  function Quiet<C>(clock: int): Watched<C> { Watched(Empty(), clock, {}) }

  /** Only connections that were registered at some time are condemned, so the monitor can
      always go on to evict them. */
  ghost predicate WOk<C>(w: Watched<C>) {
    Inv(w.hub) && forall c :: c in w.condemned ==> Enabled(w.hub, Unregister(c))
  }

  lemma WStepOk<C>(w: Watched<C>, timeout: int, d: Deed<C>)
    requires WOk(w) && WEnabled(w, d)
    ensures WOk(WStep(w, timeout, d))
  {
    var v := WStep(w, timeout, d);
    if d.Check? {
      forall c | c in v.condemned ensures Enabled(v.hub, Unregister(c)) {
        if Registered(w.hub, c) { RegisteredIsOpen(w.hub, c); }
      }
    } else {
      var e := if d.Do? then d.e else Unregister(d.c);
      StepKeepsInv(w.hub, e);
      forall c | c in v.condemned ensures Enabled(v.hub, Unregister(c)) { StepSameOne(w.hub, e, c); }
    }
  }

  lemma {:induction false} WRunOk<C>(w: Watched<C>, timeout: int, ds: seq<Deed<C>>)
    requires WOk(w) && WRun(w, timeout, ds)
    ensures WOk(WAfter(w, timeout, ds))
    decreases |ds|
  {
    if ds != [] {
      WStepOk(w, timeout, ds[0]);
      WRunOk(WStep(w, timeout, ds[0]), timeout, ds[1..]);
    }
  }

  // ------------------------------------------------------------- a connection's life

  /** Nobody unregisters `x` on its own account or registers a replacement; evictions by
      the monitor are not restricted. */
  ghost predicate Undisturbed<C>(w: Watched<C>, timeout: int, ds: seq<Deed<C>>, x: C)
    requires WRun(w, timeout, ds)
    decreases |ds|
  {
    ds == [] ||
    ((ds[0].Do? ==> Spares(w.hub, ds[0].e, x)) && Undisturbed(WStep(w, timeout, ds[0]), timeout, ds[1..], x))
  }

  /** No check of the run selects `x`. */
  ghost predicate Unselected<C>(w: Watched<C>, timeout: int, ds: seq<Deed<C>>, x: C)
    requires WRun(w, timeout, ds)
    decreases |ds|
  {
    ds == [] ||
    (&& (ds[0].Check? ==> !Stale(w.hub, x, ds[0].now, timeout))
     && Unselected(WStep(w, timeout, ds[0]), timeout, ds[1..], x))
  }

  lemma WStepSpares<C>(w: Watched<C>, timeout: int, d: Deed<C>, x: C)
    requires WOk(w) && WEnabled(w, d) && Registered(w.hub, x) && x !in w.condemned
    requires d.Do? ==> Spares(w.hub, d.e, x)
    requires d.Check? ==> !Stale(w.hub, x, d.now, timeout)
    ensures Registered(WStep(w, timeout, d).hub, x) && x !in WStep(w, timeout, d).condemned
  {
    if !d.Check? { StepSpares(w.hub, if d.Do? then d.e else Unregister(d.c), x); }
  }

  lemma {:induction false} UnselectedStays<C>(w: Watched<C>, timeout: int, ds: seq<Deed<C>>, x: C)
    requires WOk(w) && WRun(w, timeout, ds) && Registered(w.hub, x) && x !in w.condemned
    requires Undisturbed(w, timeout, ds, x) && Unselected(w, timeout, ds, x)
    ensures Registered(WAfter(w, timeout, ds).hub, x) && x !in WAfter(w, timeout, ds).condemned
    decreases |ds|
  {
    if ds != [] {
      WStepSpares(w, timeout, ds[0], x);
      WStepOk(w, timeout, ds[0]);
      UnselectedStays(WStep(w, timeout, ds[0]), timeout, ds[1..], x);
    }
  }

  lemma RegisterJoins<C>(h: Hub<C>, x: C, now: int)
    requires Inv(h) && Enabled(h, Register(x, now))
    ensures Registered(Step(h, Register(x, now)), x)
    ensures h.conns[x].kind == Agent ==> Step(h, Register(x, now)).conns[x].heartbeat == now
  {
    if h.conns[x].kind == Client {
      RegisterClientList(h, x);
      var cs, i := Devices(h, h.conns[x].id), Slot(h, h.conns[x].id, h.conns[x].device);
      assert RegisterClient(h, x).clients[h.conns[x].id][i] == x;
    }
  }

  /** The state in which `x` has just been registered, after any run. */
  ghost function Joining<C>(clock: int, timeout: int, before: seq<Deed<C>>, x: C, now: int): Watched<C>
    requires WRun(Quiet(clock), timeout, before)
    requires WEnabled(WAfter(Quiet(clock), timeout, before), Do(Register(x, now)))
  {
    WStep(WAfter(Quiet(clock), timeout, before), timeout, Do(Register(x, now)))
  }

  lemma JoiningOk<C>(clock: int, timeout: int, before: seq<Deed<C>>, x: C, now: int)
    requires WRun(Quiet(clock), timeout, before)
    requires WEnabled(WAfter(Quiet(clock), timeout, before), Do(Register(x, now)))
    ensures var w := Joining(clock, timeout, before, x, now);
            && WOk(w) && Registered(w.hub, x) && x !in w.condemned && w.clock == now
            && w.hub.conns[x].kind == WAfter(Quiet(clock), timeout, before).hub.conns[x].kind
            && (w.hub.conns[x].kind == Agent ==> w.hub.conns[x].heartbeat == now)
  {
    WRunOk(Quiet<C>(clock), timeout, before);
    var v := WAfter(Quiet(clock), timeout, before);
    RegisterJoins(v.hub, x, now);
    StepSameOne(v.hub, Register(x, now), x);
    WStepOk(v, timeout, Do(Register(x, now)));
  }

  /** A connection that is registered after a snapshot was taken is not in it: whatever was
      selected before, and whenever it is evicted, a newcomer that no later check selects
      stays registered, with its channel open. */
  lemma NewcomerSurvives<C>(clock: int, timeout: int, before: seq<Deed<C>>, x: C, now: int, ds: seq<Deed<C>>)
    requires WRun(Quiet(clock), timeout, before)
    requires WEnabled(WAfter(Quiet(clock), timeout, before), Do(Register(x, now)))
    requires var w := Joining(clock, timeout, before, x, now);
             WRun(w, timeout, ds) && Undisturbed(w, timeout, ds, x) && Unselected(w, timeout, ds, x)
    ensures var v := WAfter(Joining(clock, timeout, before, x, now), timeout, ds);
            Registered(v.hub, x) && v.hub.conns[x].closes == 0 && x !in v.condemned
  {
    var w := Joining(clock, timeout, before, x, now);
    JoiningOk(clock, timeout, before, x, now);
    UnselectedStays(w, timeout, ds, x);
    WRunOk(w, timeout, ds);
    RegisteredIsOpen(WAfter(w, timeout, ds).hub, x);
  }

  // --------------------------------------------------------------------- beat by beat

  function Beats<C(==)>(ds: seq<Deed<C>>, x: C): seq<int> {
    if ds == [] then []
    else (if ds[0].Do? && ds[0].e.Touch? && ds[0].e.c == x then [ds[0].e.now] else []) + Beats(ds[1..], x)
  }

  function Checks<C>(ds: seq<Deed<C>>): seq<int> {
    if ds == [] then [] else (if ds[0].Check? then [ds[0].now] else []) + Checks(ds[1..])
  }

  /** No two neighbours further apart than `gap`. */
  ghost predicate Steady(ts: seq<int>, gap: int) {
    forall i :: 0 < i < |ts| ==> ts[i] <= ts[i - 1] + gap
  }

  lemma SteadyTail(t: int, ts: seq<int>, gap: int)
    requires Steady([t] + ts, gap) && ts != []
    ensures Steady(ts, gap) && ts[0] <= t + gap
  {
    var all := [t] + ts;
    assert all[1] == ts[0] && all[0] == t;
    forall i | 0 < i < |ts| ensures ts[i] <= ts[i - 1] + gap { assert all[i + 1] == ts[i] && all[i] == ts[i - 1]; }
  }

  lemma RegisterBeat<C>(h: Hub<C>, c: C, now: int, x: C)
    requires x in h.conns && h.conns[x].joined && Enabled(h, Register(c, now))
    ensures var k := Step(h, Register(c, now)); x in k.conns && k.conns[x].heartbeat == h.conns[x].heartbeat
  {}

  lemma UnregisterBeat<C>(h: Hub<C>, c: C, x: C)
    requires x in h.conns && Enabled(h, Unregister(c))
    ensures var k := Step(h, Unregister(c)); x in k.conns && k.conns[x].heartbeat == h.conns[x].heartbeat
  {}

  lemma StepBeat<C>(h: Hub<C>, e: Event<C>, x: C)
    requires x in h.conns && h.conns[x].joined && Enabled(h, e)
    ensures var k := Step(h, e);
            x in k.conns && k.conns[x].heartbeat == if e.Touch? && e.c == x then e.now else h.conns[x].heartbeat
  {
    match e
    case Register(c, now) => RegisterBeat(h, c, now, x);
    case Unregister(c) => UnregisterBeat(h, c, x);
    case _ =>
  }

  lemma WStepBeat<C>(w: Watched<C>, timeout: int, d: Deed<C>, x: C)
    requires WEnabled(w, d) && x in w.hub.conns && w.hub.conns[x].joined
    ensures var v := WStep(w, timeout, d);
            && x in v.hub.conns && v.hub.conns[x].kind == w.hub.conns[x].kind && v.hub.conns[x].joined
            && w.clock <= v.clock && (d.Check? ==> d.now <= v.clock)
            && v.hub.conns[x].heartbeat
               == if d.Do? && d.e.Touch? && d.e.c == x then d.e.now else w.hub.conns[x].heartbeat
  {
    if !d.Check? {
      var e := if d.Do? then d.e else Unregister(d.c);
      StepBeat(w.hub, e, x);
      StepSameOne(w.hub, e, x);
    }
  }

  /** The next beat, or else the end of the run, comes at or after this moment. */
  lemma {:induction false} NextBeatLater<C>(w: Watched<C>, timeout: int, ds: seq<Deed<C>>, x: C)
    requires WRun(w, timeout, ds)
    ensures w.clock <= (Beats(ds, x) + [WAfter(w, timeout, ds).clock])[0]
    decreases |ds|
  {
    if ds != [] {
      NextBeatLater(WStep(w, timeout, ds[0]), timeout, ds[1..], x);
    }
  }

  /** An agent whose beats, from `heartbeat` to the end of the run, are no further apart
      than the timeout is selected by no check of the run. */
  lemma {:induction false} SteadyIsUnselected<C>(w: Watched<C>, timeout: int, ds: seq<Deed<C>>, x: C)
    requires WRun(w, timeout, ds) && x in w.hub.conns && w.hub.conns[x].joined
    requires Steady([w.hub.conns[x].heartbeat] + (Beats(ds, x) + [WAfter(w, timeout, ds).clock]), timeout)
    ensures Unselected(w, timeout, ds, x)
    decreases |ds|
  {
    if ds != [] {
      var v, hb := WStep(w, timeout, ds[0]), w.hub.conns[x].heartbeat;
      var left := Beats(ds[1..], x) + [WAfter(v, timeout, ds[1..]).clock];
      WStepBeat(w, timeout, ds[0], x);
      NextBeatLater(v, timeout, ds[1..], x);
      if v.hub.conns[x].heartbeat != hb || (ds[0].Do? && ds[0].e.Touch? && ds[0].e.c == x) {
        assert Beats(ds, x) + [WAfter(w, timeout, ds).clock] == [ds[0].e.now] + left;
        SteadyTail(hb, [ds[0].e.now] + left, timeout);
      } else {
        assert Beats(ds, x) == Beats(ds[1..], x);
        SteadyTail(hb, left, timeout);
      }
      SteadyIsUnselected(v, timeout, ds[1..], x);
    }
  }

  /** An agent that beats at gaps of at most the timeout, from its registration to the end
      of the run, is still registered then, whatever the monitor evicted meanwhile. */
  lemma BeatingAgentStays<C>(clock: int, timeout: int, before: seq<Deed<C>>, x: C, now: int, ds: seq<Deed<C>>)
    requires WRun(Quiet(clock), timeout, before)
    requires WEnabled(WAfter(Quiet(clock), timeout, before), Do(Register(x, now)))
    requires WAfter(Quiet(clock), timeout, before).hub.conns[x].kind == Agent
    requires var w := Joining(clock, timeout, before, x, now);
             && WRun(w, timeout, ds) && Undisturbed(w, timeout, ds, x)
             && Steady([now] + (Beats(ds, x) + [WAfter(w, timeout, ds).clock]), timeout)
    ensures var w := Joining(clock, timeout, before, x, now);
            && Unselected(w, timeout, ds, x)
            && Registered(WAfter(w, timeout, ds).hub, x) && WAfter(w, timeout, ds).hub.conns[x].closes == 0
  {
    var w := Joining(clock, timeout, before, x, now);
    JoiningOk(clock, timeout, before, x, now);
    RegisteredIsOpen(w.hub, x);
    SteadyIsUnselected(w, timeout, ds, x);
    NewcomerSurvives(clock, timeout, before, x, now, ds);
  }

  // -------------------------------------------------------------------- missed beats

  /** The start-up clamp of server/main.go. */
  function Clamp(interval: int, timeout: int): (t: int)
    ensures t >= 2 * interval && t >= timeout && (timeout >= 2 * interval ==> t == timeout)
  {
    if timeout < interval * 2 then interval * 2 else timeout
  }

  /** The planned beats that were sent. */
  function Sent(plan: seq<int>, sent: seq<bool>): seq<int>
    requires |plan| == |sent|
  {
    if plan == [] then []
    else Sent(plan[..|plan| - 1], sent[..|plan| - 1]) + (if sent[|plan| - 1] then [plan[|plan| - 1]] else [])
  }

  /** The first was sent, and no two in a row were missed. */
  ghost predicate MissesAreSingle(sent: seq<bool>) {
    && (|sent| > 0 ==> sent[0])
    && forall i :: 0 < i < |sent| ==> sent[i - 1] || sent[i]
  }

  lemma SteadySnoc(ts: seq<int>, t: int, gap: int)
    requires Steady(ts, gap) && (ts != [] ==> t <= ts[|ts| - 1] + gap)
    ensures Steady(ts + [t], gap)
  {}

  lemma SteadyInit(ts: seq<int>, gap: int)
    requires Steady(ts, gap) && ts != []
    ensures Steady(ts[..|ts| - 1], gap)
  {}

  /** Leaving out single beats of a plan doubles the gaps at most. */
  lemma {:induction false} SingleMisses(plan: seq<int>, sent: seq<bool>, interval: int)
    requires |plan| == |sent| && plan != [] && Steady(plan, interval) && MissesAreSingle(sent) && interval >= 0
    ensures var got := Sent(plan, sent);
            && got != [] && Steady(got, 2 * interval)
            && plan[|plan| - 1] <= got[|got| - 1] + (if sent[|sent| - 1] then 0 else interval)
    decreases |plan|
  {
    var n := |plan| - 1;
    if n > 0 {
      SteadyInit(plan, interval);
      SingleMisses(plan[..n], sent[..n], interval);
      if sent[n] { SteadySnoc(Sent(plan[..n], sent[..n]), plan[n], 2 * interval); }
    }
  }

  /** Whatever timeout is configured, an agent that plans a beat every interval from its
      registration on, and sends all of them but never two in a row, stays registered. */
  lemma MissedBeatsSurvive<C>(clock: int, interval: int, configured: int, before: seq<Deed<C>>, x: C, now: int,
                              ds: seq<Deed<C>>, plan: seq<int>, sent: seq<bool>)
    requires interval >= 0 && WRun(Quiet(clock), Clamp(interval, configured), before)
    requires WEnabled(WAfter(Quiet(clock), Clamp(interval, configured), before), Do(Register(x, now)))
    requires WAfter(Quiet(clock), Clamp(interval, configured), before).hub.conns[x].kind == Agent
    requires |plan| == |sent| && plan != [] && Steady(plan, interval) && MissesAreSingle(sent)
    requires var timeout := Clamp(interval, configured);
             var w := Joining(clock, timeout, before, x, now);
             && WRun(w, timeout, ds) && Undisturbed(w, timeout, ds, x)
             && [now] + Beats(ds, x) == Sent(plan, sent)
             && WAfter(w, timeout, ds).clock <= plan[|plan| - 1] + interval
    ensures var timeout := Clamp(interval, configured);
            var w := Joining(clock, timeout, before, x, now);
            && Unselected(w, timeout, ds, x)
            && Registered(WAfter(w, timeout, ds).hub, x) && WAfter(w, timeout, ds).hub.conns[x].closes == 0
  {
    var timeout := Clamp(interval, configured);
    var end := WAfter(Joining(clock, timeout, before, x, now), timeout, ds).clock;
    SingleMisses(plan, sent, interval);
    SteadySnoc(Sent(plan, sent), end, 2 * interval);
    assert Sent(plan, sent) + [end] == [now] + (Beats(ds, x) + [end]);
    BeatingAgentStays(clock, timeout, before, x, now, ds);
  }

  // ------------------------------------------------------------------ silent agents

  lemma {:induction false} HeartbeatIsLastBeat<C>(w: Watched<C>, timeout: int, ds: seq<Deed<C>>, x: C)
    requires WRun(w, timeout, ds) && x in w.hub.conns && w.hub.conns[x].joined
    ensures var v, beats := WAfter(w, timeout, ds), [w.hub.conns[x].heartbeat] + Beats(ds, x);
            && x in v.hub.conns && v.hub.conns[x].kind == w.hub.conns[x].kind
            && v.hub.conns[x].heartbeat == beats[|beats| - 1]
    decreases |ds|
  {
    if ds != [] {
      WStepBeat(w, timeout, ds[0], x);
      HeartbeatIsLastBeat(WStep(w, timeout, ds[0]), timeout, ds[1..], x);
    }
  }

  /** After any run an agent is selected exactly when it is still registered and its last
      beat is more than the timeout ago. */
  lemma StaleIffSilent<C>(w: Watched<C>, timeout: int, ds: seq<Deed<C>>, x: C, now: int)
    requires WRun(w, timeout, ds) && x in w.hub.conns && w.hub.conns[x].joined && w.hub.conns[x].kind == Agent
    ensures var beats := [w.hub.conns[x].heartbeat] + Beats(ds, x);
            Stale(WAfter(w, timeout, ds).hub, x, now, timeout) <==>
            Registered(WAfter(w, timeout, ds).hub, x) && now > beats[|beats| - 1] + timeout
  {
    HeartbeatIsLastBeat(w, timeout, ds, x);
  }

  /** One step of an agent that does not beat and is not selected. */
  lemma StaysWhileSilent<C>(w: Watched<C>, timeout: int, d: Deed<C>, x: C)
    requires WOk(w) && WEnabled(w, d) && Registered(w.hub, x) && w.hub.conns[x].kind == Agent && x !in w.condemned
    requires d.Do? ==> Spares(w.hub, d.e, x) && !(d.e.Touch? && d.e.c == x)
    requires d.Check? ==> d.now <= w.hub.conns[x].heartbeat + timeout
    ensures var v := WStep(w, timeout, d);
            && WOk(v) && Registered(v.hub, x) && x !in v.condemned && v.hub.conns[x].kind == Agent
            && v.hub.conns[x].heartbeat == w.hub.conns[x].heartbeat
  {
    RegisteredIsOpen(w.hub, x);
    WStepOk(w, timeout, d);
    WStepBeat(w, timeout, d, x);
    WStepSpares(w, timeout, d, x);
  }

  /** Checks at most one interval apart, from before the deadline and an interval until
      after the deadline. */
  ghost predicate Watchful(checks: seq<int>, interval: int, deadline: int) {
    && checks != [] && Steady(checks, interval)
    && checks[0] <= deadline + interval && checks[|checks| - 1] > deadline
  }

  lemma WatchfulOn(now: int, checks: seq<int>, interval: int, deadline: int)
    requires Watchful([now] + checks, interval, deadline) && now <= deadline
    ensures Watchful(checks, interval, deadline)
  {
    var all := [now] + checks;
    assert all[0] == now && all[|all| - 1] == if checks == [] then now else checks[|checks| - 1];
    SteadyTail(now, checks, interval);
  }

  /** With checks at most one interval apart, an agent that has fallen silent is selected:
      by the first check after its last beat and the timeout, no later than one interval
      after that, and by none before. */
  lemma {:induction false} SilentIsCaught<C>(w: Watched<C>, timeout: int, ds: seq<Deed<C>>, x: C, interval: int)
    returns (i: nat)
    requires WOk(w) && WRun(w, timeout, ds) && Registered(w.hub, x) && w.hub.conns[x].kind == Agent
    requires x !in w.condemned && Undisturbed(w, timeout, ds, x) && Beats(ds, x) == []
    requires Watchful(Checks(ds), interval, w.hub.conns[x].heartbeat + timeout)
    ensures i < |ds| && ds[i].Check? && WRun(w, timeout, ds[..i])
    ensures w.hub.conns[x].heartbeat + timeout < ds[i].now <= w.hub.conns[x].heartbeat + timeout + interval
    ensures Stale(WAfter(w, timeout, ds[..i]).hub, x, ds[i].now, timeout)
    ensures Unselected(w, timeout, ds[..i], x)
    decreases |ds|
  {
    var d, limit := ds[0], w.hub.conns[x].heartbeat + timeout;
    if d.Check? && d.now > limit {
      i := 0;
    } else {
      var v := WStep(w, timeout, d);
      StaysWhileSilent(w, timeout, d, x);
      if d.Check? {
        assert Checks(ds) == [d.now] + Checks(ds[1..]);
        WatchfulOn(d.now, Checks(ds[1..]), interval, limit);
      } else {
        assert Checks(ds) == Checks(ds[1..]);
      }
      var k := SilentIsCaught(v, timeout, ds[1..], x, interval);
      i := k + 1;
      assert ds[..i][1..] == ds[1..][..k];
    }
  }
}
