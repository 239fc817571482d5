/** The bound of Liveness is the best possible: one millisecond more and there is a run,
    on time in every respect, in which a living door is declared offline. */
module LivenessBound {
  import opened Text
  import opened Pending
  import opened HubModel
  import opened HubRuns
  import opened DoorReporter
  import opened DoorHub
  import opened Replica
  import opened Liveness

  function Still(t: int): Reading { Reading(false, false, false, false, t) }

  ghost predicate Quiet(v: World)
  {
    v.door.socketOpen && v.door.beat && v.door.prevValid && v.door.prev == Still(0) && v.door.period > 0
  }

  /** `u` is `v` after quiet updates up to time `t`: the hub has not moved, and whatever
      was put on the wire was sent after `v`; if the next heartbeat was not yet due,
      nothing was. */
  ghost predicate Idled(v: World, u: World, t: int)
  {
    && Quiet(u)
    && u == v.(door := v.door.(lastHeartbeatMs := u.door.lastHeartbeatMs), wire := u.wire, lastUpdate := t)
    && (forall f | f in u.wire :: f in v.wire || f.sentAt > v.lastUpdate)
    && (t - v.door.lastHeartbeatMs < v.door.period ==>
       u.wire == v.wire && u.door.lastHeartbeatMs == v.door.lastHeartbeatMs)
  }

  lemma StepIdles(v: World, u: World)
    requires Idled(v, u, u.lastUpdate) && v.lastUpdate <= u.lastUpdate
    ensures Idled(v, Happens(u, Updates(Still(u.lastUpdate + 1))), u.lastUpdate + 1)
  {
    var t := u.lastUpdate + 1;
    var w := Happens(u, Updates(Still(t)));
    assert forall f | f in w.wire :: f in u.wire || f.sentAt == t;
    assert EventsFor(u.door, Still(t)) == [];
    if t - v.door.lastHeartbeatMs < v.door.period {
      assert Stamp(Sends(u.door, Still(t)), t) == [];
      assert w.wire == u.wire;
    }
  }

  /** `k` updates without any change, one every millisecond. */
  lemma {:induction false} IdleRun(v: World, k: nat, gap: int, delay: int) returns (es: seq<Happening>)
    requires Quiet(v) && gap >= 1
    ensures Idled(v, Unfold(v, es), v.lastUpdate + k) && Timely(v, es, gap, delay)
    ensures forall e | e in es :: e.Updates?
  {
    if k == 0 {
      NothingIdles(v, gap, delay);
      es := [];
    } else {
      var before := IdleRun(v, k - 1, gap, delay);
      es := OneMoreIdle(v, before, v.lastUpdate + k - 1, gap, delay);
    }
  }

  lemma NothingIdles(v: World, gap: int, delay: int)
    requires Quiet(v)
    ensures Idled(v, Unfold(v, []), v.lastUpdate) && Timely(v, [], gap, delay)
  {
  }

  lemma OneMoreIdle(v: World, before: seq<Happening>, t: int, gap: int, delay: int) returns (es: seq<Happening>)
    requires Idled(v, Unfold(v, before), t) && Timely(v, before, gap, delay) && gap >= 1 && v.lastUpdate <= t
    requires forall e | e in before :: e.Updates?
    ensures Idled(v, Unfold(v, es), t + 1) && Timely(v, es, gap, delay)
    ensures forall e | e in es :: e.Updates?
  {
    var u, e := Unfold(v, before), Updates(Still(t + 1));
    es := before + [e];
    UnfoldOne(v, before, e);
    StepIdles(v, u);
    assert OnTime(u, e, gap, delay);
    TimelyOne(v, before, e, gap, delay);
  }

  lemma UnfoldOne(w: World, a: seq<Happening>, e: Happening)
    ensures Unfold(w, a + [e]) == Happens(Unfold(w, a), e)
  {
    assert (a + [e])[..|a|] == a;
  }

  lemma TimelyOne(w: World, a: seq<Happening>, e: Happening, gap: int, delay: int)
    requires Timely(w, a, gap, delay) && OnTime(Unfold(w, a), e, gap, delay)
    ensures Timely(w, a + [e], gap, delay)
  {
    forall k | 0 <= k < |a + [e]| ensures OnTime(Unfold(w, (a + [e])[..k]), (a + [e])[k], gap, delay) {
      assert (a + [e])[..k] == a[..k];
      if k == |a| { assert a[..k] == a; }
    }
  }

  lemma {:induction false} UnfoldAppend(w: World, a: seq<Happening>, b: seq<Happening>)
    ensures Unfold(w, a + b) == Unfold(Unfold(w, a), b)
  {
    if b == [] {
      assert a + b == a;
    } else {
      assert (a + b)[..|a + b| - 1] == a + b[..|b| - 1];
      UnfoldAppend(w, a, b[..|b| - 1]);
    }
  }

  lemma StillOnTime(w: World, a: seq<Happening>, b: seq<Happening>, k: nat, gap: int, delay: int)
    requires Timely(w, a, gap, delay) && Timely(Unfold(w, a), b, gap, delay) && k < |a + b|
    ensures OnTime(Unfold(w, (a + b)[..k]), (a + b)[k], gap, delay)
  {
    if k < |a| {
      assert (a + b)[..k] == a[..k] && (a + b)[k] == a[k];
    } else {
      var j := k - |a|;
      assert (a + b)[..k] == a + b[..j] && (a + b)[k] == b[j];
      UnfoldAppend(w, a, b[..j]);
    }
  }

  lemma {:induction false} RunsJoin(w: World, a: seq<Happening>, b: seq<Happening>, gap: int, delay: int)
    requires Timely(w, a, gap, delay) && Timely(Unfold(w, a), b, gap, delay)
    ensures Timely(w, a + b, gap, delay) && Unfold(w, a + b) == Unfold(Unfold(w, a), b)
  {
    UnfoldAppend(w, a, b);
    forall k | 0 <= k < |a + b| ensures OnTime(Unfold(w, (a + b)[..k]), (a + b)[k], gap, delay) {
      StillOnTime(w, a, b, k, gap, delay);
    }
  }

  lemma OneEvent(w: World, e: Happening, gap: int, delay: int)
    requires OnTime(w, e, gap, delay)
    ensures Timely(w, [e], gap, delay) && Unfold(w, [e]) == Happens(w, e)
  {
    assert [e][..0] == [];
  }

  // ---------- the run ----------

  const MODULE := "D1"
  const SOMEWHERE := Addr(0, 0)

  function FreshWorld(period: int): World
  {
    World(Door(MODULE, true, true, period, true, false, Still(0), 0), [InFlight(Hello, 0)], InitHub(), 0, false, 0, 0)
  }

  /** The module has its row, with no heartbeat later than 0, and is not offline. */
  ghost predicate Heard(h: Hub)
  {
    && h.due == Nothing && SoleRow(h.doors, MODULE) && HasRow(h.doors, MODULE) && CanHaveRow(h.doors, MODULE)
    && TheRow(h.doors, MODULE).lastHeartbeatMs == 0 && !TheRow(h.doors, MODULE).offline
  }

  /** HELLO, the first update and its heartbeat have been handled, all at time 0. */
  ghost predicate Begun(v: World, period: int)
  {
    && Quiet(v) && v.door.moduleId == MODULE && v.door.period == period
    && v.wire == [] && v.lastUpdate == 0 && v.door.lastHeartbeatMs == 0 && v.started && v.mark <= |v.hub.log|
    && Heard(v.hub)
  }

  lemma HandledQuietly(h: Hub, msg: Msg)
    requires h.due == Nothing
    ensures Step(h, Datagram(Print(MODULE, msg), SOMEWHERE, 0)).due == Nothing
  {
    ModuleIsId();
    MsgIsRead(MODULE, msg);
    assert |MsgWords(MODULE, msg)[1]| == 5 || |MsgWords(MODULE, msg)[1]| == 9;
    NothingDue(h, MsgWords(MODULE, msg), Received(Print(MODULE, msg)));
  }

  lemma NothingDue(h: Hub, ts: seq<string>, line: string)
    requires h.due == Nothing && |ts| >= 2 && |ts[1]| != 7 && |ts[1]| != 8
    ensures HandleTokens(h, ts, line, SOMEWHERE, 0).due == Nothing
  {
  }

  lemma ModuleIsId()
    ensures IsId(MODULE)
  {
    assert IsPlain(MODULE);
    PlainIsWord(MODULE);
  }

  lemma FreshStart(period: int)
    requires period > 0
    ensures Fresh(FreshWorld(period)) && CanHaveRow(InitHub().doors, MODULE) && !HasRow(InitHub().doors, MODULE)
  {
    ModuleIsId();
  }

  lemma ThreeEvents(w: World, a: Happening, b: Happening, c: Happening, gap: int, delay: int)
    requires OnTime(w, a, gap, delay) && OnTime(Happens(w, a), b, gap, delay) &&
             OnTime(Happens(Happens(w, a), b), c, gap, delay)
    ensures Timely(w, [a] + [b] + [c], gap, delay)
    ensures Unfold(w, [a] + [b] + [c]) == Happens(Happens(Happens(w, a), b), c)
  {
    OneEvent(w, a, gap, delay);
    OneEvent(Happens(w, a), b, gap, delay);
    OneEvent(Happens(Happens(w, a), b), c, gap, delay);
    RunsJoin(w, [a], [b], gap, delay);
    RunsJoin(w, [a] + [b], [c], gap, delay);
  }

  lemma Begin(period: int, gap: int, delay: int) returns (es: seq<Happening>)
    requires period > 0 && gap >= 0
    ensures Timely(FreshWorld(period), es, gap, delay) && Begun(Unfold(FreshWorld(period), es), period)
    ensures forall e | e in es :: !e.Other?
  {
    var a, b, w0 := Deliver(SOMEWHERE, 0), Updates(Still(0)), FreshWorld(period);
    var w1 := Happens(w0, a);
    var w2 := Happens(w1, b);
    FirstThree(w0, w1, w2, Happens(w2, a), period);
    ThreeEvents(w0, a, b, a, gap, delay);
    es := [a] + [b] + [a];
  }

  lemma FirstThree(w0: World, w1: World, w2: World, w3: World, period: int)
    requires period > 0 && w0 == FreshWorld(period) && w1 == Happens(w0, Deliver(SOMEWHERE, 0))
    requires w2 == Happens(w1, Updates(Still(0))) && w3 == Happens(w2, Deliver(SOMEWHERE, 0))
    ensures Begun(w3, period) && w2.wire == [InFlight(Heartbeat(false, false), 0)] && !w1.door.prevValid
  {
    FreshStart(period);
    HelloMakesRow(InitHub());
    HelloHandled(w0, w1, Step(InitHub(), Datagram(Print(MODULE, Hello), SOMEWHERE, 0)));
    FirstUpdate(w1, w2);
    BeatHandled(w2, w3, period);
  }

  lemma FirstUpdate(w1: World, w2: World)
    requires w1.door.socketOpen && w1.door.beat && !w1.door.prevValid && w1.wire == [] &&
             w2 == Happens(w1, Updates(Still(0)))
    ensures w2 == w1.(door := After(w1.door, Still(0)), wire := [InFlight(Heartbeat(false, false), 0)], lastUpdate := 0)
  {
    assert Sends(w1.door, Still(0)) == [Heartbeat(false, false)];
  }

  lemma HelloHandled(w0: World, w1: World, hub: Hub)
    requires w0.wire == [InFlight(Hello, 0)] && w0.hub.due == Nothing && w1 == Happens(w0, Deliver(SOMEWHERE, 0))
    requires hub == Step(w0.hub, Datagram(Print(w0.door.moduleId, Hello), SOMEWHERE, 0))
    ensures w1 == w0.(wire := [], hub := hub)
  {
    assert w0.wire[1..] == [];
  }

  lemma HelloMakesRow(h: Hub)
    requires h.due == Nothing && SoleRow(h.doors, MODULE) && CanHaveRow(h.doors, MODULE) && !HasRow(h.doors, MODULE)
    ensures Heard(Step(h, Datagram(Print(MODULE, Hello), SOMEWHERE, 0)))
  {
    ModuleIsId();
    HandledQuietly(h, Hello);
    Delivered(h, MODULE, Hello, SOMEWHERE, 0);
  }

  lemma BeatHandled(w2: World, w3: World, period: int)
    requires Heard(w2.hub) && w2.wire == [InFlight(Heartbeat(false, false), 0)] && w2.door.moduleId == MODULE
    requires w3 == Happens(w2, Deliver(SOMEWHERE, 0))
    ensures Heard(w3.hub) && w3.wire == [] && w3.started && w3.door == w2.door && w3.lastUpdate == w2.lastUpdate
    ensures w2.mark <= |w2.hub.log| ==> w3.mark <= |w3.hub.log|
  {
    ModuleIsId();
    var i := Datagram(Print(MODULE, Heartbeat(false, false)), SOMEWHERE, 0);
    StepLogs(w2.hub, i);
    HandledQuietly(w2.hub, Heartbeat(false, false));
    Delivered(w2.hub, MODULE, Heartbeat(false, false), SOMEWHERE, 0);
  }

  lemma {:induction false} SweepRaises(doors: seq<DoorRow>, now: int, i: nat)
    requires i < |doors| && GoesOffline(doors[i], now)
    ensures Alerted(i, doors[i].moduleId, "SYSTEM", "MODULE", "OFFLINE") in SweepAlerts(doors, now)
  {
    var n := |doors| - 1;
    if i < n { SweepRaises(doors[..n], now, i); }
  }

  /** The sweep that finds the last heartbeat too old. */
  lemma SweepDeclaresOffline(v: World, now: int)
    requires v.hub.due == Nothing && HasRow(v.hub.doors, v.door.moduleId) && v.mark <= |v.hub.log|
    requires !TheRow(v.hub.doors, v.door.moduleId).offline && Silent(TheRow(v.hub.doors, v.door.moduleId), now)
    ensures var u := Happens(v, Other(Tick(now)));
            u.mark == v.mark && u.started == v.started
            && exists k | u.mark <= k < |u.hub.log| :: IsOffline(u.hub.log[k], v.door.moduleId)
  {
    var r := FindDoor(v.hub.doors, v.door.moduleId);
    SweepRaises(v.hub.doors, now, r);
    var a := Alerted(r, v.door.moduleId, "SYSTEM", "MODULE", "OFFLINE");
    var alerts := SweepAlerts(v.hub.doors, now);
    var j :| 0 <= j < |alerts| && alerts[j] == a;
    assert (v.hub.log + alerts)[|v.hub.log| + j] == a;
  }

  /** All is quiet at time `t`; heartbeats on the wire were sent at `since` or later. */
  ghost predicate Overdue(v: World, v1: World, t: int, since: int)
  {
    v.hub == v1.hub && v.started == v1.started && v.mark == v1.mark && v.door.moduleId == v1.door.moduleId
    && v.lastUpdate == t && forall f | f in v.wire :: f.sentAt >= since
  }

  lemma Wait(v1: World, period: int, gap: int, delay: int) returns (es: seq<Happening>)
    requires Begun(v1, period) && period > 0 && gap > 0 && delay >= 0
    ensures Timely(v1, es, gap, delay) && Overdue(Unfold(v1, es), v1, period - 1 + gap + delay, period - 1 + gap)
    ensures forall e | e in es :: !e.Other?
  {
    var idle := IdleRun(v1, period - 1, gap, delay);
    es := BeatAndWait(v1, idle, period - 1 + gap, gap, delay);
  }

  lemma BeatAndWait(v1: World, idle: seq<Happening>, t: int, gap: int, delay: int) returns (es: seq<Happening>)
    requires gap > 0 && delay >= 0 && Quiet(v1) && v1.wire == [] && Timely(v1, idle, gap, delay) &&
             forall e | e in idle :: e.Updates?
    requires Idled(v1, Unfold(v1, idle), t - gap) && t - gap - v1.door.lastHeartbeatMs < v1.door.period
    ensures Timely(v1, es, gap, delay) && Overdue(Unfold(v1, es), v1, t + delay, t)
    ensures forall e | e in es :: !e.Other?
  {
    var v2, beat := Unfold(v1, idle), Updates(Still(t));
    var v3 := Happens(v2, beat);
    OneBeat(v2, v3, t);
    assert OnTime(v2, beat, gap, delay);
    UnfoldOne(v1, idle, beat);
    TimelyOne(v1, idle, beat, gap, delay);
    var wait := IdleRun(v3, delay, gap, delay);
    RunsJoin(v1, idle + [beat], wait, gap, delay);
    es := idle + [beat] + wait;
  }

  lemma OneBeat(v2: World, v3: World, t: int)
    requires Quiet(v2) && v2.wire == [] && v3 == Happens(v2, Updates(Still(t)))
    ensures Quiet(v3) && v3 == v2.(door := v3.door, wire := v3.wire, lastUpdate := t) &&
            v3.door.moduleId == v2.door.moduleId
    ensures forall f | f in v3.wire :: f.sentAt == t
  {
  }

  lemma ThenSweep(v: World, now: int, since: int, gap: int, delay: int)
    requires v.wire == [] || forall f | f in v.wire :: f.sentAt >= since
    requires now == since + delay && v.lastUpdate == now && gap >= 0 && v.started && v.door.moduleId == MODULE
    requires Heard(v.hub) && v.mark <= |v.hub.log| && now > 10000
    ensures OnTime(v, Other(Tick(now)), gap, delay)
    ensures var u := Happens(v, Other(Tick(now)));
            u.started && exists k | u.mark <= k < |u.hub.log| :: IsOffline(u.hub.log[k], MODULE)
  {
    SweepDeclaresOffline(v, now);
  }

  lemma AfterBegin(w: World, start: seq<Happening>, period: int, gap: int, delay: int) returns (es: seq<Happening>)
    requires period > 0 && gap > 0 && delay >= 0 && period + gap + delay > 10001
    requires Timely(w, start, gap, delay) && Begun(Unfold(w, start), period) && forall e | e in start :: !e.Other?
    ensures Timely(w, es, gap, delay) && Normal(MODULE, es)
    ensures var v := Unfold(w, es); v.started && exists k | v.mark <= k < |v.hub.log| :: IsOffline(v.hub.log[k], MODULE)
  {
    var now, v1 := period - 1 + gap + delay, Unfold(w, start);
    var wait := Wait(v1, period, gap, delay);
    RunsJoin(w, start, wait, gap, delay);
    var v := Unfold(v1, wait);
    ThenSweep(v, now, now - delay, gap, delay);
    OneEvent(v, Other(Tick(now)), gap, delay);
    RunsJoin(w, start + wait, [Other(Tick(now))], gap, delay);
    es := start + wait + [Other(Tick(now))];
  }

  /** For every period, gap and delay beyond the bound: a run from a fresh session in which
      updates, deliveries and sweeps are on time, and the hub still declares the module
      offline after it had heard from it. */
  lemma {:induction false} BoundIsTight(period: int, gap: int, delay: int) returns (es: seq<Happening>)
    requires period > 0 && gap > 0 && delay >= 0 && period + gap + delay > 10001
    ensures Fresh(FreshWorld(period)) && Normal(MODULE, es) && Timely(FreshWorld(period), es, gap, delay)
    ensures var v := Unfold(FreshWorld(period), es);
            v.started && exists k | v.mark <= k < |v.hub.log| :: IsOffline(v.hub.log[k], MODULE)
  {
    FreshStart(period);
    var start := Begin(period, gap, delay);
    es := AfterBegin(FreshWorld(period), start, period, gap, delay);
  }
}
