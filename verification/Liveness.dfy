/** Timing end to end: how often the door updates, how late its heartbeats arrive, and
    when the hub may call it offline. */
module Liveness {
  import opened Text
  import opened Pending
  import opened HubModel
  import opened HubRuns
  import opened DoorReporter
  import opened DoorHub
  import opened Replica

  /** Updates come at most `gap` apart, no heartbeat is in flight for more than `delay`
      when the hub sweeps, and nothing arrives before it was sent. */
  predicate OnTime(w: World, e: Happening, gap: int, delay: int)
  {
    match e
    case Updates(r) => w.door.prevValid ==> r.t <= w.lastUpdate + gap
    case Deliver(_, t) => w.wire != [] ==> w.wire[0].sentAt <= t
    case Other(i) =>
      i.Tick? ==>
        && (w.door.prevValid ==> i.now <= w.lastUpdate + gap)
        && forall f | f in w.wire && f.msg.Heartbeat? :: i.now <= f.sentAt + delay
  }

  predicate Timely(w: World, es: seq<Happening>, gap: int, delay: int)
  {
    forall k | 0 <= k < |es| :: OnTime(Unfold(w, es[..k]), es[k], gap, delay)
  }

  // ---------- heartbeats in flight ----------

  /** Each heartbeat on the wire was sent at most `step` after the one before it, the
      first at most `step` after `heard` if one was heard at all. */
  predicate Chain(started: bool, heard: int, wire: seq<InFlight>, step: int)
    decreases |wire|
  {
    wire == [] ||
    if wire[0].msg.Heartbeat?
    then (started ==> wire[0].sentAt <= heard + step) && Chain(true, wire[0].sentAt, wire[1..], step)
    else Chain(started, heard, wire[1..], step)
  }

  /** Some heartbeat was heard or is on the wire. */
  predicate AnyBeat(started: bool, wire: seq<InFlight>)
  {
    started || exists f | f in wire :: f.msg.Heartbeat?
  }

  /** When the latest heartbeat, heard or on the wire, was sent. */
  function Latest(heard: int, wire: seq<InFlight>): int
    decreases |wire|
  {
    if wire == [] then heard
    else Latest(if wire[0].msg.Heartbeat? then wire[0].sentAt else heard, wire[1..])
  }

  lemma {:induction false} OneMoreInFlight(started: bool, heard: int, wire: seq<InFlight>, f: InFlight, step: int)
    requires Chain(started, heard, wire, step)
    requires f.msg.Heartbeat? && AnyBeat(started, wire) ==> f.sentAt <= Latest(heard, wire) + step
    ensures Chain(started, heard, wire + [f], step)
    ensures Latest(heard, wire + [f]) == if f.msg.Heartbeat? then f.sentAt else Latest(heard, wire)
    decreases |wire|
  {
    if wire == [] {
      assert wire + [f] == [f] && [f][1..] == [];
    } else {
      assert (wire + [f])[1..] == wire[1..] + [f];
      if wire[0].msg.Heartbeat? {
        OneMoreInFlight(true, wire[0].sentAt, wire[1..], f, step);
      } else {
        OneMoreInFlight(started, heard, wire[1..], f, step);
      }
    }
  }

  lemma {:induction false} QuietInFlight(started: bool, heard: int, wire: seq<InFlight>, more: seq<InFlight>, step: int)
    requires Chain(started, heard, wire, step)
    requires forall f | f in more :: !f.msg.Heartbeat?
    ensures Chain(started, heard, wire + more, step) && Latest(heard, wire + more) == Latest(heard, wire)
    ensures AnyBeat(started, wire + more) == AnyBeat(started, wire)
    decreases |more|
  {
    if more == [] {
      assert wire + more == wire;
    } else {
      assert more[0] in more;
      OneMoreInFlight(started, heard, wire, more[0], step);
      assert wire + more == (wire + [more[0]]) + more[1..];
      QuietInFlight(started, heard, wire + [more[0]], more[1..], step);
    }
  }

  /** Once one was heard: either the next heartbeat on the wire was sent within `step` of
      it, or it is still the latest. */
  lemma {:induction false} NextBeatIsNear(heard: int, wire: seq<InFlight>, step: int)
    requires Chain(true, heard, wire, step)
    ensures Latest(heard, wire) == heard || exists f | f in wire :: f.msg.Heartbeat? && f.sentAt <= heard + step
    decreases |wire|
  {
    if wire != [] {
      assert wire[0] in wire;
      if !wire[0].msg.Heartbeat? { NextBeatIsNear(heard, wire[1..], step); }
    }
  }

  // ---------- the invariant ----------

  ghost predicate Paced(w: World, gap: int)
  {
    && w.door.socketOpen && w.door.beat && w.door.period > 0
    && (!w.door.prevValid ==> !AnyBeat(w.started, w.wire))
    && (w.door.prevValid ==>
         && AnyBeat(w.started, w.wire)
         && Chain(w.started, w.heard, w.wire, w.door.period + gap - 1)
         && Latest(w.heard, w.wire) == w.door.lastHeartbeatMs
         && w.lastUpdate < w.door.lastHeartbeatMs + w.door.period)
  }

  /** The hub's row for the module is at least as recent as the last heartbeat heard. */
  ghost predicate RowIsRecent(w: World)
  {
    && IsId(w.door.moduleId) && SoleRow(w.hub.doors, w.door.moduleId)
    && (w.started && CanHaveRow(w.hub.doors, w.door.moduleId) ==>
          HasRow(w.hub.doors, w.door.moduleId) && TheRow(w.hub.doors, w.door.moduleId).lastHeartbeatMs >= w.heard)
  }

  predicate IsOffline(a: Act, m: string) { IsSystem(a) && a.moduleId == m && a.state == "OFFLINE" }

  ghost predicate NoOfflineSince(w: World)
  {
    w.started ==>
        w.mark <= |w.hub.log| && forall k | w.mark <= k < |w.hub.log| :: !IsOffline(w.hub.log[k], w.door.moduleId)
  }

  lemma NoBeats(started: bool, heard: int, wire: seq<InFlight>, step: int)
    requires !AnyBeat(started, wire)
    ensures Chain(started, heard, wire, step)
    decreases |wire|
  {
    if wire != [] {
      assert wire[0] in wire;
      NoBeats(started, heard, wire[1..], step);
    }
  }

  /** The wire after an update: its events, then perhaps its heartbeat. */
  lemma UpdateOnWire(w: World, r: Reading)
    requires w.door.socketOpen
    ensures var events := Stamp(EventsFor(w.door, r), r.t);
            && (forall f | f in events :: !f.msg.Heartbeat?)
            && AfterUpdate(w, r).wire == w.wire + events +
               (if BeatDue(w.door, r.t) then [InFlight(Heartbeat(r.d0Open, r.d1Locked), r.t)] else [])
  {
  }

  lemma UpdateIsPaced(w: World, r: Reading, gap: int)
    requires Paced(w, gap) && gap >= 0 && (w.door.prevValid ==> r.t <= w.lastUpdate + gap)
    ensures Paced(AfterUpdate(w, r), gap)
  {
    var step := w.door.period + gap - 1;
    var events := Stamp(EventsFor(w.door, r), r.t);
    var wire, beat := w.wire + events, InFlight(Heartbeat(r.d0Open, r.d1Locked), r.t);
    UpdateOnWire(w, r);
    if !w.door.prevValid { NoBeats(w.started, w.heard, w.wire, step); }
    QuietInFlight(w.started, w.heard, w.wire, events, step);
    if BeatDue(w.door, r.t) {
      OneMoreInFlight(w.started, w.heard, wire, beat, step);
      assert beat in wire + [beat];
    } else {
      assert wire + [] == wire;
    }
  }

  lemma ShorterWireIsPaced(w: World, w': World, gap: int)
    requires Paced(w, gap) && w.wire != []
    requires w'.door == w.door && w'.wire == w.wire[1..] && w'.lastUpdate == w.lastUpdate
    requires w'.started == (w.started || w.wire[0].msg.Heartbeat?)
    requires w'.heard == if w.wire[0].msg.Heartbeat? then w.wire[0].sentAt else w.heard
    ensures Paced(w', gap)
  {
    assert forall f | f in w.wire :: f == w.wire[0] || f in w'.wire;
    assert forall f | f in w'.wire :: f in w.wire;
  }

  lemma DeliveryIsPaced(w: World, src: Addr, t: int, gap: int)
    requires Paced(w, gap)
    ensures Paced(Happens(w, Deliver(src, t)), gap)
  {
    if w.wire != [] && w.hub.due == Nothing { ShorterWireIsPaced(w, Happens(w, Deliver(src, t)), gap); }
  }

  lemma HeardIsRecent(w: World, w': World, d': DoorTable)
    requires RowIsRecent(w) && w.wire != [] && w'.door == w.door && w'.hub.doors == d'
    requires SoleRow(d', w.door.moduleId)
    requires CanHaveRow(d', w.door.moduleId) ==> HasRow(d', w.door.moduleId)
    requires CanHaveRow(d', w.door.moduleId) && w'.started ==> TheRow(d', w.door.moduleId).lastHeartbeatMs >= w'.heard
    ensures RowIsRecent(w')
  {
  }

  lemma DeliveryIsRecent(w: World, src: Addr, t: int)
    requires RowIsRecent(w) && (w.wire != [] ==> w.wire[0].sentAt <= t)
    ensures RowIsRecent(Happens(w, Deliver(src, t)))
  {
    if w.wire != [] && w.hub.due == Nothing {
      var m, msg := w.door.moduleId, w.wire[0].msg;
      Delivered(w.hub, m, msg, src, t);
      HeardIsRecent(w, Happens(w, Deliver(src, t)), Step(w.hub, Datagram(Print(m, msg), src, t)).doors);
    }
  }

  // ---------- the sweep ----------

  lemma {:induction false} OfflineMeansSilent(doors: seq<DoorRow>, now: int)
    ensures forall a | a in SweepAlerts(doors, now) && a.Alerted? && a.state == "OFFLINE" ::
              a.row < |doors| && Silent(doors[a.row], now) && IsRowOf(doors[a.row], a.moduleId)
  {
    if doors != [] {
      var n := |doors| - 1;
      OfflineMeansSilent(doors[..n], now);
      if ComesBack(doors[n], now) { assert |SweepState(doors[n], now)| == 6; }
    }
  }

  lemma SweepFindsItAlive(w: World, now: int, gap: int, delay: int)
    requires Paced(w, gap) && RowIsRecent(w) && w.started && OnTime(w, Other(Tick(now)), gap, delay)
    requires w.door.period + gap + delay <= 10001 && delay >= 0
    ensures forall a | a in SweepAlerts(w.hub.doors, now) :: !IsOffline(a, w.door.moduleId)
  {
    var d, m := w.hub.doors, w.door.moduleId;
    NextBeatIsNear(w.heard, w.wire, w.door.period + gap - 1);
    assert now - w.heard <= 10000;
    forall i | 0 <= i < MAX_DOORS && IsRowOf(d[i], m) ensures !Silent(d[i], now) {
      assert FindDoor(d, m) == i && TheRow(d, m) == d[i];
    }
    OfflineMeansSilent(d, now);
  }

  lemma StepStaysQuiet(w: World, e: Happening, gap: int, delay: int)
    requires Paced(w, gap) && RowIsRecent(w) && NoOfflineSince(w) && OnTime(w, e, gap, delay)
    requires w.door.period + gap + delay <= 10001 && delay >= 0
    ensures NoOfflineSince(Happens(w, e))
  {
    match e {
      case Updates(r) =>
      case Deliver(src, t) =>
        if w.wire != [] && w.hub.due == Nothing {
          HubStaysQuiet(w, Datagram(Print(w.door.moduleId, w.wire[0].msg), src, t), gap, delay);
        }
      case Other(i) => HubStaysQuiet(w, i, gap, delay);
    }
  }

  lemma HubStaysQuiet(w: World, i: Input, gap: int, delay: int)
    requires Paced(w, gap) && RowIsRecent(w) && NoOfflineSince(w)
    requires i.Tick? ==> OnTime(w, Other(i), gap, delay)
    requires w.door.period + gap + delay <= 10001 && delay >= 0
    ensures NoOfflineSince(w.(hub := Step(w.hub, i)))
  {
    var log, acts := w.hub.log, ActsOf(w.hub, i);
    StepLogs(w.hub, i);
    if w.started {
      if i.Tick? { SweepFindsItAlive(w, i.now, gap, delay); }
      var ts := Handled(w.hub, i);
      if ts != [] { EventsAreNotSystem(RowFor(w.hub.doors, ts[0]), ts, i.src); }
      forall k | w.mark <= k < |log + acts| ensures !IsOffline((log + acts)[k], w.door.moduleId) {
        if k >= |log| { assert (log + acts)[k] in acts; }
      }
    }
  }

  ghost predicate Alive(v: World, w: World, gap: int)
  {
    && Paced(v, gap) && RowIsRecent(v) && NoOfflineSince(v)
    && v.door.moduleId == w.door.moduleId && v.door.period == w.door.period
  }

  lemma StepStaysAlive(v: World, w: World, e: Happening, gap: int, delay: int)
    requires Alive(v, w, gap) && OnTime(v, e, gap, delay) && (e.Other? ==> Foreign(w.door.moduleId, e.i))
    requires gap >= 0 && delay >= 0 && w.door.period + gap + delay <= 10001
    ensures Alive(Happens(v, e), w, gap)
  {
    StepStaysQuiet(v, e, gap, delay);
    match e {
      case Updates(r) => UpdateIsPaced(v, r, gap);
      case Deliver(src, t) =>
        DeliveryIsPaced(v, src, t, gap);
        DeliveryIsRecent(v, src, t);
      case Other(i) => ForeignStep(v.hub, i, w.door.moduleId);
    }
  }

  lemma {:induction false} LivenessInvariant(w: World, es: seq<Happening>, gap: int, delay: int)
    requires Fresh(w) && Normal(w.door.moduleId, es) && Timely(w, es, gap, delay)
    requires gap >= 0 && delay >= 0 && w.door.period + gap + delay <= 10001
    ensures Alive(Unfold(w, es), w, gap)
  {
    if es != [] {
      var n := |es| - 1;
      assert Timely(w, es[..n], gap, delay) by {
        forall k | 0 <= k < n ensures OnTime(Unfold(w, es[..n][..k]), es[..n][k], gap, delay) {
          assert es[..n][..k] == es[..k];
        }
      }
      LivenessInvariant(w, es[..n], gap, delay);
      assert es[n] in es;
      StepStaysAlive(Unfold(w, es[..n]), w, es[n], gap, delay);
    }
  }

  /** If updates come at most `gap` ms apart, heartbeats are handled within `delay` ms, in
      order and without loss, and period + gap + delay is at most ten seconds and one
      millisecond, then from the first handled heartbeat on the hub never announces the
      module offline. */
  lemma {:induction false} NeverDeclaredOffline(w: World, es: seq<Happening>, gap: int, delay: int)
    requires Fresh(w) && Normal(w.door.moduleId, es) && Timely(w, es, gap, delay)
    requires gap >= 0 && delay >= 0 && w.door.period + gap + delay <= 10001
    ensures var v := Unfold(w, es);
            v.started ==> forall k | v.mark <= k < |v.hub.log| :: !IsOffline(v.hub.log[k], w.door.moduleId)
  {
    LivenessInvariant(w, es, gap, delay);
  }
}
