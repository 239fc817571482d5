/** One door module and the hub, joined by a wire that keeps order and loses nothing, while
    anything else goes on around them: over whole runs the hub's row follows the door. */
module Replica {
  import opened Text
  import opened Pending
  import opened HubModel
  import opened HubRuns
  import opened DoorReporter
  import opened DoorHub

  datatype InFlight = InFlight(msg: Msg, sentAt: int)

  /** `heard` is the send time of the last heartbeat the hub has handled, if `started`;
      `mark` is the length the hub's log had when it handled the first. */
  datatype World = World(door: Door, wire: seq<InFlight>, hub: Hub, lastUpdate: int,
                         started: bool, heard: int, mark: nat)

  datatype Happening = Updates(r: Reading)           // door_udp_update
                     | Deliver(src: Addr, t: int)    // the hub handles the next line of the door
                     | Other(i: Input)               // anything else at the hub

  function Stamp(msgs: seq<Msg>, t: int): seq<InFlight>
  {
    seq(|msgs|, i requires 0 <= i < |msgs| => InFlight(msgs[i], t))
  }

  function AfterUpdate(w: World, r: Reading): World
  {
    w.(door := After(w.door, r), wire := w.wire + Stamp(Sends(w.door, r), r.t), lastUpdate := r.t)
  }

  function AfterDelivery(w: World, src: Addr, t: int): World
  {
    if w.wire == [] || w.hub.due != Nothing then w
    else
      var f := w.wire[0];
      var hub := Step(w.hub, Datagram(Print(w.door.moduleId, f.msg), src, t));
      if f.msg.Heartbeat?
      then w.(wire := w.wire[1..], hub := hub, heard := f.sentAt, started := true,
              mark := if w.started then w.mark else |hub.log|)
      else w.(wire := w.wire[1..], hub := hub)
  }

  function Happens(w: World, e: Happening): World
  {
    match e
    case Updates(r) => AfterUpdate(w, r)
    case Deliver(src, t) => AfterDelivery(w, src, t)
    case Other(i) => w.(hub := Step(w.hub, i))
  }

  function Unfold(w: World, es: seq<Happening>): World
  {
    if es == [] then w else Happens(Unfold(w, es[..|es| - 1]), es[|es| - 1])
  }

  /** Other traffic: any lines of other modules, and of this one all but the EVENTs and
      HEARTBEATs that only the door itself sends. */
  predicate Foreign(m: string, i: Input)
  {
    i.Datagram? && |Words(i.text)| >= 2 && Trunc(Words(i.text)[0], ID_LEN) == m ==>
      Words(i.text)[0] == m && Words(i.text)[1] != "EVENT" && Words(i.text)[1] != "HEARTBEAT"
  }

  predicate Normal(m: string, es: seq<Happening>)
  {
    forall e | e in es && e.Other? :: Foreign(m, e.i)
  }

  /** A session about to start: reporting on, HELLO on the wire, at most one row for m. */
  ghost predicate Fresh(w: World)
  {
    && IsId(w.door.moduleId) && w.door.socketOpen && w.door.notify && w.door.beat && w.door.period > 0
    && !w.door.prevValid && !w.started && w.wire == [InFlight(Hello, 0)]
    && SoleRow(w.hub.doors, w.door.moduleId)
  }

  // ---------- what each step does to the module's row ----------

  ghost predicate SoleRow(d: DoorTable, m: string)
  {
    forall i, j | 0 <= i < j < MAX_DOORS :: !(IsRowOf(d[i], m) && IsRowOf(d[j], m))
  }

  predicate HasRow(d: DoorTable, m: string) { FindDoor(d, m) < MAX_DOORS }

  predicate CanHaveRow(d: DoorTable, m: string) { RowFor(d, m) < MAX_DOORS }

  /** The row m has, or would be given. */
  function TheRow(d: DoorTable, m: string): DoorRow
  {
    if HasRow(d, m) then d[FindDoor(d, m)] else FREE_ROW.(moduleId := m, known := true)
  }

  lemma NewRowIsFound(d: DoorTable, d': DoorTable, r: nat, row: DoorRow, m: string)
    requires r < MAX_DOORS && d' == d[r := row] && IsRowOf(row, m) && r == RowFor(d, m)
    ensures FindDoor(d', m) == r && TheRow(d', m) == row
    ensures SoleRow(d, m) ==> SoleRow(d', m)
  {
    assert IsRowOf(d'[r], m);
  }

  /** A row of another name, changed or new, is none of m's business. */
  lemma OtherRowChanges(d: DoorTable, d': DoorTable, r: nat, row: DoorRow, m: string)
    requires r < MAX_DOORS && d' == d[r := row] && !IsRowOf(row, m) && !IsRowOf(d[r], m) && row.known
    ensures FindDoor(d', m) == FindDoor(d, m) && TheRow(d', m) == TheRow(d, m)
    ensures SoleRow(d, m) ==> SoleRow(d', m)
    ensures CanHaveRow(d', m) ==> CanHaveRow(d, m)
  {
    var f, f' := FindDoor(d, m), FindDoor(d', m);
    if f < MAX_DOORS { assert IsRowOf(d'[f], m); }
    if f' < MAX_DOORS { assert IsRowOf(d[f'], m); }
  }

  /** The door's line: m has a row afterwards if it could have one, and it is as told. */
  lemma Delivered(h: Hub, m: string, msg: Msg, src: Addr, t: int)
    requires IsId(m) && h.due == Nothing && SoleRow(h.doors, m)
    ensures var d, d' := h.doors, Step(h, Datagram(Print(m, msg), src, t)).doors;
            && SoleRow(d', m)
            && (CanHaveRow(d, m) <==> CanHaveRow(d', m)) && (CanHaveRow(d, m) ==> HasRow(d', m))
            && (CanHaveRow(d, m) ==>
                 && TheRow(d', m).offline == TheRow(d, m).offline
                 && TheRow(d', m).bits == Told(TheRow(d, m), msg, t).bits
                 && TheRow(d', m).lastHeartbeatMs == Told(TheRow(d, m), msg, t).lastHeartbeatMs)
  {
    MsgIsRead(m, msg);
    var ts := MsgWords(m, msg);
    var d, r := h.doors, RowFor(h.doors, m);
    if r < MAX_DOORS {
      var base := BaseRow(d[r], m);
      assert base == TheRow(d, m);
      RowIsTold(base, m, msg, src, t);
      NewRowIsFound(d, DoorsAfter(d, ts, src, t), r, RowAfter(base, ts, src, t), m);
    }
  }

  lemma ForeignLine(d: DoorTable, ts: seq<string>, src: Addr, t: int, m: string)
    requires |ts| >= 2 && |m| <= ID_LEN && SoleRow(d, m)
    requires Trunc(ts[0], ID_LEN) == m ==> ts[0] == m && ts[1] != "EVENT" && ts[1] != "HEARTBEAT"
    ensures var d' := DoorsAfter(d, ts, src, t);
            && SoleRow(d', m) && (CanHaveRow(d', m) ==> CanHaveRow(d, m)) && (HasRow(d, m) ==> HasRow(d', m))
            && TheRow(d', m).bits == TheRow(d, m).bits
            && TheRow(d', m).lastHeartbeatMs == TheRow(d, m).lastHeartbeatMs
  {
    var r := RowFor(d, ts[0]);
    if r < MAX_DOORS {
      var row := RowAfter(BaseRow(d[r], ts[0]), ts, src, t);
      if ts[0] == m {
        assert BaseRow(d[r], m) == TheRow(d, m);
        NewRowIsFound(d, d[r := row], r, row, m);
      } else {
        OtherRowChanges(d, d[r := row], r, row, m);
      }
    }
  }

  lemma SweepTheRow(h: Hub, now: int, m: string)
    requires SoleRow(h.doors, m)
    ensures var d, d' := h.doors, Sweep(h, now).doors;
            && SoleRow(d', m) && CanHaveRow(d', m) == CanHaveRow(d, m) && HasRow(d, m) == HasRow(d', m)
            && TheRow(d', m).bits == TheRow(d, m).bits
            && TheRow(d', m).lastHeartbeatMs == TheRow(d, m).lastHeartbeatMs
  {
    SweepKeepsLookups(h.doors, Sweep(h, now).doors, now);
  }

  lemma ForeignStep(h: Hub, i: Input, m: string)
    requires |m| <= ID_LEN && SoleRow(h.doors, m) && Foreign(m, i)
    ensures var d, d' := h.doors, Step(h, i).doors;
            && SoleRow(d', m) && (CanHaveRow(d', m) ==> CanHaveRow(d, m)) && (HasRow(d, m) ==> HasRow(d', m))
            && TheRow(d', m).bits == TheRow(d, m).bits
            && TheRow(d', m).lastHeartbeatMs == TheRow(d, m).lastHeartbeatMs
  {
    match i {
      case Datagram(text, src, t) =>
        var ts := Handled(h, i);
        if ts != [] { ForeignLine(h.doors, ts, src, t, m); }
        assert Step(h, i).doors == if ts != [] then DoorsAfter(h.doors, ts, src, t) else h.doors;
      case Tick(now) => SweepTheRow(h, now, m);
      case Release(_) =>
      case IssueId =>
      case Transmit(_, _, _, _) =>
    }
  }

  // ---------- the replica ----------

  function Msgs(wire: seq<InFlight>): seq<Msg>
  {
    seq(|wire|, i requires 0 <= i < |wire| => wire[i].msg)
  }

  function HubView(d: DoorTable, m: string): View
  {
    View(TheRow(d, m).bits.d0Open, TheRow(d, m).bits.d1Locked)
  }

  /** What the hub knows, brought up to date by what is on the wire, is the door's state. */
  ghost predicate Follows(w: World)
  {
    && IsId(w.door.moduleId) && w.door.socketOpen && w.door.notify && w.door.beat
    && SoleRow(w.hub.doors, w.door.moduleId)
    && (w.door.prevValid && CanHaveRow(w.hub.doors, w.door.moduleId) ==>
          LearnAll(HubView(w.hub.doors, w.door.moduleId), Msgs(w.wire)) == ViewOf(w.door.prev))
  }

  lemma HeartbeatTellsAll(v: View, msgs: seq<Msg>, o: bool, l: bool)
    ensures LearnAll(v, msgs + [Heartbeat(o, l)]) == View(o, l)
  {
    assert (msgs + [Heartbeat(o, l)])[..|msgs|] == msgs;
  }

  lemma UpdateFollows(w: World, r: Reading)
    requires Follows(w)
    ensures Follows(Happens(w, Updates(r)))
  {
    var w' := Happens(w, Updates(r));
    var v := HubView(w.hub.doors, w.door.moduleId);
    assert Msgs(w'.wire) == Msgs(w.wire) + Sends(w.door, r);
    if !w.door.prevValid {
      assert Sends(w.door, r) == [Heartbeat(r.d0Open, r.d1Locked)];
      HeartbeatTellsAll(v, Msgs(w.wire), r.d0Open, r.d1Locked);
    } else {
      LearnAppend(v, Msgs(w.wire), Sends(w.door, r));
      OneUpdateTells(w.door, r);
    }
  }

  lemma LearnFirst(v: View, msg: Msg, rest: seq<Msg>)
    ensures LearnAll(v, [msg] + rest) == LearnAll(Learn(v, msg), rest)
  {
    LearnAppend(v, [msg], rest);
    assert [msg][..0] == [];
    assert LearnAll(v, [msg]) == Learn(v, msg);
  }

  lemma HubLearns(h: Hub, m: string, msg: Msg, src: Addr, t: int)
    requires IsId(m) && h.due == Nothing && SoleRow(h.doors, m) && CanHaveRow(h.doors, m)
    ensures HubView(Step(h, Datagram(Print(m, msg), src, t)).doors, m) == Learn(HubView(h.doors, m), msg)
  {
    Delivered(h, m, msg, src, t);
  }

  lemma ShorterWireFollows(w: World, w': World, d': DoorTable)
    requires Follows(w) && w.wire != [] && w'.door == w.door && w'.wire == w.wire[1..] && w'.hub.doors == d'
    requires SoleRow(d', w.door.moduleId)
    requires CanHaveRow(d', w.door.moduleId) ==>
               CanHaveRow(w.hub.doors, w.door.moduleId) &&
               HubView(d', w.door.moduleId) == Learn(HubView(w.hub.doors, w.door.moduleId), w.wire[0].msg)
    ensures Follows(w')
  {
    assert Msgs(w.wire) == [w.wire[0].msg] + Msgs(w.wire[1..]);
    LearnFirst(HubView(w.hub.doors, w.door.moduleId), w.wire[0].msg, Msgs(w.wire[1..]));
  }

  lemma DeliveryFollows(w: World, src: Addr, t: int)
    requires Follows(w)
    ensures Follows(Happens(w, Deliver(src, t)))
  {
    if w.wire != [] && w.hub.due == Nothing {
      var m, msg := w.door.moduleId, w.wire[0].msg;
      Delivered(w.hub, m, msg, src, t);
      if CanHaveRow(w.hub.doors, m) { HubLearns(w.hub, m, msg, src, t); }
      ShorterWireFollows(w, Happens(w, Deliver(src, t)), Step(w.hub, Datagram(Print(m, msg), src, t)).doors);
    }
  }

  lemma {:induction false} ReplicaInvariant(w: World, es: seq<Happening>)
    requires Fresh(w) && Normal(w.door.moduleId, es)
    ensures Follows(Unfold(w, es)) && Unfold(w, es).door.moduleId == w.door.moduleId
  {
    if es != [] {
      var before, e := es[..|es| - 1], es[|es| - 1];
      ReplicaInvariant(w, before);
      var v := Unfold(w, before);
      match e {
        case Updates(r) => UpdateFollows(v, r);
        case Deliver(src, t) => DeliveryFollows(v, src, t);
        case Other(i) =>
          assert e in es;
          ForeignStep(v.hub, i, w.door.moduleId);
      }
    }
  }

  /** Whenever every line of the door has been handled, the hub's row for it says what
      the door saw last: the door state on D0 and the lock state on D1, whatever other
      modules, COMMANDs, FEEDBACKs and sweeps came in between. */
  lemma {:induction false} ReplicaAgrees(w: World, es: seq<Happening>)
    requires Fresh(w) && Normal(w.door.moduleId, es)
    ensures var v := Unfold(w, es);
            v.wire == [] && v.door.prevValid && HasRow(v.hub.doors, w.door.moduleId) ==>
              var row := v.hub.doors[FindDoor(v.hub.doors, w.door.moduleId)];
              row.bits.d0Open == v.door.prev.d0Open && row.bits.d1Locked == v.door.prev.d1Locked
  {
    ReplicaInvariant(w, es);
  }

  /** And it has such a row as soon as one line was handled while its own or an unused
      row existed. */
  lemma {:induction false} HandledLineHasRow(w: World, src: Addr, t: int)
    requires Follows(w) && w.wire != [] && w.hub.due == Nothing
    ensures HasRow(Happens(w, Deliver(src, t)).hub.doors, w.door.moduleId) <==> CanHaveRow(w.hub.doors, w.door.moduleId)
  {
    Delivered(w.hub, w.door.moduleId, w.wire[0].msg, src, t);
  }
}
