/** The door module's side of the protocol: a change detector with a rate-limited
    heartbeat, the lines it prints, and the commands it accepts. */
module DoorReporter {
  import opened Text

  const DEFAULT_PERIOD_MS := 1000

  // ---------- the lines a door prints ----------

  datatype Msg = Hello
               | Heartbeat(open: bool, locked: bool)
               | DoorEvent(open: bool)
               | LockEvent(locked: bool)

  function OpenWord(open: bool): string { if open then "OPEN" else "CLOSED" }

  function LockWord(locked: bool): string { if locked then "LOCKED" else "UNLOCKED" }

  function StateToken(door: string, o: bool, l: bool): string { door + "=" + OpenWord(o) + "," + LockWord(l) }

  function MsgWords(id: string, msg: Msg): seq<string>
  {
    match msg
    case Hello => [id, "HELLO"]
    case Heartbeat(o, l) =>
      [id, "HEARTBEAT", StateToken("D0", o, l), StateToken("D1", o, l)]
    case DoorEvent(o) => [id, "EVENT", "D0", "DOOR", OpenWord(o)]
    case LockEvent(l) => [id, "EVENT", "D1", "LOCK", LockWord(l)]
  }

  function Print(id: string, msg: Msg): string { Trunc(Line(MsgWords(id, msg)), 255) }

  function PrintAll(id: string, msgs: seq<Msg>): (lines: seq<string>)
    ensures |lines| == |msgs| && forall i | 0 <= i < |msgs| :: lines[i] == Print(id, msgs[i])
  {
    seq(|msgs|, i requires 0 <= i < |msgs| => Print(id, msgs[i]))
  }

  function FeedbackLine(id: string, cmdid: int, target: string, action: string): string
  {
    Trunc(Line([id, "FEEDBACK", Dec(cmdid), target, action]), 255)
  }

  // ---------- the commands it accepts ----------

  datatype Command = Ignored | Command(cmdid: int, target: string, action: string)

  function ParseCommand(id: string, datagram: string): Command
  {
    var ts := Tokens(CLib, Received(datagram));
    if |ts| >= 5 && ts[1] == "COMMAND" && ts[0] == id then Command(Atoi(ts[2]), ts[3], ts[4]) else Ignored
  }

  /** Only a whole COMMAND for this module is obeyed: not another module's, not another
      kind of line, not one with a word missing. */
  lemma {:induction false} OthersAreIgnored(m: string, ws: seq<string>)
    requires (forall w | w in ws :: IsWord(w)) && |Line(ws)| <= 255
    ensures ParseCommand(m, Line(ws)) == Ignored <==> |ws| < 5 || ws[0] != m || ws[1] != "COMMAND"
    ensures |ws| >= 5 && ws[0] == m && ws[1] == "COMMAND" ==>
              ParseCommand(m, Line(ws)) == Command(Atoi(ws[2]), ws[3], ws[4])
  {
    ReceivedLine(ws);
    CTokensOfLine(ws);
  }

  // ---------- change detection ----------

  /** One call of door_udp_update: what it is told, and what the clock says. */
  datatype Reading = Reading(d0Open: bool, d0Locked: bool, d1Open: bool, d1Locked: bool, t: int)

  datatype Door = Door(moduleId: string, notify: bool, beat: bool, period: int, socketOpen: bool,
                       prevValid: bool, prev: Reading, lastHeartbeatMs: int)

  /** A message that is sent on a condition. */
  function Opt(b: bool, msg: Msg): seq<Msg> { if b then [msg] else [] }

  /** The notifications of an update: what changed since the one before. */
  function EventsFor(d: Door, r: Reading): seq<Msg>
  {
    Opt(d.notify && d.prevValid && r.d0Open != d.prev.d0Open, DoorEvent(r.d0Open)) +
    Opt(d.notify && d.prevValid && r.d1Locked != d.prev.d1Locked, LockEvent(r.d1Locked))
  }

  predicate BeatDue(d: Door, t: int)
  {
    d.beat && (!d.prevValid || t - d.lastHeartbeatMs >= d.period)
  }

  /** What an update sends. */
  function Sends(d: Door, r: Reading): seq<Msg>
  {
    if !d.socketOpen then [] else EventsFor(d, r) + Opt(BeatDue(d, r.t), Heartbeat(r.d0Open, r.d1Locked))
  }

  function After(d: Door, r: Reading): Door
  {
    if !d.socketOpen then d
    else d.(prevValid := true, prev := r.(t := 0),
            lastHeartbeatMs := if !d.prevValid || BeatDue(d, r.t) then r.t else d.lastHeartbeatMs)
  }

  lemma LinesOfUpdate(d: Door, r: Reading)
    requires d.socketOpen
    ensures PrintAll(d.moduleId, Sends(d, r)) == PrintAll(d.moduleId, EventsFor(d, r))
              + if BeatDue(d, r.t) then [Print(d.moduleId, Heartbeat(r.d0Open, r.d1Locked))] else []
  {
  }

  /** The module as it runs: its static variables, and every line it has sent. */
  class Reporter {
    var moduleId: string
    var notify: bool
    var beat: bool
    var period: int
    var socketOpen: bool
    var prevValid: bool
    var d0Open: bool
    var d0Locked: bool
    var d1Open: bool
    var d1Locked: bool
    var lastHeartbeatMs: int
    ghost var sent: seq<string>

    ghost function Abs(): Door
      reads this
    {
      Door(moduleId, notify, beat, period, socketOpen, prevValid,
           Reading(d0Open, d0Locked, d1Open, d1Locked, 0), lastHeartbeatMs)
    }

    constructor ()
      ensures !prevValid && !socketOpen && period == DEFAULT_PERIOD_MS && sent == []
    {
      moduleId, notify, beat, period, socketOpen := "M?", true, false, DEFAULT_PERIOD_MS, false;
      prevValid, d0Open, d0Locked, d1Open, d1Locked := false, false, false, false, false;
      lastHeartbeatMs, sent := 0, [];
    }

    /** A new session: nothing is remembered of the last one, and HELLO goes out. If the
        command thread cannot be started after that, the socket stays open. */
    method Init(id: string, notifyMode: bool, beatMode: bool, periodMs: int, now: int, networkOk: bool, threadOk: bool)
      returns (ok: bool)
      modifies this
      ensures ok == (networkOk && threadOk) && !prevValid && period > 0 && lastHeartbeatMs == now
      ensures moduleId == Trunc(id, 15) && notify == notifyMode && beat == beatMode
      ensures period == if periodMs > 0 then periodMs else DEFAULT_PERIOD_MS
      ensures networkOk ==> socketOpen && sent == old(sent) + [Print(moduleId, Hello)]
      ensures !networkOk ==> socketOpen == old(socketOpen) && sent == old(sent)
    {
      moduleId := Trunc(id, 15);
      notify, beat := notifyMode, beatMode;
      period := if periodMs > 0 then periodMs else DEFAULT_PERIOD_MS;
      prevValid := false;
      lastHeartbeatMs := now;
      if !networkOk {
        return false;
      }
      socketOpen := true;
      sent := sent + [Print(moduleId, Hello)];
      return threadOk;
    }

    method Close()
      modifies this
      ensures Abs() == old(Abs()).(socketOpen := false, prevValid := false) && sent == old(sent)
    {
      socketOpen := false;
      prevValid := false;
    }

    /** The branch of the very first update. */
    method First(r: Reading)
      requires socketOpen && !prevValid
      modifies this
      ensures Abs() == After(old(Abs()), r)
      ensures sent == old(sent) + PrintAll(old(moduleId), Sends(old(Abs()), r))
    {
      Remember(r);
      prevValid := true;
      lastHeartbeatMs := r.t;
      if beat {
        sent := sent + [Print(moduleId, Heartbeat(r.d0Open, r.d1Locked))];
      }
    }

    method Remember(r: Reading)
      modifies `d0Open, `d0Locked, `d1Open, `d1Locked
      ensures Abs() == old(Abs()).(prev := r.(t := 0))
    {
      d0Open, d0Locked, d1Open, d1Locked := r.d0Open, r.d0Locked, r.d1Open, r.d1Locked;
    }

    method Notify(r: Reading)
      requires prevValid
      modifies `sent
      ensures sent == old(sent) + PrintAll(moduleId, EventsFor(Abs(), r))
    {
      if notify {
        if r.d0Open != d0Open {
          sent := sent + [Print(moduleId, DoorEvent(r.d0Open))];
        }
        if r.d1Locked != d1Locked {
          sent := sent + [Print(moduleId, LockEvent(r.d1Locked))];
        }
      }
    }

    method Beat(r: Reading)
      requires prevValid
      modifies `sent, `lastHeartbeatMs
      ensures Abs() == old(Abs()).(lastHeartbeatMs := if BeatDue(old(Abs()), r.t) then r.t else old(lastHeartbeatMs))
      ensures sent ==
              old(sent) + if BeatDue(old(Abs()), r.t) then [Print(moduleId, Heartbeat(r.d0Open, r.d1Locked))] else []
    {
      if beat {
        if r.t - lastHeartbeatMs >= period {
          sent := sent + [Print(moduleId, Heartbeat(r.d0Open, r.d1Locked))];
          lastHeartbeatMs := r.t;
        }
      }
    }

    /** Every update after the first. */
    method Later(r: Reading)
      requires socketOpen && prevValid
      modifies this
      ensures Abs() == After(old(Abs()), r)
      ensures sent == old(sent) + PrintAll(old(moduleId), Sends(old(Abs()), r))
    {
      ghost var d := Abs();
      Notify(r);
      Beat(r);
      Remember(r);
      LinesOfUpdate(d, r);
    }

    method Update(r: Reading)
      modifies this
      ensures Abs() == After(old(Abs()), r)
      ensures sent == old(sent) + PrintAll(old(moduleId), Sends(old(Abs()), r))
    {
      if !socketOpen {
        return;
      }
      if !prevValid {
        First(r);
        return;
      }
      Later(r);
    }

    /** One datagram in the command thread: skipped unless it is a whole COMMAND for this
        module. */
    method ReceiveCommand(datagram: string) returns (c: Command)
      ensures c == ParseCommand(moduleId, datagram)
    {
      var ts := Tokens(CLib, Received(datagram));
      if |ts| < 2 {
        return Ignored;
      }
      if ts[1] != "COMMAND" {
        return Ignored;
      }
      var cmdid := 0;
      if |ts| >= 3 {
        cmdid := Atoi(ts[2]);
      }
      if |ts| < 5 {
        return Ignored;
      }
      if ts[0] == moduleId {
        return Command(cmdid, ts[3], ts[4]);
      }
      return Ignored;
    }

    method SendFeedback(id: string, cmdid: int, target: string, action: string) returns (ok: bool)
      modifies this`sent
      ensures ok == socketOpen
      ensures sent == old(sent) + if ok then [FeedbackLine(id, cmdid, target, action)] else []
    {
      if !socketOpen {
        return false;
      }
      sent := sent + [FeedbackLine(id, cmdid, target, action)];
      return true;
    }
  }

  // ---------- whole sessions ----------

  /** The door after a session of updates. */
  function Session(d: Door, rs: seq<Reading>): Door
  {
    if rs == [] then d else After(Session(d, rs[..|rs| - 1]), rs[|rs| - 1])
  }

  /** Everything a session sends, in order. */
  function Traffic(d: Door, rs: seq<Reading>): seq<Msg>
  {
    if rs == [] then []
    else Traffic(d, rs[..|rs| - 1]) + Sends(Session(d, rs[..|rs| - 1]), rs[|rs| - 1])
  }

  datatype View = View(open: bool, locked: bool)

  /** What a listener knows after one more message, and after many. */
  function Learn(v: View, msg: Msg): View
  {
    match msg
    case Hello => v
    case Heartbeat(o, l) => View(o, l)
    case DoorEvent(o) => v.(open := o)
    case LockEvent(l) => v.(locked := l)
  }

  function LearnAll(v: View, msgs: seq<Msg>): View
  {
    if msgs == [] then v else Learn(LearnAll(v, msgs[..|msgs| - 1]), msgs[|msgs| - 1])
  }

  /** The same, by EVENT lines alone. */
  function Replay(v: View, msgs: seq<Msg>): View
  {
    if msgs == [] then v
    else
      var w := Replay(v, msgs[..|msgs| - 1]);
      if msgs[|msgs| - 1].Heartbeat? then w else Learn(w, msgs[|msgs| - 1])
  }

  function ViewOf(r: Reading): View { View(r.d0Open, r.d1Locked) }

  lemma {:induction false} LearnAppend(v: View, a: seq<Msg>, b: seq<Msg>)
    ensures LearnAll(v, a + b) == LearnAll(LearnAll(v, a), b)
    ensures Replay(v, a + b) == Replay(Replay(v, a), b)
  {
    if b == [] {
      assert a + b == a;
    } else {
      assert (a + b)[..|a + b| - 1] == a + b[..|b| - 1];
      LearnAppend(v, a, b[..|b| - 1]);
    }
  }

  lemma LearnOpt(v: View, b: bool, msg: Msg)
    ensures LearnAll(v, Opt(b, msg)) == if b then Learn(v, msg) else v
    ensures Replay(v, Opt(b, msg)) == if b && !msg.Heartbeat? then Learn(v, msg) else v
  {
    if b { assert Opt(b, msg)[..0] == []; }
  }

  lemma EventsTell(d: Door, r: Reading)
    requires d.notify && d.prevValid
    ensures LearnAll(ViewOf(d.prev), EventsFor(d, r)) == ViewOf(r) &&
            Replay(ViewOf(d.prev), EventsFor(d, r)) == ViewOf(r)
  {
    var v, a, b := ViewOf(d.prev), r.d0Open != d.prev.d0Open, r.d1Locked != d.prev.d1Locked;
    LearnAppend(v, Opt(a, DoorEvent(r.d0Open)), Opt(b, LockEvent(r.d1Locked)));
    LearnOpt(v, a, DoorEvent(r.d0Open));
    LearnOpt(v.(open := r.d0Open), b, LockEvent(r.d1Locked));
  }

  /** One update tells a listener who was up to date everything that changed. */
  lemma OneUpdateTells(d: Door, r: Reading)
    requires d.socketOpen && d.notify && d.prevValid
    ensures LearnAll(ViewOf(d.prev), Sends(d, r)) == ViewOf(r) && Replay(ViewOf(d.prev), Sends(d, r)) == ViewOf(r)
    ensures ViewOf(After(d, r).prev) == ViewOf(r)
  {
    var beat := BeatDue(d, r.t);
    EventsTell(d, r);
    LearnAppend(ViewOf(d.prev), EventsFor(d, r), Opt(beat, Heartbeat(r.d0Open, r.d1Locked)));
    LearnOpt(ViewOf(r), beat, Heartbeat(r.d0Open, r.d1Locked));
  }

  lemma FirstUpdateIsQuiet(d: Door, rs: seq<Reading>)
    requires d.socketOpen && !d.prevValid && |rs| == 1
    ensures Traffic(d, rs) == Opt(d.beat, Heartbeat(rs[0].d0Open, rs[0].d1Locked))
    ensures Session(d, rs) == After(d, rs[0])
  {
    assert rs[..0] == [];
  }

  /** The EVENT lines of a session, folded over what the first update saw, give exactly
      what the last update saw. */
  lemma {:induction false} EventLogIsExact(d: Door, rs: seq<Reading>)
    requires d.socketOpen && d.notify && !d.prevValid && rs != []
    ensures Replay(ViewOf(rs[0]), Traffic(d, rs)) == ViewOf(rs[|rs| - 1])
    ensures var e := Session(d, rs); e.prevValid && e.socketOpen && e.notify && e.prev == rs[|rs| - 1].(t := 0)
  {
    var n, v := |rs| - 1, ViewOf(rs[0]);
    if n == 0 {
      FirstUpdateIsQuiet(d, rs);
      LearnOpt(v, d.beat, Heartbeat(rs[0].d0Open, rs[0].d1Locked));
    } else {
      EventLogIsExact(d, rs[..n]);
      var e := Session(d, rs[..n]);
      LearnAppend(v, Traffic(d, rs[..n]), Sends(e, rs[n]));
      OneUpdateTells(e, rs[n]);
    }
  }

  /** The states announced by the DOOR events, and by the LOCK events, of some traffic. */
  function DoorStates(msgs: seq<Msg>): seq<bool>
  {
    if msgs == [] then []
    else DoorStates(msgs[..|msgs| - 1]) + if msgs[|msgs| - 1].DoorEvent? then [msgs[|msgs| - 1].open] else []
  }

  function LockStates(msgs: seq<Msg>): seq<bool>
  {
    if msgs == [] then []
    else LockStates(msgs[..|msgs| - 1]) + if msgs[|msgs| - 1].LockEvent? then [msgs[|msgs| - 1].locked] else []
  }

  /** Every announcement flips the state; they lead from `start` to `now`. */
  predicate AlternatesTo(s: seq<bool>, start: bool, now: bool)
  {
    if s == [] then now == start else now == s[|s| - 1] && AlternatesTo(s[..|s| - 1], start, !now)
  }

  lemma {:induction false} StatesAppend(a: seq<Msg>, b: seq<Msg>)
    ensures DoorStates(a + b) == DoorStates(a) + DoorStates(b)
    ensures LockStates(a + b) == LockStates(a) + LockStates(b)
  {
    if b == [] {
      assert a + b == a;
    } else {
      assert (a + b)[..|a + b| - 1] == a + b[..|b| - 1];
      StatesAppend(a, b[..|b| - 1]);
    }
  }

  lemma StatesOfOpt(b: bool, msg: Msg)
    ensures DoorStates(Opt(b, msg)) == if b && msg.DoorEvent? then [msg.open] else []
    ensures LockStates(Opt(b, msg)) == if b && msg.LockEvent? then [msg.locked] else []
  {
    if b { assert Opt(b, msg)[..0] == []; }
  }

  lemma StatesOfEvents(d: Door, r: Reading)
    requires d.notify && d.prevValid
    ensures DoorStates(EventsFor(d, r)) == if r.d0Open != d.prev.d0Open then [r.d0Open] else []
    ensures LockStates(EventsFor(d, r)) == if r.d1Locked != d.prev.d1Locked then [r.d1Locked] else []
  {
    var a, b := r.d0Open != d.prev.d0Open, r.d1Locked != d.prev.d1Locked;
    StatesAppend(Opt(a, DoorEvent(r.d0Open)), Opt(b, LockEvent(r.d1Locked)));
    StatesOfOpt(a, DoorEvent(r.d0Open));
    StatesOfOpt(b, LockEvent(r.d1Locked));
  }

  lemma StatesOfUpdate(d: Door, r: Reading)
    requires d.socketOpen && d.notify && d.prevValid
    ensures DoorStates(Sends(d, r)) == if r.d0Open != d.prev.d0Open then [r.d0Open] else []
    ensures LockStates(Sends(d, r)) == if r.d1Locked != d.prev.d1Locked then [r.d1Locked] else []
  {
    StatesOfEvents(d, r);
    StatesAppend(EventsFor(d, r), Opt(BeatDue(d, r.t), Heartbeat(r.d0Open, r.d1Locked)));
    StatesOfOpt(BeatDue(d, r.t), Heartbeat(r.d0Open, r.d1Locked));
  }

  /** The values at which a sequence of readings changes. */
  function Changes(s: seq<bool>): seq<bool>
  {
    if |s| < 2 then []
    else Changes(s[..|s| - 1]) + if s[|s| - 1] != s[|s| - 2] then [s[|s| - 1]] else []
  }

  function Opens(rs: seq<Reading>): seq<bool> { seq(|rs|, i requires 0 <= i < |rs| => rs[i].d0Open) }

  function Locks(rs: seq<Reading>): seq<bool> { seq(|rs|, i requires 0 <= i < |rs| => rs[i].d1Locked) }

  lemma OneMoreChange(rs: seq<Reading>)
    requires |rs| > 1
    ensures var n := |rs| - 1;
            Changes(Opens(rs)) ==
                Changes(Opens(rs[..n])) + if rs[n].d0Open != rs[n - 1].d0Open then [rs[n].d0Open] else []
    ensures var n := |rs| - 1;
            Changes(Locks(rs)) ==
                Changes(Locks(rs[..n])) + if rs[n].d1Locked != rs[n - 1].d1Locked then [rs[n].d1Locked] else []
  {
    var n := |rs| - 1;
    assert Opens(rs)[..n] == Opens(rs[..n]) && Locks(rs)[..n] == Locks(rs[..n]);
  }

  /** The last update of a session announces what changed since the one before it. */
  lemma LastUpdateAnnounces(d: Door, rs: seq<Reading>)
    requires d.socketOpen && d.notify && !d.prevValid && |rs| > 1
    ensures var n := |rs| - 1;
            var last := Sends(Session(d, rs[..n]), rs[n]);
            && DoorStates(last) == (if rs[n].d0Open != rs[n - 1].d0Open then [rs[n].d0Open] else [])
            && LockStates(last) == (if rs[n].d1Locked != rs[n - 1].d1Locked then [rs[n].d1Locked] else [])
  {
    var n := |rs| - 1;
    EventLogIsExact(d, rs[..n]);
    StatesOfUpdate(Session(d, rs[..n]), rs[n]);
  }

  /** There is no debounce: over a session exactly the changes from one reading to the
      next are announced, however soon they follow each other. */
  lemma {:induction false} EveryChangeIsAnnounced(d: Door, rs: seq<Reading>)
    requires d.socketOpen && d.notify && !d.prevValid && rs != []
    ensures DoorStates(Traffic(d, rs)) == Changes(Opens(rs))
    ensures LockStates(Traffic(d, rs)) == Changes(Locks(rs))
  {
    var n := |rs| - 1;
    if n == 0 {
      NoStatesAtFirst(d, rs);
    } else {
      EveryChangeIsAnnounced(d, rs[..n]);
      LastUpdateAnnounces(d, rs);
      StatesAppend(Traffic(d, rs[..n]), Sends(Session(d, rs[..n]), rs[n]));
      OneMoreChange(rs);
    }
  }

  lemma OneMoreState(s: seq<bool>, start: bool, now: bool, next: bool)
    requires AlternatesTo(s, start, now)
    ensures AlternatesTo(s + (if next != now then [next] else []), start, next)
  {
    if next == now { assert s + [] == s; } else { assert (s + [next])[..|s|] == s; }
  }

  lemma NoStatesAtFirst(d: Door, rs: seq<Reading>)
    requires d.socketOpen && !d.prevValid && |rs| == 1
    ensures DoorStates(Traffic(d, rs)) == [] && LockStates(Traffic(d, rs)) == []
  {
    FirstUpdateIsQuiet(d, rs);
    StatesOfOpt(d.beat, Heartbeat(rs[0].d0Open, rs[0].d1Locked));
  }

  /** DOOR events alternate over a session, and so do LOCK events. */
  lemma {:induction false} EventsAlternate(d: Door, rs: seq<Reading>)
    requires d.socketOpen && d.notify && !d.prevValid && rs != []
    ensures AlternatesTo(DoorStates(Traffic(d, rs)), rs[0].d0Open, rs[|rs| - 1].d0Open)
    ensures AlternatesTo(LockStates(Traffic(d, rs)), rs[0].d1Locked, rs[|rs| - 1].d1Locked)
  {
    var n := |rs| - 1;
    if n == 0 {
      NoStatesAtFirst(d, rs);
    } else {
      EventsAlternate(d, rs[..n]);
      EventLogIsExact(d, rs[..n]);
      var e, msgs := Session(d, rs[..n]), Traffic(d, rs[..n]);
      assert Traffic(d, rs) == msgs + Sends(e, rs[n]);
      StatesAppend(msgs, Sends(e, rs[n]));
      StatesOfUpdate(e, rs[n]);
      OneMoreState(DoorStates(Traffic(d, rs[..n])), rs[0].d0Open, rs[n - 1].d0Open, rs[n].d0Open);
      OneMoreState(LockStates(Traffic(d, rs[..n])), rs[0].d1Locked, rs[n - 1].d1Locked, rs[n].d1Locked);
    }
  }

  // ---------- the rate of heartbeats ----------

  function Beats(msgs: seq<Msg>): nat
  {
    if msgs == [] then 0 else Beats(msgs[..|msgs| - 1]) + if msgs[|msgs| - 1].Heartbeat? then 1 else 0
  }

  predicate ClockOk(rs: seq<Reading>)
  {
    forall i, j | 0 <= i < j < |rs| :: rs[i].t <= rs[j].t
  }

  lemma {:induction false} BeatsAppend(a: seq<Msg>, b: seq<Msg>)
    ensures Beats(a + b) == Beats(a) + Beats(b)
  {
    if b == [] {
      assert a + b == a;
    } else {
      assert (a + b)[..|a + b| - 1] == a + b[..|b| - 1];
      BeatsAppend(a, b[..|b| - 1]);
    }
  }

  lemma BeatsOfOpt(b: bool, msg: Msg)
    ensures Beats(Opt(b, msg)) == if b && msg.Heartbeat? then 1 else 0
  {
    if b { assert Opt(b, msg)[..0] == []; }
  }

  lemma BeatsOfThree(p: bool, a: Msg, q: bool, b: Msg, s: bool, c: Msg)
    requires !a.Heartbeat? && !b.Heartbeat? && c.Heartbeat?
    ensures Beats(Opt(p, a) + Opt(q, b) + Opt(s, c)) == if s then 1 else 0
  {
    BeatsAppend(Opt(p, a) + Opt(q, b), Opt(s, c));
    BeatsAppend(Opt(p, a), Opt(q, b));
    BeatsOfOpt(p, a);
    BeatsOfOpt(q, b);
    BeatsOfOpt(s, c);
  }

  lemma BeatsOfUpdate(d: Door, r: Reading)
    requires d.socketOpen
    ensures Beats(Sends(d, r)) == if BeatDue(d, r.t) then 1 else 0
  {
    BeatsOfThree(d.notify && d.prevValid && r.d0Open != d.prev.d0Open, DoorEvent(r.d0Open),
                 d.notify && d.prevValid && r.d1Locked != d.prev.d1Locked, LockEvent(r.d1Locked),
                 BeatDue(d, r.t), Heartbeat(r.d0Open, r.d1Locked));
  }

  /** `k` periods, added up. */
  function Periods(k: nat, period: int): int
  {
    if k == 0 then 0 else Periods(k - 1, period) + period
  }

  /** The session so far: `beats` heartbeats, the last of them not too early. */
  predicate Spaced(d: Door, e: Door, t0: int, beats: nat, now: int)
  {
    && e.socketOpen && e.beat && e.prevValid && e.period == d.period
    && beats >= 1 && t0 + Periods(beats - 1, d.period) <= e.lastHeartbeatMs <= now
  }

  lemma OneMoreUpdate(d: Door, e: Door, t0: int, beats: nat, now: int, r: Reading, e': Door, beats': nat)
    requires Spaced(d, e, t0, beats, now) && now <= r.t && d.period > 0
    requires e' == After(e, r) && beats' == beats + Beats(Sends(e, r))
    ensures Spaced(d, e', t0, beats', r.t)
  {
    BeatsOfUpdate(e, r);
    assert Periods(beats, d.period) == Periods(beats - 1, d.period) + d.period;
  }

  lemma FirstBeat(d: Door, rs: seq<Reading>)
    requires d.socketOpen && d.beat && !d.prevValid && |rs| == 1
    ensures Spaced(d, Session(d, rs), rs[0].t, Beats(Traffic(d, rs)), rs[0].t)
  {
    FirstUpdateIsQuiet(d, rs);
    BeatsOfOpt(d.beat, Heartbeat(rs[0].d0Open, rs[0].d1Locked));
    assert Periods(0, d.period) == 0;
  }

  lemma ClockOfPrefix(rs: seq<Reading>)
    requires ClockOk(rs) && |rs| > 1
    ensures var n := |rs| - 1;
            && ClockOk(rs[..n]) && rs[..n][0] == rs[0] && rs[..n][n - 1] == rs[n - 1] && rs[n - 1].t <= rs[n].t
  {
  }

  lemma SessionGoesOn(d: Door, rs: seq<Reading>)
    requires |rs| > 1
    ensures var n := |rs| - 1;
            var e, msgs := Session(d, rs[..n]), Traffic(d, rs[..n]);
            && Session(d, rs) == After(e, rs[n])
            && Beats(Traffic(d, rs)) == Beats(msgs) + Beats(Sends(e, rs[n]))
  {
    var n := |rs| - 1;
    BeatsAppend(Traffic(d, rs[..n]), Sends(Session(d, rs[..n]), rs[n]));
  }

  /** The state and traffic of the door after these readings. */
  predicate SpacedSoFar(d: Door, rs: seq<Reading>)
    requires rs != []
  {
    Spaced(d, Session(d, rs), rs[0].t, Beats(Traffic(d, rs)), rs[|rs| - 1].t)
  }

  lemma SpacedGoesOn(d: Door, rs: seq<Reading>)
    requires |rs| > 1 && d.period > 0 && ClockOk(rs) && SpacedSoFar(d, rs[..|rs| - 1])
    ensures SpacedSoFar(d, rs)
  {
    var n := |rs| - 1;
    ClockOfPrefix(rs);
    SessionGoesOn(d, rs);
    OneMoreUpdate(d, Session(d, rs[..n]), rs[0].t, Beats(Traffic(d, rs[..n])), rs[n - 1].t, rs[n],
                  Session(d, rs), Beats(Traffic(d, rs)));
  }

  lemma {:induction false} BeatsAreSpaced(d: Door, rs: seq<Reading>)
    requires d.socketOpen && d.beat && !d.prevValid && d.period > 0 && rs != [] && ClockOk(rs)
    ensures SpacedSoFar(d, rs)
  {
    if |rs| == 1 {
      FirstBeat(d, rs);
    } else {
      ClockOfPrefix(rs);
      BeatsAreSpaced(d, rs[..|rs| - 1]);
      SpacedGoesOn(d, rs);
    }
  }

  lemma {:induction false} PeriodsMultiply(k: nat, period: int)
    ensures Periods(k, period) == k * period
  {
    if k > 0 {
      PeriodsMultiply(k - 1, period);
      assert k * period == (k - 1) * period + period;
    }
  }

  /** With a clock that does not run backwards, at most one heartbeat per period goes out
      after the first. */
  lemma {:induction false} HeartbeatRate(d: Door, rs: seq<Reading>)
    requires d.socketOpen && d.beat && !d.prevValid && d.period > 0 && rs != [] && ClockOk(rs)
    ensures (Beats(Traffic(d, rs)) - 1) * d.period <= rs[|rs| - 1].t - rs[0].t
  {
    BeatsAreSpaced(d, rs);
    PeriodsMultiply(Beats(Traffic(d, rs)) - 1, d.period);
  }

  // ---------- order and wording ----------

  /** The messages of one update come in this order, each at most once: the door, the lock,
      the heartbeat; and the first update of a session brings no more than a heartbeat. */
  lemma {:induction false} UpdateInOrder(d: Door, r: Reading)
    requires d.socketOpen
    ensures var door := d.notify && d.prevValid && r.d0Open != d.prev.d0Open;
            var lock := d.notify && d.prevValid && r.d1Locked != d.prev.d1Locked;
            var beat := d.beat && (!d.prevValid || r.t - d.lastHeartbeatMs >= d.period);
            var i, j := if door then 1 else 0, (if door then 1 else 0) + if lock then 1 else 0;
            var msgs := Sends(d, r);
            && |msgs| == j + (if beat then 1 else 0)
            && (door ==> msgs[0] == DoorEvent(r.d0Open))
            && (lock ==> msgs[i] == LockEvent(r.d1Locked))
            && (beat ==> msgs[j] == Heartbeat(r.d0Open, r.d1Locked))
  {
  }

  lemma JoinOn(w: string, ws: seq<string>)
    requires ws != []
    ensures Join([w] + ws) == w + " " + Join(ws)
  {
    assert ([w] + ws)[1..] == ws;
  }

  lemma DoorTexts(m: string)
    requires |m| <= 15
    ensures Print(m, DoorEvent(true)) == m + " EVENT D0 DOOR OPEN\n"
    ensures Print(m, DoorEvent(false)) == m + " EVENT D0 DOOR CLOSED\n"
  {
    FiveWords(m, "D0", "DOOR", "OPEN", " EVENT D0 DOOR OPEN");
    FiveWords(m, "D0", "DOOR", "CLOSED", " EVENT D0 DOOR CLOSED");
  }

  lemma LockTexts(m: string)
    requires |m| <= 15
    ensures Print(m, LockEvent(true)) == m + " EVENT D1 LOCK LOCKED\n"
    ensures Print(m, LockEvent(false)) == m + " EVENT D1 LOCK UNLOCKED\n"
  {
    FiveWords(m, "D1", "LOCK", "LOCKED", " EVENT D1 LOCK LOCKED");
    FiveWords(m, "D1", "LOCK", "UNLOCKED", " EVENT D1 LOCK UNLOCKED");
  }

  lemma HelloText(m: string)
    requires |m| <= 15
    ensures Print(m, Hello) == m + " HELLO\n"
  {
    JoinOn(m, ["HELLO"]);
  }

  /** The lines as they go out: HELLO, and the two kinds of EVENT. */
  lemma {:induction false} EventTexts(m: string)
    requires |m| <= 15
    ensures Print(m, Hello) == m + " HELLO\n"
    ensures Print(m, DoorEvent(true)) == m + " EVENT D0 DOOR OPEN\n"
    ensures Print(m, DoorEvent(false)) == m + " EVENT D0 DOOR CLOSED\n"
    ensures Print(m, LockEvent(true)) == m + " EVENT D1 LOCK LOCKED\n"
    ensures Print(m, LockEvent(false)) == m + " EVENT D1 LOCK UNLOCKED\n"
  {
    HelloText(m);
    DoorTexts(m);
    LockTexts(m);
  }

  lemma FiveWords(m: string, which: string, what: string, state: string, rest: string)
    requires rest == " EVENT " + which + " " + what + " " + state
    ensures Line([m, "EVENT", which, what, state]) == m + (rest + "\n")
  {
    JoinOn(what, [state]);
    JoinOn(which, [what, state]);
    JoinOn("EVENT", [which, what, state]);
    JoinOn(m, ["EVENT", which, what, state]);
    assert "EVENT" + " " + (which + " " + (what + " " + state)) == rest[1..];
  }

  lemma BeatText(m: string, a: string, b: string)
    ensures Line([m, "HEARTBEAT", a, b]) == m + (" HEARTBEAT " + a + " " + b + "\n")
  {
    JoinOn(a, [b]);
    JoinOn("HEARTBEAT", [a, b]);
    JoinOn(m, ["HEARTBEAT", a, b]);
  }

  function PairText(o: bool, l: bool): string
  {
    match (o, l)
    case (true, true) => "OPEN,LOCKED"
    case (true, false) => "OPEN,UNLOCKED"
    case (false, true) => "CLOSED,LOCKED"
    case (false, false) => "CLOSED,UNLOCKED"
  }

  lemma TokenText(door: string, o: bool, l: bool)
    ensures StateToken(door, o, l) == door + "=" + PairText(o, l) && |PairText(o, l)| <= 15
  {
    assert "OPEN" + "," + "LOCKED" == "OPEN,LOCKED" && "OPEN" + "," + "UNLOCKED" == "OPEN,UNLOCKED";
    assert "CLOSED" + "," + "LOCKED" == "CLOSED,LOCKED" && "CLOSED" + "," + "UNLOCKED" == "CLOSED,UNLOCKED";
    assert door + "=" + OpenWord(o) + "," + LockWord(l) == door + "=" + (OpenWord(o) + "," + LockWord(l));
  }

  /** And the heartbeat, with the same pair for both doors. */
  lemma {:induction false} HeartbeatText(m: string, o: bool, l: bool)
    requires |m| <= 15
    ensures Print(m, Heartbeat(o, l)) ==
            m + (" HEARTBEAT " + ("D0=" + PairText(o, l)) + " " + ("D1=" + PairText(o, l)) + "\n")
  {
    TokenText("D0", o, l);
    TokenText("D1", o, l);
    assert "D0" + "=" == "D0=" && "D1" + "=" == "D1=";
    BeatText(m, "D0=" + PairText(o, l), "D1=" + PairText(o, l));
  }
}
