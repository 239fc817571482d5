/** The hub: what one datagram, one offline sweep and the end of one handler do to its
    tables, table by table. HubServer runs the same steps in place. */
module HubModel {
  import opened Text
  import opened Pending

  const MAX_DOORS := 8
  const MAX_MODULES := 16
  const MAX_HISTORY := 256
  const OFFLINE_TIMEOUT_MS := 10000

  /** The four booleans of a status row. */
  datatype Bits = Bits(d0Open: bool, d0Locked: bool, d1Open: bool, d1Locked: bool)

  datatype Feedback = Feedback(ms: int, target: string, action: string, cmdid: int)

  datatype DoorRow = DoorRow(
    moduleId: string, known: bool, offline: bool, bits: Bits,
    lastHeartbeatMs: int, lastEventMs: int, lastOnlineMs: int, lastHeartbeatLine: string,
    hasLastAddr: bool, lastAddr: Addr, feedback: Feedback)

  const FREE_ROW := DoorRow("", false, false, Bits(false, false, false, false), 0, 0, 0, "",
                            false, Addr(0, 0), Feedback(0, "", "", 0))

  type DoorTable = d: seq<DoorRow> | |d| == MAX_DOORS witness seq(MAX_DOORS, _ => FREE_ROW)

  datatype Endpoint = Endpoint(moduleId: string, addr: Addr, hasAddr: bool)

  type EndpointTable = e: seq<Endpoint> | |e| <= MAX_MODULES

  datatype Event = Event(timestampMs: int, moduleId: string, line: string)

  /** The datagram a handler still has to send once it has released the mutex. */
  datatype Due = Nothing
               | RelayDue(dst: Addr, moduleId: string, cmdid: int, line: string)
               | ForwardDue(moduleId: string, line: string)

  /** What the hub did, in order: the log against which whole runs are judged. */
  datatype Act = Accepted(moduleId: string, cmdid: int, client: Addr)
               | Recorded(row: nat, cmdid: int, target: string, action: string)
               | Relayed(moduleId: string, cmdid: int, dst: Addr, line: string)
               | Forwarded(dst: Addr, line: string)
               | Alerted(row: nat, moduleId: string, eventType: string, door: string, state: string)
               | Commanded(call: nat, cmdid: int, dst: Addr, line: string)

  datatype Hub = Hub(
    doors: DoorTable, endpoints: EndpointTable, pending: PendingTable,
    history: seq<Event>, nextCmdid: int, due: Due, log: seq<Act>)

  /** The hub of a fresh process after hub_udp_init. */
  function InitHub(): Hub
  {
    Hub(seq(MAX_DOORS, _ => FREE_ROW), [], seq(MAX_PENDING, _ => FREE_SLOT), [], 1, Nothing, [])
  }

  // ---------- looking modules up ----------

  predicate IsRowOf(row: DoorRow, moduleId: string)
  {
    row.known && row.moduleId == moduleId
  }

  function FindDoor(doors: seq<DoorRow>, moduleId: string): (r: nat)
    ensures r <= |doors|
    ensures r < |doors| ==> IsRowOf(doors[r], moduleId)
    ensures forall i | 0 <= i < r :: !IsRowOf(doors[i], moduleId)
  {
    if doors == [] || IsRowOf(doors[0], moduleId) then 0 else 1 + FindDoor(doors[1..], moduleId)
  }

  function FindUnknown(doors: seq<DoorRow>): (r: nat)
    ensures r <= |doors|
    ensures r < |doors| ==> !doors[r].known
    ensures forall i | 0 <= i < r :: doors[i].known
  {
    if doors == [] || !doors[0].known then 0 else 1 + FindUnknown(doors[1..])
  }

  /** The module's row, or the first unused one, or |doors| when there is neither. */
  function RowFor(doors: seq<DoorRow>, moduleId: string): (r: nat)
    ensures r <= |doors|
  {
    var found := FindDoor(doors, moduleId);
    if found < |doors| then found else FindUnknown(doors)
  }

  /** The row a module's line starts from: its own, or a blank one with its id. */
  function BaseRow(row: DoorRow, moduleId: string): DoorRow
  {
    if IsRowOf(row, moduleId) then row else FREE_ROW.(moduleId := Trunc(moduleId, ID_LEN), known := true)
  }

  function FindEndpoint(es: seq<Endpoint>, moduleId: string): (k: nat)
    ensures k <= |es|
    ensures k < |es| ==> es[k].moduleId == moduleId
    ensures forall i | 0 <= i < k :: es[i].moduleId != moduleId
  {
    if es == [] || es[0].moduleId == moduleId then 0 else 1 + FindEndpoint(es[1..], moduleId)
  }

  function UpdateEndpoint(es: EndpointTable, moduleId: string, src: Addr): EndpointTable
  {
    var k := FindEndpoint(es, moduleId);
    if k < |es| then es[k := es[k].(addr := src, hasAddr := true)]
    else if |es| >= MAX_MODULES then es
    else es + [Endpoint(Trunc(moduleId, ID_LEN), src, true)]
  }

  // ---------- door states on the wire ----------

  function IndexOf(s: string, c: char): (k: nat)
    ensures k <= |s|
    ensures k < |s| ==> s[k] == c
    ensures forall i | 0 <= i < k :: s[i] != c
  {
    if s == "" || s[0] == c then 0 else 1 + IndexOf(s[1..], c)
  }

  datatype Pair = Pair(open: bool, locked: bool)

  datatype Fields = NoFields | Fields(first: string, second: string)

  /** Splits "D0=OPEN,LOCKED" behind the '=' and at the comma, into two small buffers. */
  function SplitState(token: string): Fields
  {
    var eq := IndexOf(token, '=');
    if eq == |token| then NoFields
    else
      var states := token[eq + 1..];
      var comma := IndexOf(states, ',');
      Fields(Trunc(states[..comma], 31), if comma < |states| then Trunc(states[comma + 1..], 31) else "")
  }

  /** What the fields do not say stays as it was. A lone field may be a lock state. */
  function Decide(f: Fields, was: Pair): Pair
  {
    if f == NoFields then was
    else
      Pair(
        if f.first == "OPEN" then true else if f.first == "CLOSED" then false else was.open,
        if f.second == "LOCKED" || (f.second == "" && f.first == "LOCKED") then true
        else if f.second == "UNLOCKED" || (f.second == "" && f.first == "UNLOCKED") then false
        else was.locked)
  }

  function ParseState(token: string, was: Pair): Pair
  {
    Decide(SplitState(token), was)
  }

  function ApplyStateToken(bits: Bits, token: string): Bits
  {
    if "D0=" <= token then
      var p := ParseState(token, Pair(bits.d0Open, bits.d0Locked));
      bits.(d0Open := p.open, d0Locked := p.locked)
    else if "D1=" <= token then
      var p := ParseState(token, Pair(bits.d1Open, bits.d1Locked));
      bits.(d1Open := p.open, d1Locked := p.locked)
    else bits
  }

  function ApplyStateTokens(bits: Bits, tokens: seq<string>): Bits
  {
    if tokens == [] then bits
    else ApplyStateToken(ApplyStateTokens(bits, tokens[..|tokens| - 1]), tokens[|tokens| - 1])
  }

  // ---------- one line ----------

  predicate IsCommand(ts: seq<string>) requires |ts| >= 2 { ts[1] == "COMMAND" }

  /** A COMMAND the hub registers and forwards: all five words are there. */
  predicate IsAccepted(ts: seq<string>) requires |ts| >= 2 { ts[1] == "COMMAND" && |ts| >= 5 }

  /** A FEEDBACK the hub records: all five words are there. */
  predicate IsRecorded(ts: seq<string>) requires |ts| >= 2 { ts[1] == "FEEDBACK" && |ts| >= 5 }

  function HistLine(ts: seq<string>): string
    requires |ts| >= 2
  {
    Trunc(ts[0] + " " + ts[1], 255)
  }

  function HeartbeatLine(ts: seq<string>): string
    requires |ts| >= 2
  {
    if |ts| > 2 then Trunc(Join(ts[2..]), 255) else HistLine(ts)
  }

  /** An EVENT the hub understands, as the bit it sets; None otherwise. */
  datatype Change = None | SetOpen(door: nat, value: bool) | SetLocked(door: nat, value: bool)

  function ChangeOf(which: string, what: string, state: string): Change
  {
    var door := if which == "D0" then 0 else if which == "D1" then 1 else 2;
    if door == 2 then None
    else if what == "DOOR" then
      if state == "OPEN" then SetOpen(door, true) else if state == "CLOSED" then SetOpen(door, false) else None
    else if what == "LOCK" then
      if state == "LOCKED" then SetLocked(door, true) else if state == "UNLOCKED" then SetLocked(door, false) else None
    else None
  }

  function EventChange(ts: seq<string>): Change
    requires |ts| >= 2
  {
    if ts[1] == "EVENT" && |ts| >= 5 then ChangeOf(ts[2], ts[3], ts[4]) else None
  }

  function ApplyChange(bits: Bits, c: Change): Bits
  {
    match c
    case None => bits
    case SetOpen(door, v) => if door == 0 then bits.(d0Open := v) else bits.(d1Open := v)
    case SetLocked(door, v) => if door == 0 then bits.(d0Locked := v) else bits.(d1Locked := v)
  }

  function FeedbackOf(ts: seq<string>, t: int): Feedback
    requires |ts| >= 5
  {
    Feedback(t, Trunc(ts[3], 31), Trunc(ts[4], 31), Atoi(ts[2]))
  }

  function RowAfter(base: DoorRow, ts: seq<string>, src: Addr, t: int): (row: DoorRow)
    requires |ts| >= 2
    ensures row.known == base.known && row.moduleId == base.moduleId && row.offline == base.offline
    ensures !IsCommand(ts) ==> row.hasLastAddr && row.lastAddr == src
    ensures !IsRecorded(ts) ==> row.feedback == base.feedback
  {
    if IsCommand(ts) then base
    else
      var row := base.(lastAddr := src, hasLastAddr := true);
      if ts[1] == "HEARTBEAT" then
        row.(bits := ApplyStateTokens(row.bits, ts[2..]), lastHeartbeatMs := t, lastHeartbeatLine := HeartbeatLine(ts))
      else if ts[1] == "EVENT" then row.(bits := ApplyChange(row.bits, EventChange(ts)), lastEventMs := t)
      else if ts[1] == "FEEDBACK" then if |ts| >= 5 then row.(feedback := FeedbackOf(ts, t)) else row
      else row.(lastEventMs := t)
  }

  function DoorsAfter(doors: DoorTable, ts: seq<string>, src: Addr, t: int): DoorTable
    requires |ts| >= 2
  {
    var r := RowFor(doors, ts[0]);
    if r == MAX_DOORS then doors else doors[r := RowAfter(BaseRow(doors[r], ts[0]), ts, src, t)]
  }

  function EndpointsAfter(es: EndpointTable, ts: seq<string>, src: Addr): EndpointTable
    requires |ts| >= 2
  {
    if IsCommand(ts) then es else UpdateEndpoint(es, ts[0], src)
  }

  /** What the line does to the table of waiting clients, as at most one operation. */
  function PendingOps(ts: seq<string>, src: Addr, t: int): seq<Op>
    requires |ts| >= 2
  {
    if IsAccepted(ts) then [Reg(Atoi(ts[2]), ts[0], src, t)]
    else if IsRecorded(ts) then [Clr(ts[0], Atoi(ts[2]))]
    else []
  }

  function HistoryOf(tracked: bool, ts: seq<string>, t: int): seq<Event>
    requires |ts| >= 2
  {
    var id := Trunc(ts[0], ID_LEN);
    if !tracked then [Event(t, id, "<NO-STATE> (untracked)")]
    else
      [Event(t, id, HistLine(ts))] +
      if IsRecorded(ts) then [Event(t, id, Trunc(Join(["FEEDBACK", Dec(Atoi(ts[2])), ts[3], ts[4]]), 255))] else []
  }

  function RelayLine(ts: seq<string>): string
    requires |ts| >= 5
  {
    Trunc(Line([ts[0], "FEEDBACK", Dec(Atoi(ts[2])), ts[3], ts[4]]), 255)
  }

  function DueOf(p: PendingTable, ts: seq<string>, line: string): Due
    requires |ts| >= 2
  {
    if IsAccepted(ts) then ForwardDue(ts[0], line)
    else if IsRecorded(ts) then
      var k := FindMatch(p, ts[0], Atoi(ts[2]));
      if k < |p| then RelayDue(p[k].clientAddr, ts[0], Atoi(ts[2]), RelayLine(ts)) else Nothing
    else Nothing
  }

  function LogOf(r: nat, ts: seq<string>, src: Addr): seq<Act>
    requires |ts| >= 2
  {
    if EventChange(ts) != None then [Alerted(r, ts[0], ts[3], ts[2], ts[4])]
    else if IsRecorded(ts) then [Recorded(r, Atoi(ts[2]), Trunc(ts[3], 31), Trunc(ts[4], 31))]
    else if IsAccepted(ts) then [Accepted(Trunc(ts[0], ID_LEN), Atoi(ts[2]), src)]
    else []
  }

  function HandleTokens(h: Hub, ts: seq<string>, line: string, src: Addr, t: int): Hub
    requires |ts| >= 2
  {
    var r := RowFor(h.doors, ts[0]);
    var h' := h.(endpoints := EndpointsAfter(h.endpoints, ts, src),
                 history := h.history + HistoryOf(r < MAX_DOORS, ts, t));
    if r == MAX_DOORS then h'
    else h'.(doors := DoorsAfter(h.doors, ts, src, t),
             pending := ApplyAll(h.pending, PendingOps(ts, src, t)),
             due := DueOf(h.pending, ts, line),
             log := h.log + LogOf(r, ts, src))
  }

  /** The locked part of the handler: everything up to the point where it gives up the
      mutex for good or in order to send. */
  function Receive(h: Hub, datagram: string, src: Addr, t: int): Hub
  {
    var line := Received(datagram);
    var ts := Tokens(CLib, line);
    if |ts| < 2 then h else HandleTokens(h, ts, line, src, t)
  }

  /** The datagram that is due, if the network lets it out. */
  function SendActs(h: Hub, netOk: bool): seq<Act>
  {
    match h.due
    case Nothing => []
    case RelayDue(dst, moduleId, cmdid, line) => if netOk then [Relayed(moduleId, cmdid, dst, line)] else []
    case ForwardDue(moduleId, line) =>
      var k := FindEndpoint(h.endpoints, moduleId);
      if k < |h.endpoints| && h.endpoints[k].hasAddr && netOk then [Forwarded(h.endpoints[k].addr, line)] else []
  }

  /** The unlocked part of the handler. */
  function Finish(h: Hub, netOk: bool): Hub
  {
    h.(due := Nothing, log := h.log + SendActs(h, netOk))
  }

  // ---------- the offline sweep ----------

  predicate Silent(row: DoorRow, now: int)
  {
    now - row.lastHeartbeatMs > OFFLINE_TIMEOUT_MS
  }

  predicate GoesOffline(row: DoorRow, now: int) { row.known && Silent(row, now) && !row.offline }

  predicate ComesBack(row: DoorRow, now: int) { row.known && !Silent(row, now) && row.offline }

  function SweepRow(row: DoorRow, now: int): DoorRow
  {
    if GoesOffline(row, now) then row.(offline := true, lastOnlineMs := now)
    else if ComesBack(row, now) then row.(offline := false)
    else row
  }

  function SweepState(row: DoorRow, now: int): string { if GoesOffline(row, now) then "OFFLINE" else "ONLINE" }

  function RowAlerts(row: DoorRow, i: nat, now: int): seq<Act>
  {
    if GoesOffline(row, now) || ComesBack(row, now)
    then [Alerted(i, row.moduleId, "SYSTEM", "MODULE", SweepState(row, now))] else []
  }

  function RowEvents(row: DoorRow, now: int): seq<Event>
  {
    if GoesOffline(row, now) || ComesBack(row, now)
    then [Event(now, Trunc(row.moduleId, ID_LEN),
                Trunc(Line([row.moduleId, "EVENT", "SYSTEM", SweepState(row, now)]), 255))]
    else []
  }

  function SweepAlerts(doors: seq<DoorRow>, now: int): seq<Act>
  {
    if doors == [] then [] else SweepAlerts(doors[..|doors| - 1], now) + RowAlerts(doors[|doors| - 1], |doors| - 1, now)
  }

  function SweepEvents(doors: seq<DoorRow>, now: int): seq<Event>
  {
    if doors == [] then [] else SweepEvents(doors[..|doors| - 1], now) + RowEvents(doors[|doors| - 1], now)
  }

  function Sweep(h: Hub, now: int): Hub
  {
    h.(doors := seq(MAX_DOORS, i requires 0 <= i < MAX_DOORS => SweepRow(h.doors[i], now)),
       history := h.history + SweepEvents(h.doors, now),
       log := h.log + SweepAlerts(h.doors, now))
  }
}
