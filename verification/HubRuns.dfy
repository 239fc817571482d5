/** Everything the hub keeps true over whole runs: any datagrams, sweeps and mutex
    releases, in any order, with any clock readings. */
module HubRuns {
  import opened Sequences
  import opened Text
  import opened Pending
  import opened HubModel

  /** One atomic step. The receiver thread finishes a handler before it takes the next
      datagram or sweeps; ids are issued and commands transmitted by other threads. */
  datatype Input = Datagram(text: string, src: Addr, t: int)
                 | Release(netOk: bool)
                 | Tick(now: int)
                 | IssueId
                 | Transmit(call: nat, cmdid: int, dst: Addr, line: string)

  /** A step that is not possible in this state changes nothing. */
  function Step(h: Hub, i: Input): Hub
  {
    match i
    case Datagram(text, src, t) => if h.due == Nothing then Receive(h, text, src, t) else h
    case Release(netOk) => Finish(h, netOk)
    case Tick(now) => if h.due == Nothing then Sweep(h, now) else h
    case IssueId => h.(nextCmdid := h.nextCmdid + 1)
    case Transmit(call, cmdid, dst, line) => h.(log := h.log + [Commanded(call, cmdid, dst, line)])
  }

  function Run(h: Hub, inputs: seq<Input>): Hub
  {
    if inputs == [] then h else Step(Run(h, inputs[..|inputs| - 1]), inputs[|inputs| - 1])
  }

  lemma {:induction false} RunStep(h: Hub, inputs: seq<Input>, i: Input)
    ensures Run(h, inputs + [i]) == Step(Run(h, inputs), i)
  {
    assert (inputs + [i])[..|inputs|] == inputs;
  }

  lemma {:induction false} RunAppend(h: Hub, a: seq<Input>, b: seq<Input>)
    ensures Run(h, a + b) == Run(Run(h, a), b)
  {
    if b == [] {
      assert a + b == a;
    } else {
      assert (a + b)[..|a + b| - 1] == a + b[..|b| - 1];
      RunAppend(h, a, b[..|b| - 1]);
    }
  }

  lemma {:induction false} RunFromFirst(h: Hub, inputs: seq<Input>)
    requires inputs != []
    ensures Run(h, inputs) == Run(Step(h, inputs[0]), inputs[1..])
  {
    assert inputs == [inputs[0]] + inputs[1..];
    RunAppend(h, [inputs[0]], inputs[1..]);
    RunStep(h, [], inputs[0]);
    assert [] + [inputs[0]] == [inputs[0]];
  }

  // ---------- the receiver thread's own steps ----------

  /** A step of a thread that sends commands, not of the receiver. */
  predicate OfOthers(i: Input) { i.IssueId? || i.Transmit? }

  /** What the receiver thread itself does in a run, in order. */
  function OwnInputs(inputs: seq<Input>): seq<Input>
  {
    if inputs == [] then []
    else (if OfOthers(inputs[0]) then [] else [inputs[0]]) + OwnInputs(inputs[1..])
  }

  lemma {:induction false} OwnAppend(a: seq<Input>, b: seq<Input>)
    ensures OwnInputs(a + b) == OwnInputs(a) + OwnInputs(b)
  {
    if a == [] {
      assert a + b == b;
    } else {
      assert (a + b)[1..] == a[1..] + b;
      OwnAppend(a[1..], b);
    }
  }

  lemma OwnOfOne(i: Input)
    ensures OwnInputs([i]) == if OfOthers(i) then [] else [i]
  {
    assert [i][1..] == [];
  }

  /** Only the receiver's own steps carry ids. */
  lemma {:induction false} ShortIdsOfOwn(inputs: seq<Input>)
    ensures ShortIds(OwnInputs(inputs)) <==> ShortIds(inputs)
  {
    if inputs != [] {
      ShortIdsOfOwn(inputs[1..]);
      var own := OwnInputs(inputs[1..]);
      assert forall i :: i in OwnInputs(inputs) <==> i in own || (i == inputs[0] && !OfOthers(i));
      assert forall i :: i in inputs <==> i == inputs[0] || i in inputs[1..];
    }
  }

  function Words(text: string): seq<string> { Tokens(CLib, Received(text)) }

  /** The datagram names a module whose id the hub stores whole. */
  predicate ShortId(i: Input)
  {
    i.Datagram? ==> |Words(i.text)| < 2 || |Words(i.text)[0]| <= ID_LEN
  }

  predicate ShortIds(inputs: seq<Input>) { forall i | i in inputs :: ShortId(i) }

  /** The datagram a step really handles, as its words; [] for every other step. */
  function Handled(h: Hub, i: Input): (ts: seq<string>)
    ensures ts == [] || |ts| >= 2
  {
    if i.Datagram? && h.due == Nothing && |Words(i.text)| >= 2 then Words(i.text) else []
  }

  /** What a step adds to the log. */
  function ActsOf(h: Hub, i: Input): seq<Act>
  {
    match i
    case Datagram(text, src, t) =>
      var ts := Handled(h, i);
      if ts == [] || RowFor(h.doors, ts[0]) == MAX_DOORS then [] else LogOf(RowFor(h.doors, ts[0]), ts, src)
    case Release(netOk) => SendActs(h, netOk)
    case Tick(now) => if h.due == Nothing then SweepAlerts(h.doors, now) else []
    case IssueId => []
    case Transmit(call, cmdid, dst, line) => [Commanded(call, cmdid, dst, line)]
  }

  lemma StepLogs(h: Hub, i: Input)
    ensures Step(h, i).log == h.log + ActsOf(h, i)
  {
  }

  // ---------- the two routing tables ----------

  ghost predicate KnownPrefix(d: DoorTable)
  {
    forall i, j | 0 <= i < j < MAX_DOORS && d[j].known :: d[i].known
  }

  ghost predicate DistinctRows(d: DoorTable)
  {
    forall i, j | 0 <= i < j < MAX_DOORS && d[i].known && d[j].known :: d[i].moduleId != d[j].moduleId
  }

  ghost predicate DistinctEndpoints(e: EndpointTable)
  {
    forall i, j | 0 <= i < j < |e| :: e[i].moduleId != e[j].moduleId
  }

  ghost predicate SameAddress(d: DoorTable, e: EndpointTable)
  {
    forall i, j | 0 <= i < MAX_DOORS && 0 <= j < |e| && d[i].known && d[i].moduleId == e[j].moduleId ::
      d[i].hasLastAddr && e[j].hasAddr && d[i].lastAddr == e[j].addr
  }

  ghost predicate RowlessMeansFull(d: DoorTable, e: EndpointTable)
  {
    forall j | 0 <= j < |e| && FindDoor(d, e[j].moduleId) == MAX_DOORS :: FindUnknown(d) == MAX_DOORS
  }

  ghost predicate EndpointlessMeansFull(d: DoorTable, e: EndpointTable)
  {
    forall i | 0 <= i < MAX_DOORS && d[i].known && d[i].hasLastAddr && FindEndpoint(e, d[i].moduleId) == |e| ::
      |e| == MAX_MODULES
  }

  /** The door table and the endpoint table tell the same story. */
  ghost predicate Routed(d: DoorTable, e: EndpointTable)
  {
    && KnownPrefix(d) && DistinctRows(d) && DistinctEndpoints(e)
    && SameAddress(d, e) && RowlessMeansFull(d, e) && EndpointlessMeansFull(d, e)
  }

  /** What a line does to the tables, as far as routing can tell. */
  ghost predicate Touched(d: DoorTable, d': DoorTable, r: nat, m: string)
  {
    && r == RowFor(d, m)
    && (r == MAX_DOORS ==> d' == d)
    && (r < MAX_DOORS ==> d' == d[r := d'[r]] && IsRowOf(d'[r], m))
  }

  lemma LineTouches(d: DoorTable, ts: seq<string>, src: Addr, t: int)
    requires |ts| >= 2 && |ts[0]| <= ID_LEN
    ensures Touched(d, DoorsAfter(d, ts, src, t), RowFor(d, ts[0]), ts[0])
  {
  }

  lemma TouchedKeepsRows(d: DoorTable, d': DoorTable, r: nat, m: string)
    requires Touched(d, d', r, m) && KnownPrefix(d) && DistinctRows(d)
    ensures KnownPrefix(d') && DistinctRows(d')
  {
  }

  lemma FoundAfterTouch(d: DoorTable, d': DoorTable, r: nat, m: string, id: string)
    requires Touched(d, d', r, m)
    ensures FindDoor(d', id) < MAX_DOORS <==> FindDoor(d, id) < MAX_DOORS || (id == m && r < MAX_DOORS)
    ensures FindUnknown(d') < MAX_DOORS ==> FindUnknown(d) < MAX_DOORS
  {
    var f, f' := FindDoor(d, id), FindDoor(d', id);
    if f < MAX_DOORS { assert IsRowOf(d'[f], id); }
    if r < MAX_DOORS && id == m { assert IsRowOf(d'[r], m); }
    if f' < MAX_DOORS && f' != r { assert IsRowOf(d[f'], id); }
  }

  lemma UpdatedEndpoints(e: EndpointTable, m: string, src: Addr, id: string)
    requires |m| <= ID_LEN
    ensures var e' := UpdateEndpoint(e, m, src);
            FindEndpoint(e', id) < |e'| <==> FindEndpoint(e, id) < |e| || (id == m && |e| < MAX_MODULES)
  {
    var e' := UpdateEndpoint(e, m, src);
    var f, f' := FindEndpoint(e, id), FindEndpoint(e', id);
    if f < |e| { assert e'[f].moduleId == id; }
    if |e| < |e'| { assert e'[|e|].moduleId == m; }
    if f' < |e| { assert e[f'].moduleId == id; }
  }

  lemma LineKeepsRouted(d: DoorTable, e: EndpointTable, ts: seq<string>, src: Addr, t: int)
    requires |ts| >= 2 && |ts[0]| <= ID_LEN
    requires Routed(d, e)
    ensures Routed(DoorsAfter(d, ts, src, t), EndpointsAfter(e, ts, src))
  {
    var m := ts[0];
    var d', e' := DoorsAfter(d, ts, src, t), EndpointsAfter(e, ts, src);
    var r := RowFor(d, m);
    LineTouches(d, ts, src, t);
    TouchedKeepsRows(d, d', r, m);
    forall j | 0 <= j < |e'| && FindDoor(d', e'[j].moduleId) == MAX_DOORS ensures FindUnknown(d') == MAX_DOORS {
      FoundAfterTouch(d, d', r, m, e'[j].moduleId);
    }
    forall i | 0 <= i < MAX_DOORS && d'[i].known && d'[i].hasLastAddr && FindEndpoint(e', d'[i].moduleId) == |e'|
      ensures |e'| == MAX_MODULES
    {
      if !IsCommand(ts) { UpdatedEndpoints(e, m, src, d'[i].moduleId); }
    }
    AddressesStaySame(d, d', r, e, ts, src);
  }

  lemma AddressesStaySame(d: DoorTable, d': DoorTable, r: nat, e: EndpointTable, ts: seq<string>, src: Addr)
    requires |ts| >= 2 && |ts[0]| <= ID_LEN
    requires Touched(d, d', r, ts[0]) && Routed(d, e) && DistinctRows(d')
    requires r < MAX_DOORS && IsCommand(ts) ==> d'[r] == BaseRow(d[r], ts[0])
    requires r < MAX_DOORS && !IsCommand(ts) ==> d'[r].hasLastAddr && d'[r].lastAddr == src
    ensures SameAddress(d', EndpointsAfter(e, ts, src)) && DistinctEndpoints(EndpointsAfter(e, ts, src))
  {
    var m, e' := ts[0], EndpointsAfter(e, ts, src);
    forall i, j | 0 <= i < MAX_DOORS && 0 <= j < |e'| && d'[i].known && d'[i].moduleId == e'[j].moduleId
      ensures d'[i].hasLastAddr && e'[j].hasAddr && d'[i].lastAddr == e'[j].addr
    {
      if e'[j].moduleId != m {
        assert i != r && j < |e| && e'[j] == e[j] && d'[i] == d[i];
      } else {
        assert i == r;
        assert IsCommand(ts) ==> d[r].known;
      }
    }
  }

  lemma SweepKeepsLookups(d: DoorTable, d': DoorTable, now: int)
    requires forall i | 0 <= i < MAX_DOORS :: d'[i] == SweepRow(d[i], now)
    ensures forall id: string :: FindDoor(d', id) == FindDoor(d, id)
    ensures FindUnknown(d') == FindUnknown(d)
  {
    assert forall i | 0 <= i < MAX_DOORS :: d'[i].known == d[i].known && d'[i].moduleId == d[i].moduleId;
    forall id: string ensures FindDoor(d', id) == FindDoor(d, id) {
      var f, f' := FindDoor(d, id), FindDoor(d', id);
      if f < MAX_DOORS { assert IsRowOf(d'[f], id); }
      if f' < MAX_DOORS { assert IsRowOf(d[f'], id); }
    }
  }

  lemma SweepKeepsRouted(h: Hub, now: int)
    requires Routed(h.doors, h.endpoints)
    ensures Routed(Sweep(h, now).doors, h.endpoints)
  {
    var d, d' := h.doors, Sweep(h, now).doors;
    SweepKeepsLookups(d, d', now);
    assert forall i | 0 <= i < MAX_DOORS ::
      d'[i].known == d[i].known && d'[i].moduleId == d[i].moduleId &&
      d'[i].hasLastAddr == d[i].hasLastAddr && d'[i].lastAddr == d[i].lastAddr;
  }

  /** At every release of the mutex, in every run whose module ids fit their fields, the
      two tables agree. */
  lemma {:induction false} RoutingTablesAgree(inputs: seq<Input>)
    requires ShortIds(inputs)
    ensures var h := Run(InitHub(), inputs); Routed(h.doors, h.endpoints)
  {
    if inputs != [] {
      var before, last := inputs[..|inputs| - 1], inputs[|inputs| - 1];
      RoutingTablesAgree(before);
      var h := Run(InitHub(), before);
      assert last in inputs;
      if Handled(h, last) != [] { LineKeepsRouted(h.doors, h.endpoints, Words(last.text), last.src, last.t); }
      if last.Tick? { SweepKeepsRouted(h, last.now); }
    }
  }

  /** Duplicate rows come from long ids only: a line breaks the uniqueness of the rows
      exactly when its id is too long to be stored whole, the stored part already names
      a row, and there is an unused row to put the duplicate in. */
  lemma {:induction false} DuplicateRowsExactly(d: DoorTable, ts: seq<string>, src: Addr, t: int)
    requires |ts| >= 2 && DistinctRows(d)
    ensures DistinctRows(DoorsAfter(d, ts, src, t)) <==>
            !(|ts[0]| > ID_LEN && FindDoor(d, Trunc(ts[0], ID_LEN)) < MAX_DOORS
              && FindDoor(d, ts[0]) == MAX_DOORS && FindUnknown(d) < MAX_DOORS)
  {
    var m, d', r := Trunc(ts[0], ID_LEN), DoorsAfter(d, ts, src, t), RowFor(d, ts[0]);
    var f := FindDoor(d, m);
    if r < MAX_DOORS && !d[r].known {
      assert d'[r].known && d'[r].moduleId == m;
      if f < MAX_DOORS { assert d'[f] == d[f]; }
    }
  }

  /** The same for endpoints. */
  lemma {:induction false} DuplicateEndpointsExactly(e: EndpointTable, m: string, src: Addr)
    requires DistinctEndpoints(e)
    ensures DistinctEndpoints(UpdateEndpoint(e, m, src)) <==>
            !(|m| > ID_LEN && FindEndpoint(e, Trunc(m, ID_LEN)) < |e|
              && FindEndpoint(e, m) == |e| && |e| < MAX_MODULES)
  {
    var e' := UpdateEndpoint(e, m, src);
    var f := FindEndpoint(e, Trunc(m, ID_LEN));
    if |e| < |e'| && f < |e| { assert e'[f].moduleId == e'[|e|].moduleId; }
  }

  /** A line for one module leaves every other module's row as it was. */
  lemma {:induction false} OtherRowsUntouched(d: DoorTable, ts: seq<string>, src: Addr, t: int, i: nat)
    requires |ts| >= 2 && i < MAX_DOORS && d[i].known && d[i].moduleId != ts[0]
    ensures DoorsAfter(d, ts, src, t)[i] == d[i]
  {
  }

  // ---------- relays and the commands behind them ----------

  /** COMMANDs accepted for (m, c) from one of `clients`. */
  ghost function AcceptedCount(log: seq<Act>, m: string, c: int, clients: iset<Addr>): nat
  {
    if log == [] then 0
    else
      var a := log[|log| - 1];
      AcceptedCount(log[..|log| - 1], m, c, clients)
      + if a.Accepted? && a.moduleId == m && a.cmdid == c && a.client in clients then 1 else 0
  }

  /** FEEDBACKs relayed for (m, c) to one of `clients`. */
  ghost function RelayedCount(log: seq<Act>, m: string, c: int, clients: iset<Addr>): nat
  {
    if log == [] then 0
    else
      var a := log[|log| - 1];
      RelayedCount(log[..|log| - 1], m, c, clients)
      + if a.Relayed? && a.moduleId == m && a.cmdid == c && a.dst in clients then 1 else 0
  }

  ghost predicate WaitsFor(e: PendingCmd, m: string, c: int, clients: iset<Addr>)
  {
    Matches(e, m, c) && e.clientAddr in clients
  }

  ghost function WaitingCount(p: seq<PendingCmd>, m: string, c: int, clients: iset<Addr>): nat
  {
    if p == [] then 0 else (if WaitsFor(p[0], m, c, clients) then 1 else 0) + WaitingCount(p[1..], m, c, clients)
  }

  ghost function DueCount(due: Due, m: string, c: int, clients: iset<Addr>): nat
  {
    if due.RelayDue? && due.moduleId == m && due.cmdid == c && due.dst in clients then 1 else 0
  }

  lemma {:induction false} WaitingAfterUpdate(p: seq<PendingCmd>, k: nat, e: PendingCmd,
          m: string, c: int, clients: iset<Addr>)
    requires k < |p|
    ensures WaitingCount(p[k := e], m, c, clients) == WaitingCount(p, m, c, clients)
            + (if WaitsFor(e, m, c, clients) then 1 else 0) - (if WaitsFor(p[k], m, c, clients) then 1 else 0)
  {
    var q := p[k := e];
    if k == 0 {
      assert q[1..] == p[1..];
    } else {
      assert q[1..] == p[1..][k - 1 := e];
      WaitingAfterUpdate(p[1..], k - 1, e, m, c, clients);
    }
  }

  /** Commands still to be answered for (m, c), relays in hand included. */
  ghost predicate Conserved(h: Hub, m: string, c: int, clients: iset<Addr>)
  {
    RelayedCount(h.log, m, c, clients) + DueCount(h.due, m, c, clients) + WaitingCount(h.pending, m, c, clients)
    <= AcceptedCount(h.log, m, c, clients)
  }

  lemma {:induction false} CountsOfOne(log: seq<Act>, a: Act, m: string, c: int, clients: iset<Addr>)
    ensures AcceptedCount(log + [a], m, c, clients) == AcceptedCount(log, m, c, clients)
            + if a.Accepted? && a.moduleId == m && a.cmdid == c && a.client in clients then 1 else 0
    ensures RelayedCount(log + [a], m, c, clients) == RelayedCount(log, m, c, clients)
            + if a.Relayed? && a.moduleId == m && a.cmdid == c && a.dst in clients then 1 else 0
  {
    assert (log + [a])[..|log|] == log;
  }

  lemma {:induction false} CountsIgnoreAlerts(log: seq<Act>, alerts: seq<Act>, m: string, c: int, clients: iset<Addr>)
    requires forall a | a in alerts :: a.Alerted?
    ensures AcceptedCount(log + alerts, m, c, clients) == AcceptedCount(log, m, c, clients)
    ensures RelayedCount(log + alerts, m, c, clients) == RelayedCount(log, m, c, clients)
    decreases |alerts|
  {
    if alerts == [] {
      assert log + alerts == log;
    } else {
      assert alerts[0] in alerts;
      assert log + alerts == (log + [alerts[0]]) + alerts[1..];
      CountsOfOne(log, alerts[0], m, c, clients);
      CountsIgnoreAlerts(log + [alerts[0]], alerts[1..], m, c, clients);
    }
  }

  lemma {:induction false} SweepOnlyAlerts(doors: seq<DoorRow>, now: int)
    ensures forall a | a in SweepAlerts(doors, now) :: IsSystem(a)
  {
    if doors != [] { SweepOnlyAlerts(doors[..|doors| - 1], now); }
  }

  /** One operation on the pending table, against the books. */
  lemma OpConserves(p: PendingTable, op: Op, m: string, c: int, clients: iset<Addr>)
    requires c != 0
    ensures op.Reg? ==> WaitingCount(Apply(p, op), m, c, clients) <= WaitingCount(p, m, c, clients)
                        + if Trunc(op.moduleId, ID_LEN) == m && op.cmdid == c && op.client in clients then 1 else 0
    ensures op.Clr? ==>
              var k := FindMatch(p, op.moduleId, op.cmdid);
              WaitingCount(Apply(p, op), m, c, clients) == WaitingCount(p, m, c, clients)
              - if k < MAX_PENDING && WaitsFor(p[k], m, c, clients) then 1 else 0
  {
    match op {
      case Reg(cmdid, moduleId, client, t) =>
        WaitingAfterUpdate(p, SlotFor(p), Apply(p, op)[SlotFor(p)], m, c, clients);
      case Clr(moduleId, cmdid) =>
        var k := FindMatch(p, moduleId, cmdid);
        if k < MAX_PENDING { WaitingAfterUpdate(p, k, Apply(p, op)[k], m, c, clients); }
    }
  }

  lemma LogConserves(log: seq<Act>, r: nat, ts: seq<string>, src: Addr, m: string, c: int, clients: iset<Addr>)
    requires |ts| >= 2
    ensures RelayedCount(log + LogOf(r, ts, src), m, c, clients) == RelayedCount(log, m, c, clients)
    ensures AcceptedCount(log + LogOf(r, ts, src), m, c, clients) == AcceptedCount(log, m, c, clients)
            + if IsAccepted(ts) && Trunc(ts[0], ID_LEN) == m && Atoi(ts[2]) == c && src in clients then 1 else 0
  {
    var acts := LogOf(r, ts, src);
    if acts == [] { assert log + acts == log; } else { CountsOfOne(log, acts[0], m, c, clients); }
  }

  /** The relay a line makes due is the one whose entry it takes out of the table. */
  lemma TablesConserve(p: PendingTable, ts: seq<string>, line: string, src: Addr, t: int,
          m: string, c: int, clients: iset<Addr>)
    requires |ts| >= 2 && c != 0
    ensures DueCount(DueOf(p, ts, line), m, c, clients) +
            WaitingCount(ApplyAll(p, PendingOps(ts, src, t)), m, c, clients)
            <= WaitingCount(p, m, c, clients)
               + if IsAccepted(ts) && Trunc(ts[0], ID_LEN) == m && Atoi(ts[2]) == c && src in clients then 1 else 0
  {
    var ops := PendingOps(ts, src, t);
    if ops != [] {
      assert ApplyAll(p, ops) == Apply(p, ops[0]) by { assert ops[1..] == []; }
      OpConserves(p, ops[0], m, c, clients);
    }
  }

  lemma LineConserves(h: Hub, ts: seq<string>, line: string, src: Addr, t: int, m: string, c: int, clients: iset<Addr>)
    requires |ts| >= 2 && h.due == Nothing && c != 0
    requires Conserved(h, m, c, clients)
    ensures Conserved(HandleTokens(h, ts, line, src, t), m, c, clients)
  {
    LogConserves(h.log, RowFor(h.doors, ts[0]), ts, src, m, c, clients);
    TablesConserve(h.pending, ts, line, src, t, m, c, clients);
  }

  lemma {:induction false} NothingWaits(p: seq<PendingCmd>, m: string, c: int, clients: iset<Addr>)
    requires c != 0 && forall e | e in p :: !Live(e)
    ensures WaitingCount(p, m, c, clients) == 0
  {
    if p != [] {
      assert p[0] in p;
      NothingWaits(p[1..], m, c, clients);
    }
  }

  lemma {:induction false} StepConserves(h: Hub, i: Input, m: string, c: int, clients: iset<Addr>)
    requires c != 0 && Conserved(h, m, c, clients)
    ensures Conserved(Step(h, i), m, c, clients)
  {
    match i {
      case Datagram(text, src, t) =>
        if Handled(h, i) != [] { LineConserves(h, Words(text), Received(text), src, t, m, c, clients); }
      case Release(netOk) =>
        var acts := SendActs(h, netOk);
        if acts == [] { assert h.log + acts == h.log; } else { CountsOfOne(h.log, acts[0], m, c, clients); }
      case Tick(now) =>
        SweepOnlyAlerts(h.doors, now);
        CountsIgnoreAlerts(h.log, SweepAlerts(h.doors, now), m, c, clients);
      case IssueId =>
      case Transmit(call, cmdid, dst, line) =>
        CountsOfOne(h.log, Commanded(call, cmdid, dst, line), m, c, clients);
    }
  }

  lemma {:induction false} RunConserves(inputs: seq<Input>, m: string, c: int, clients: iset<Addr>)
    requires c != 0
    ensures Conserved(Run(InitHub(), inputs), m, c, clients)
  {
    if inputs == [] {
      NothingWaits(InitHub().pending, m, c, clients);
    } else {
      RunConserves(inputs[..|inputs| - 1], m, c, clients);
      StepConserves(Run(InitHub(), inputs[..|inputs| - 1]), inputs[|inputs| - 1], m, c, clients);
    }
  }

  lemma {:induction false} CountedMeansLogged(log: seq<Act>, m: string, c: int, client: Addr)
    ensures AcceptedCount(log, m, c, iset{client}) > 0 <==> Accepted(m, c, client) in log
    ensures (exists line :: Relayed(m, c, client, line) in log) ==> RelayedCount(log, m, c, iset{client}) > 0
  {
    if log != [] {
      var n := |log| - 1;
      CountedMeansLogged(log[..n], m, c, client);
      assert log == log[..n] + [log[n]];
    }
  }

  /** In every run, for every module and every command id but 0: no more FEEDBACKs are
      relayed, to all clients or to any group of them, than that group's COMMANDs were
      accepted, and every relay goes to an address such a COMMAND came from. */
  lemma {:induction false} RelaysAreConserved(inputs: seq<Input>, m: string, c: int, clients: iset<Addr>)
    requires c != 0
    ensures var log := Run(InitHub(), inputs).log;
            && RelayedCount(log, m, c, clients) <= AcceptedCount(log, m, c, clients)
            && forall dst, line | Relayed(m, c, dst, line) in log :: Accepted(m, c, dst) in log
  {
    RunConserves(inputs, m, c, clients);
    var log := Run(InitHub(), inputs).log;
    forall dst, line | Relayed(m, c, dst, line) in log ensures Accepted(m, c, dst) in log {
      RunConserves(inputs, m, c, iset{dst});
      CountedMeansLogged(log, m, c, dst);
    }
  }

  /** Id 0 is outside the law: it marks a free slot, so a FEEDBACK with id 0 is relayed
      exactly when some slot, free or not, has id 0 and still holds the module's name. */
  lemma {:induction false} ZeroIdRelaysExactly(h: Hub, ts: seq<string>, line: string, src: Addr, t: int)
    requires |ts| >= 2 && IsRecorded(ts) && Atoi(ts[2]) == 0 && RowFor(h.doors, ts[0]) < MAX_DOORS
    ensures HandleTokens(h, ts, line, src, t).due.RelayDue? <==>
            exists k | 0 <= k < MAX_PENDING :: !Live(h.pending[k]) && h.pending[k].moduleId == ts[0]
  {
    var k := FindMatch(h.pending, ts[0], 0);
    if k < MAX_PENDING { assert !Live(h.pending[k]); }
  }

  /** In particular every answered command leaves a slot through which a FEEDBACK 0 of
      the same module reaches a client again, with no COMMAND 0 ever sent. */
  lemma {:induction false} AnsweredCommandRelaysZero(h: Hub, ts: seq<string>, zero: seq<string>,
          line: string, src: Addr, t: int)
    requires |ts| >= 2 && IsRecorded(ts) && |ts[0]| <= ID_LEN && HandleTokens(h, ts, line, src, t).due.RelayDue?
    requires h.due == Nothing
    requires |zero| >= 2 && IsRecorded(zero) && zero[0] == ts[0] && Atoi(zero[2]) == 0
    ensures HandleTokens(Finish(HandleTokens(h, ts, line, src, t), true), zero, line, src, t).due.RelayDue?
  {
    var h' := HandleTokens(h, ts, line, src, t);
    var answered := Finish(h', true);
    var k, r := FindMatch(h.pending, ts[0], Atoi(ts[2])), RowFor(h.doors, ts[0]);
    var ops := PendingOps(ts, src, t);
    assert ApplyAll(h.pending, ops) == Apply(h.pending, ops[0]) by { assert ops[1..] == []; }
    assert !Live(answered.pending[k]) && answered.pending[k].moduleId == ts[0];
    assert IsRowOf(answered.doors[r], ts[0]);
    ZeroIdRelaysExactly(answered, zero, line, src, t);
  }

  /** Some COMMAND for `m` was accepted from this address, under whatever id. */
  ghost predicate Asked(log: seq<Act>, m: string, client: Addr)
  {
    exists c :: Accepted(m, c, client) in log
  }

  /** Every slot, free or not, holds the name and address of an accepted COMMAND, or no
      name at all; a relay in hand and every relay made went to such an address. */
  ghost predicate SlotsAsked(p: seq<PendingCmd>, log: seq<Act>)
  {
    forall k | 0 <= k < |p| && p[k].moduleId != "" :: Asked(log, p[k].moduleId, p[k].clientAddr)
  }

  ghost predicate DueAsked(due: Due, log: seq<Act>)
  {
    due.RelayDue? ==> Asked(log, due.moduleId, due.dst)
  }

  ghost predicate RelaysAsked(acts: seq<Act>, log: seq<Act>)
  {
    forall a | a in acts && a.Relayed? :: Asked(log, a.moduleId, a.dst)
  }

  lemma AskedStays(log: seq<Act>, acts: seq<Act>)
    ensures forall m, client | Asked(log, m, client) :: Asked(log + acts, m, client)
  {
    forall m, client | Asked(log, m, client) ensures Asked(log + acts, m, client) {
      var c :| Accepted(m, c, client) in log;
      assert Accepted(m, c, client) in log + acts;
    }
  }

  /** The line's operation puts in only what the line's own log entry accounts for. */
  lemma LineKeepsAsked(p: PendingTable, ts: seq<string>, line: string, src: Addr, t: int, r: nat, log: seq<Act>)
    requires |ts| >= 2 && ts[0] != "" && SlotsAsked(p, log)
    ensures SlotsAsked(ApplyAll(p, PendingOps(ts, src, t)), log + LogOf(r, ts, src))
    ensures DueAsked(DueOf(p, ts, line), log + LogOf(r, ts, src))
  {
    var ops := PendingOps(ts, src, t);
    AskedStays(log, LogOf(r, ts, src));
    if ops != [] {
      assert ApplyAll(p, ops) == Apply(p, ops[0]) by { assert ops[1..] == []; }
      if IsAccepted(ts) { assert Accepted(Trunc(ts[0], ID_LEN), Atoi(ts[2]), src) in log + LogOf(r, ts, src); }
    }
  }

  lemma {:induction false} StepKeepsAsked(h: Hub, i: Input)
    requires SlotsAsked(h.pending, h.log) && DueAsked(h.due, h.log) && RelaysAsked(h.log, h.log)
    ensures var h' := Step(h, i);
            SlotsAsked(h'.pending, h'.log) && DueAsked(h'.due, h'.log) && RelaysAsked(h'.log, h'.log)
  {
    StepLogs(h, i);
    AskedStays(h.log, ActsOf(h, i));
    NewRelaysAsked(h, i);
    var ts := Handled(h, i);
    if ts != [] && RowFor(h.doors, ts[0]) < MAX_DOORS {
      assert ts[0] in ts;
      LineKeepsAsked(h.pending, ts, Received(i.text), i.src, i.t, RowFor(h.doors, ts[0]), h.log);
    }
  }

  lemma NewRelaysAsked(h: Hub, i: Input)
    requires DueAsked(h.due, h.log)
    ensures RelaysAsked(ActsOf(h, i), h.log)
  {
    if i.Tick? { SweepOnlyAlerts(h.doors, i.now); }
  }

  /** In every run, and for every id, 0 included: each relay goes to an address from which
      some COMMAND for that module was accepted. */
  lemma {:induction false} RelaysGoToAskers(inputs: seq<Input>)
    ensures var h := Run(InitHub(), inputs);
            && SlotsAsked(h.pending, h.log) && DueAsked(h.due, h.log)
            && forall a | a in h.log && a.Relayed? :: Asked(h.log, a.moduleId, a.dst)
  {
    if inputs != [] {
      RelaysGoToAskers(inputs[..|inputs| - 1]);
      StepKeepsAsked(Run(InitHub(), inputs[..|inputs| - 1]), inputs[|inputs| - 1]);
    }
  }

  // ---------- offline alerts ----------

  /** An alert of the offline sweep, as opposed to one for a door or lock event. */
  predicate IsSystem(a: Act) { a.Alerted? && a.eventType == "SYSTEM" }

  function FlipOf(a: Act, row: nat): seq<bool>
  {
    if IsSystem(a) && a.row == row then [a.state == "OFFLINE"] else []
  }

  /** The offline (true) and online (false) alerts raised for a row, in order. */
  function Flips(log: seq<Act>, row: nat): seq<bool>
  {
    if log == [] then [] else Flips(log[..|log| - 1], row) + FlipOf(log[|log| - 1], row)
  }

  /** Strict alternation, OFFLINE first. */
  predicate Alternate(s: seq<bool>)
  {
    forall k | 0 <= k < |s| :: s[k] == (k % 2 == 0)
  }

  /** The row's alerts alternate so far, and its flag says which comes next. */
  ghost predicate FlagFits(h: Hub, row: nat)
    requires row < MAX_DOORS
  {
    && Alternate(Flips(h.log, row))
    && h.doors[row].offline == (|Flips(h.log, row)| % 2 == 1)
    && (!h.doors[row].known ==> !h.doors[row].offline)
  }

  lemma {:induction false} FlipsOfOne(log: seq<Act>, a: Act, row: nat)
    ensures Flips(log + [a], row) == Flips(log, row) + FlipOf(a, row)
  {
    assert (log + [a])[..|log|] == log;
  }

  /** The alert a sweep owes this row, as Flips counts it. */
  function Owed(row: DoorRow, now: int): seq<bool>
  {
    if GoesOffline(row, now) then [true] else if ComesBack(row, now) then [false] else []
  }

  lemma {:induction false} FlipsOfRow(log: seq<Act>, door: DoorRow, i: nat, now: int, row: nat)
    ensures Flips(log + RowAlerts(door, i, now), row) == Flips(log, row) + if row == i then Owed(door, now) else []
  {
    var acts := RowAlerts(door, i, now);
    if acts == [] { assert log + acts == log; } else { FlipsOfOne(log, acts[0], row); }
  }

  lemma {:induction false} FlipsOfSweep(log: seq<Act>, doors: seq<DoorRow>, now: int, row: nat)
    ensures Flips(log + SweepAlerts(doors, now), row) ==
            Flips(log, row) + if row < |doors| then Owed(doors[row], now) else []
  {
    if doors == [] {
      assert log + SweepAlerts(doors, now) == log;
    } else {
      var n := |doors| - 1;
      var before, own := SweepAlerts(doors[..n], now), RowAlerts(doors[n], n, now);
      Associate(log, before, own);
      FlipsOfSweep(log, doors[..n], now, row);
      FlipsOfRow(log + before, doors[n], n, now, row);
      if row < n { assert doors[..n][row] == doors[row]; }
    }
  }

  lemma OneMoreFlip(flips: seq<bool>, row: DoorRow, now: int)
    requires Alternate(flips) && row.offline == (|flips| % 2 == 1) && (!row.known ==> !row.offline)
    ensures Alternate(flips + Owed(row, now)) && SweepRow(row, now).offline == (|flips + Owed(row, now)| % 2 == 1)
  {
  }

  lemma {:induction false} SweepFitsFlag(h: Hub, now: int, row: nat)
    requires row < MAX_DOORS && FlagFits(h, row)
    ensures FlagFits(Sweep(h, now), row)
  {
    FlipsOfSweep(h.log, h.doors, now, row);
    OneMoreFlip(Flips(h.log, row), h.doors[row], now);
    assert Sweep(h, now).doors[row] == SweepRow(h.doors[row], now);
  }

  lemma {:induction false} NoNewFlips(h: Hub, h': Hub, acts: seq<Act>, row: nat)
    requires row < MAX_DOORS && FlagFits(h, row)
    requires h'.log == h.log + acts && (acts == [] || (|acts| == 1 && !IsSystem(acts[0])))
    requires h'.doors[row].offline == h.doors[row].offline && (h.doors[row].known ==> h'.doors[row].known)
    ensures FlagFits(h', row)
  {
    if acts == [] { assert h'.log == h.log; } else { FlipsOfOne(h.log, acts[0], row); }
  }

  lemma {:induction false} StepFitsFlag(h: Hub, i: Input, row: nat)
    requires row < MAX_DOORS && FlagFits(h, row)
    ensures FlagFits(Step(h, i), row)
  {
    var h' := Step(h, i);
    if i.Tick? {
      if h.due == Nothing { SweepFitsFlag(h, i.now, row); }
    } else {
      StepLogs(h, i);
      var ts := Handled(h, i);
      if ts != [] { EventsAreNotSystem(RowFor(h.doors, ts[0]), ts, i.src); }
      NoNewFlips(h, h', ActsOf(h, i), row);
    }
  }

  /** For every row of every run, OFFLINE and ONLINE alerts strictly alternate, starting
      with OFFLINE, and the flag is set exactly after an OFFLINE. */
  lemma {:induction false} AlertsAlternate(inputs: seq<Input>, row: nat)
    requires row < MAX_DOORS
    ensures FlagFits(Run(InitHub(), inputs), row)
  {
    if inputs != [] {
      AlertsAlternate(inputs[..|inputs| - 1], row);
      StepFitsFlag(Run(InitHub(), inputs[..|inputs| - 1]), inputs[|inputs| - 1], row);
    }
  }

  /** The same alerts picked by module instead of by row. */
  function ModuleFlips(log: seq<Act>, m: string): seq<bool>
  {
    if log == [] then []
    else
      var a := log[|log| - 1];
      ModuleFlips(log[..|log| - 1], m) +
      if IsSystem(a) && a.moduleId == m then [a.state == "OFFLINE"] else []
  }

  /** Every alert names the module of the row it came from. */
  ghost predicate AlertsNameRows(h: Hub)
  {
    forall a | a in h.log && IsSystem(a) ::
      a.row < MAX_DOORS && IsRowOf(h.doors[a.row], a.moduleId)
  }

  lemma {:induction false} SweepNamesRows(doors: seq<DoorRow>, now: int)
    ensures forall a | a in SweepAlerts(doors, now) ::
              a.Alerted? && a.row < |doors| && IsRowOf(doors[a.row], a.moduleId)
  {
    if doors != [] { SweepNamesRows(doors[..|doors| - 1], now); }
  }

  lemma KnownRowsStay(h: Hub, i: Input)
    ensures forall r | 0 <= r < MAX_DOORS && h.doors[r].known ::
      Step(h, i).doors[r].known && Step(h, i).doors[r].moduleId == h.doors[r].moduleId
  {
  }

  lemma EventsAreNotSystem(r: nat, ts: seq<string>, src: Addr)
    requires |ts| >= 2
    ensures forall a | a in LogOf(r, ts, src) :: !IsSystem(a)
  {
    if EventChange(ts) != None { assert |ts[3]| == 4; }
  }

  lemma OnlySweepsRaiseSystemAlerts(h: Hub, i: Input)
    requires !i.Tick?
    ensures forall a | a in Step(h, i).log && IsSystem(a) :: a in h.log
  {
    StepLogs(h, i);
    var ts := Handled(h, i);
    if ts != [] { EventsAreNotSystem(RowFor(h.doors, ts[0]), ts, i.src); }
  }

  lemma {:induction false} StepNamesRows(h: Hub, i: Input)
    requires AlertsNameRows(h)
    ensures AlertsNameRows(Step(h, i))
  {
    KnownRowsStay(h, i);
    if i.Tick? {
      SweepNamesRows(h.doors, i.now);
    } else {
      OnlySweepsRaiseSystemAlerts(h, i);
    }
  }

  lemma {:induction false} RunNamesRows(inputs: seq<Input>)
    ensures AlertsNameRows(Run(InitHub(), inputs))
  {
    if inputs != [] {
      RunNamesRows(inputs[..|inputs| - 1]);
      StepNamesRows(Run(InitHub(), inputs[..|inputs| - 1]), inputs[|inputs| - 1]);
    }
  }

  lemma {:induction false} ModuleIsItsRow(log: seq<Act>, d: DoorTable, m: string)
    requires DistinctRows(d)
    requires forall a | a in log && IsSystem(a) :: a.row < MAX_DOORS && IsRowOf(d[a.row], a.moduleId)
    ensures ModuleFlips(log, m) == Flips(log, FindDoor(d, m))
  {
    if log != [] {
      var n := |log| - 1;
      assert log[n] in log;
      ModuleIsItsRow(log[..n], d, m);
    }
  }

  lemma {:induction false} NoFlipsWithoutRow(log: seq<Act>, row: nat)
    requires forall a | a in log && IsSystem(a) :: a.row != row
    ensures Flips(log, row) == []
  {
    if log != [] {
      assert log[|log| - 1] in log;
      NoFlipsWithoutRow(log[..|log| - 1], row);
    }
  }

  /** Per module, when ids fit their fields: OFFLINE and ONLINE alternate over the run. */
  lemma {:induction false} ModuleAlertsAlternate(inputs: seq<Input>, m: string)
    requires ShortIds(inputs)
    ensures Alternate(ModuleFlips(Run(InitHub(), inputs).log, m))
  {
    var h := Run(InitHub(), inputs);
    RoutingTablesAgree(inputs);
    RunNamesRows(inputs);
    ModuleIsItsRow(h.log, h.doors, m);
    var row := FindDoor(h.doors, m);
    if row < MAX_DOORS { AlertsAlternate(inputs, row); } else { NoFlipsWithoutRow(h.log, row); }
  }

  /** After a sweep the flag of every known row says whether its last heartbeat is more
      than ten seconds old; nothing else about the row's state or address changes. */
  lemma {:induction false} SweepSetsFlags(h: Hub, now: int, i: nat)
    requires i < MAX_DOORS && h.doors[i].known
    ensures var row := Sweep(h, now).doors[i];
            && row.offline == (now - h.doors[i].lastHeartbeatMs > 10000)
            && row == h.doors[i].(offline := row.offline, lastOnlineMs := row.lastOnlineMs)
  {
  }

  // ---------- waiting clients over whole runs ----------

  /** What a step does to the pending table. */
  function StepOps(h: Hub, i: Input): seq<Op>
  {
    var ts := Handled(h, i);
    if ts != [] && RowFor(h.doors, ts[0]) < MAX_DOORS then PendingOps(ts, i.src, i.t) else []
  }

  /** The table operations a run performs from `h`. */
  function OpsOf(h: Hub, inputs: seq<Input>): seq<Op>
  {
    if inputs == [] then []
    else OpsOf(h, inputs[..|inputs| - 1]) + StepOps(Run(h, inputs[..|inputs| - 1]), inputs[|inputs| - 1])
  }

  lemma StepAppliesOps(h: Hub, i: Input)
    ensures Step(h, i).pending == ApplyAll(h.pending, StepOps(h, i))
  {
  }

  lemma {:induction false} ApplyAllAppend(p: PendingTable, a: seq<Op>, b: seq<Op>)
    ensures ApplyAll(p, a + b) == ApplyAll(ApplyAll(p, a), b)
    decreases |a|
  {
    if a == [] {
      assert a + b == b;
    } else {
      assert (a + b)[1..] == a[1..] + b;
      ApplyAllAppend(Apply(p, a[0]), a[1..], b);
    }
  }

  /** The pending table changes by these operations and in no other way. */
  lemma {:induction false} RunAppliesOps(h: Hub, inputs: seq<Input>)
    ensures Run(h, inputs).pending == ApplyAll(h.pending, OpsOf(h, inputs))
  {
    if inputs != [] {
      var before, last := inputs[..|inputs| - 1], inputs[|inputs| - 1];
      RunAppliesOps(h, before);
      StepAppliesOps(Run(h, before), last);
      ApplyAllAppend(h.pending, OpsOf(h, before), StepOps(Run(h, before), last));
    }
  }

  // ---------- the history in time ----------

  /** The clock readings a step makes, at most one. */
  function ReadsClock(i: Input): seq<int>
  {
    match i
    case Datagram(_, _, t) => [t]
    case Tick(now) => [now]
    case _ => []
  }

  /** No reading is below `since` or below an earlier one. */
  predicate ClockForward(inputs: seq<Input>, since: int)
  {
    inputs == [] ||
    var r := ReadsClock(inputs[0]);
    if r == [] then ClockForward(inputs[1..], since) else since <= r[0] && ClockForward(inputs[1..], r[0])
  }

  /** Only the receiver's own steps read the clock. */
  lemma {:induction false} ClockOfOwn(inputs: seq<Input>, since: int)
    ensures ClockForward(OwnInputs(inputs), since) <==> ClockForward(inputs, since)
    decreases |inputs|
  {
    if inputs != [] {
      var r, own := ReadsClock(inputs[0]), OwnInputs(inputs[1..]);
      ClockOfOwn(inputs[1..], if r == [] then since else r[0]);
      if !OfOthers(inputs[0]) { assert ([inputs[0]] + own)[1..] == own; } else { assert [] + own == own; }
    }
  }

  predicate InTimeOrder(events: seq<Event>)
  {
    forall i, j | 0 <= i < j < |events| :: events[i].timestampMs <= events[j].timestampMs
  }

  predicate NoneLater(events: seq<Event>, since: int)
  {
    forall i | 0 <= i < |events| :: events[i].timestampMs <= since
  }

  lemma {:induction false} SweepEventsAreNow(doors: seq<DoorRow>, now: int)
    ensures forall i | 0 <= i < |SweepEvents(doors, now)| :: SweepEvents(doors, now)[i].timestampMs == now
  {
    if doors != [] { SweepEventsAreNow(doors[..|doors| - 1], now); }
  }

  function Latest(i: Input, since: int): int
  {
    if ReadsClock(i) == [] then since else ReadsClock(i)[0]
  }

  /** The events a step adds to the history. */
  function EventsOf(h: Hub, i: Input): seq<Event>
  {
    match i
    case Datagram(_, _, t) =>
      var ts := Handled(h, i);
      if ts == [] then [] else HistoryOf(RowFor(h.doors, ts[0]) < MAX_DOORS, ts, t)
    case Tick(now) => if h.due == Nothing then SweepEvents(h.doors, now) else []
    case _ => []
  }

  lemma StepAddsEvents(h: Hub, i: Input)
    ensures Step(h, i).history == h.history + EventsOf(h, i)
  {
  }

  lemma EventsAreNow(h: Hub, i: Input, since: int)
    ensures forall k | 0 <= k < |EventsOf(h, i)| :: EventsOf(h, i)[k].timestampMs == Latest(i, since)
  {
    if i.Tick? { SweepEventsAreNow(h.doors, i.now); }
  }

  lemma AppendKeepsTimeOrder(a: seq<Event>, b: seq<Event>, since: int, now: int)
    requires InTimeOrder(a) && NoneLater(a, since) && since <= now
    requires forall k | 0 <= k < |b| :: b[k].timestampMs == now
    ensures InTimeOrder(a + b) && NoneLater(a + b, now)
  {
  }

  lemma StepKeepsTimeOrder(h: Hub, i: Input, since: int)
    requires InTimeOrder(h.history) && NoneLater(h.history, since) && since <= Latest(i, since)
    ensures InTimeOrder(Step(h, i).history) && NoneLater(Step(h, i).history, Latest(i, since))
  {
    StepAddsEvents(h, i);
    EventsAreNow(h, i, since);
    AppendKeepsTimeOrder(h.history, EventsOf(h, i), since, Latest(i, since));
  }

  /** With a clock that does not run backwards the history stays in time order, whatever
      happens: sweep events and line events interleave by time of handling. */
  lemma {:induction false} HistoryInTimeOrder(h: Hub, inputs: seq<Input>, since: int)
    requires InTimeOrder(h.history) && NoneLater(h.history, since) && ClockForward(inputs, since)
    ensures InTimeOrder(Run(h, inputs).history)
    decreases |inputs|
  {
    if inputs != [] {
      StepKeepsTimeOrder(h, inputs[0], since);
      HistoryInTimeOrder(Step(h, inputs[0]), inputs[1..], Latest(inputs[0], since));
      RunFromFirst(h, inputs);
    }
  }
}
