/** The hub as it runs: fixed arrays updated in place by search loops. Every method is
    tied to HubModel through Abs(), so what HubRuns proves holds of this code. */
module HubServer {
  import opened Sequences
  import opened Text
  import opened Pending
  import opened HubModel
  import opened HistoryRing

  class Server {
    const doors: array<DoorRow>
    const endpoints: array<Endpoint>
    var numEndpoints: nat
    const pending: array<PendingCmd>
    const ring: Ring
    var nextCmdid: int
    var due: Due             // what the receiver thread carries out of the mutex
    ghost var log: seq<Act>

    ghost predicate Valid()
      reads this, doors, endpoints, pending, ring, ring.slots
    {
      && doors.Length == MAX_DOORS && endpoints.Length == MAX_MODULES && pending.Length == MAX_PENDING
      && numEndpoints <= MAX_MODULES
      && ring.Valid()
    }

    ghost function Abs(): Hub
      requires Valid()
      reads this, doors, endpoints, pending, ring, ring.slots
    {
      Hub(doors[..], endpoints[..numEndpoints], pending[..], ring.log, nextCmdid, due, log)
    }

    constructor ()
      ensures Valid() && Abs() == InitHub()
      ensures fresh(doors) && fresh(endpoints) && fresh(pending) && fresh(ring) && fresh(ring.slots)
    {
      doors := new DoorRow[MAX_DOORS](_ => FREE_ROW);
      endpoints := new Endpoint[MAX_MODULES](_ => Endpoint("", Addr(0, 0), false));
      pending := new PendingCmd[MAX_PENDING](_ => FREE_SLOT);
      ring := new Ring();
      numEndpoints, nextCmdid, due, log := 0, 1, Nothing, [];
    }

    // ---------- the tables ----------

    method FindOrCreateDoor(moduleId: string) returns (r: nat)
      requires Valid()
      modifies doors
      ensures r == RowFor(old(doors[..]), moduleId)
      ensures doors[..] == if r == MAX_DOORS then old(doors[..])
                           else old(doors[..])[r := BaseRow(old(doors[..])[r], moduleId)]
    {
      for i := 0 to MAX_DOORS
        invariant forall j | 0 <= j < i :: !IsRowOf(doors[j], moduleId)
        invariant doors[..] == old(doors[..])
      {
        if doors[i].known && doors[i].moduleId == moduleId {
          return i;
        }
      }
      for i := 0 to MAX_DOORS
        invariant forall j | 0 <= j < i :: doors[j].known
        invariant doors[..] == old(doors[..])
      {
        if !doors[i].known {
          doors[i] := FREE_ROW.(moduleId := Trunc(moduleId, ID_LEN));
          doors[i] := doors[i].(known := true);
          return i;
        }
      }
      return MAX_DOORS;
    }

    method FindEndpointIndex(moduleId: string) returns (k: nat)
      requires Valid()
      ensures k == FindEndpoint(endpoints[..numEndpoints], moduleId)
    {
      for i := 0 to numEndpoints
        invariant forall j | 0 <= j < i :: endpoints[j].moduleId != moduleId
      {
        if endpoints[i].moduleId == moduleId {
          return i;
        }
      }
      return numEndpoints;
    }

    method UpdateEndpointTable(moduleId: string, src: Addr)
      requires Valid()
      modifies endpoints, this`numEndpoints
      ensures numEndpoints <= MAX_MODULES
      ensures endpoints[..numEndpoints] == UpdateEndpoint(old(endpoints[..numEndpoints]), moduleId, src)
    {
      var k := FindEndpointIndex(moduleId);
      if k == numEndpoints {
        if numEndpoints >= MAX_MODULES {
          return;
        }
        numEndpoints := numEndpoints + 1;
        endpoints[k] := Endpoint(Trunc(moduleId, ID_LEN), Addr(0, 0), false);
      }
      endpoints[k] := endpoints[k].(addr := src);
      endpoints[k] := endpoints[k].(hasAddr := true);
    }

    method RegisterClientCommand(cmdid: int, moduleId: string, client: Addr, now: int)
      requires Valid()
      modifies pending
      ensures pending[..] == Register(old(pending[..]), cmdid, moduleId, client, now)
    {
      var slot := 0;
      var oldestMs := pending[0].issuedMs;
      var i := 0;
      while i < MAX_PENDING
        invariant 0 <= i <= MAX_PENDING && 0 <= slot < MAX_PENDING
        invariant forall j | 0 <= j < i :: Live(pending[j])
        invariant oldestMs == pending[slot].issuedMs
        invariant if i == 0 then slot == 0 else slot == Oldest(pending[..i])
      {
        if pending[i].cmdid == 0 {
          slot := i;
          break;
        }
        assert pending[..i + 1][..i] == pending[..i];
        if pending[i].issuedMs < oldestMs {
          oldestMs := pending[i].issuedMs;
          slot := i;
        }
        i := i + 1;
      }
      assert pending[..MAX_PENDING] == pending[..];
      assert slot == SlotFor(pending[..]);
      pending[slot] := PendingCmd(cmdid, client, Trunc(moduleId, ID_LEN), now);
    }

    method GetAndClearClientCmd(moduleId: string, cmdid: int) returns (found: bool, client: Addr)
      requires Valid()
      modifies pending
      ensures pending[..] == Clear(old(pending[..]), moduleId, cmdid)
      ensures var k := FindMatch(old(pending[..]), moduleId, cmdid);
              found == (k < MAX_PENDING) && (found ==> client == old(pending[..])[k].clientAddr)
    {
      for i := 0 to MAX_PENDING
        invariant forall j | 0 <= j < i :: !Matches(pending[j], moduleId, cmdid)
        invariant pending[..] == old(pending[..])
      {
        if pending[i].cmdid == cmdid && pending[i].moduleId == moduleId {
          client := pending[i].clientAddr;
          pending[i] := pending[i].(cmdid := 0);
          return true, client;
        }
      }
      return false, Addr(0, 0);
    }

    method AddHistory(moduleId: string, line: string, t: int)
      requires Valid()
      modifies ring, ring.slots
      ensures ring.Valid() && ring.log == old(ring.log) + [Event(t, Trunc(moduleId, ID_LEN), Trunc(line, 255))]
    {
      ring.Add(Event(t, Trunc(moduleId, ID_LEN), Trunc(line, 255)));
    }

    // ---------- the branches of the line handler ----------

    lemma {:induction false} JoinOneMore(ws: seq<string>, w: string)
      ensures Join(ws + [w]) == if ws == [] then w else Join(ws) + " " + w
    {
      if |ws| > 1 {
        JoinOneMore(ws[1..], w);
        assert (ws + [w])[1..] == ws[1..] + [w];
      }
    }

    /** The two strncat calls that keep a heartbeat's tokens for display. */
    method AppendToken(buf: string, ghost ws: seq<string>, tok: string) returns (r: string)
      requires buf == Trunc(Join(ws), 255) && (buf == "" <==> ws == []) && tok != ""
      ensures r == Trunc(Join(ws + [tok]), 255) && r != ""
    {
      JoinOneMore(ws, tok);
      r := buf;
      if r != "" {
        r := r + Trunc(" ", 255 - |r|);
      }
      r := r + Trunc(tok, 255 - |r|);
    }

    method ParseTokenInto(r: nat, tok: string)
      requires Valid() && r < MAX_DOORS
      modifies doors
      ensures doors[..] == old(doors[..])[r := old(doors[r]).(bits := ApplyStateToken(old(doors[r]).bits, tok))]
    {
      var bits := doors[r].bits;
      if "D0=" <= tok {
        var p := ParseState(tok, Pair(bits.d0Open, bits.d0Locked));
        doors[r] := doors[r].(bits := bits.(d0Open := p.open, d0Locked := p.locked));
      } else if "D1=" <= tok {
        var p := ParseState(tok, Pair(bits.d1Open, bits.d1Locked));
        doors[r] := doors[r].(bits := bits.(d1Open := p.open, d1Locked := p.locked));
      }
    }

    /** The row with its first tokens up to `i` taken in, and the tokens kept so far. */
    ghost function Parsed(row: DoorRow, ts: seq<string>, i: nat): DoorRow
      requires 2 <= i <= |ts|
    {
      row.(bits := ApplyStateTokens(row.bits, ts[2..i]))
    }

    lemma OneMoreToken(row: DoorRow, ts: seq<string>, i: nat)
      requires 2 <= i < |ts|
      ensures Parsed(row, ts, i + 1) == Parsed(row, ts, i).(bits := ApplyStateToken(Parsed(row, ts, i).bits, ts[i]))
      ensures ts[2..i + 1] == ts[2..i] + [ts[i]]
    {
      assert ts[2..i + 1] == ts[2..i] + [ts[i]];
      OneMore(row.bits, ts[2..i], ts[i]);
    }

    lemma OneMore(bits: Bits, tokens: seq<string>, tok: string)
      ensures ApplyStateTokens(bits, tokens + [tok]) == ApplyStateToken(ApplyStateTokens(bits, tokens), tok)
    {
      assert (tokens + [tok])[..|tokens|] == tokens;
    }

    lemma FirstAndLastToken(row: DoorRow, ts: seq<string>)
      requires |ts| >= 2
      ensures Parsed(row, ts, 2) == row && ts[2..2] == []
      ensures Parsed(row, ts, |ts|) == row.(bits := ApplyStateTokens(row.bits, ts[2..])) && ts[2..|ts|] == ts[2..]
    {
      assert ts[2..2] == [] && ts[2..|ts|] == ts[2..];
    }

    /** The token loop of the HEARTBEAT branch. */
    method ParseTokens(r: nat, ts: seq<string>) returns (hbBuf: string)
      requires Valid() && r < MAX_DOORS && |ts| >= 2
      requires forall i | 2 <= i < |ts| :: ts[i] != ""
      modifies doors
      ensures doors[..] == old(doors[..])[r := old(doors[r]).(bits := ApplyStateTokens(old(doors[r]).bits, ts[2..]))]
      ensures hbBuf == Trunc(Join(ts[2..]), 255) && (hbBuf == "" <==> |ts| == 2)
    {
      ghost var was := doors[..];
      FirstAndLastToken(was[r], ts);
      hbBuf := "";
      for i := 2 to |ts|
        invariant doors[..] == was[r := Parsed(was[r], ts, i)]
        invariant hbBuf == Trunc(Join(ts[2..i]), 255) && (hbBuf == "" <==> i == 2)
      {
        hbBuf := ParseOne(r, ts, i, hbBuf, was);
      }
    }

    method ParseOne(r: nat, ts: seq<string>, i: nat, buf: string, ghost was: seq<DoorRow>) returns (hbBuf: string)
      requires Valid() && r < MAX_DOORS && 2 <= i < |ts| && ts[i] != ""
      requires |was| == MAX_DOORS && doors[..] == was[r := Parsed(was[r], ts, i)]
      requires buf == Trunc(Join(ts[2..i]), 255) && (buf == "" <==> i == 2)
      modifies doors
      ensures doors[..] == was[r := Parsed(was[r], ts, i + 1)]
      ensures hbBuf == Trunc(Join(ts[2..i + 1]), 255) && hbBuf != ""
    {
      OneMoreToken(was[r], ts, i);
      assert doors[r] == Parsed(was[r], ts, i);
      ParseTokenInto(r, ts[i]);
      hbBuf := AppendToken(buf, ts[2..i], ts[i]);
    }

    method HandleHeartbeat(r: nat, ts: seq<string>, histLine: string, t: int)
      requires Valid() && r < MAX_DOORS && |ts| >= 2 && histLine == HistLine(ts)
      requires forall i | 2 <= i < |ts| :: ts[i] != ""
      modifies doors
      ensures doors[..] == old(doors[..])[r := old(doors[r]).(
                bits := ApplyStateTokens(old(doors[r]).bits, ts[2..]),
                lastHeartbeatMs := t, lastHeartbeatLine := HeartbeatLine(ts))]
    {
      var hbBuf := ParseTokens(r, ts);
      doors[r] := doors[r].(lastHeartbeatMs := t);
      doors[r] := doors[r].(lastHeartbeatLine := if hbBuf != "" then hbBuf else histLine);
    }

    /** What an EVENT with all its words does: the three nested tests. */
    method NoteChange(r: nat, moduleId: string, which: string, what: string, state: string)
      requires Valid() && r < MAX_DOORS
      modifies doors, this`log
      ensures doors[..] ==
              old(doors[..])[r := old(doors[r]).(bits := ApplyChange(old(doors[r]).bits, ChangeOf(which, what, state)))]
      ensures log == old(log) +
              if ChangeOf(which, what, state) == None then [] else [Alerted(r, moduleId, what, which, state)]
    {
      if which == "D0" || which == "D1" {
        if what == "DOOR" {
          if state == "OPEN" || state == "CLOSED" {
            SetOpenBit(r, which, state == "OPEN");
            log := log + [Alerted(r, moduleId, what, which, state)];
          }
        } else if what == "LOCK" {
          if state == "LOCKED" || state == "UNLOCKED" {
            SetLockedBit(r, which, state == "LOCKED");
            log := log + [Alerted(r, moduleId, what, which, state)];
          }
        }
      }
    }

    method HandleEvent(r: nat, ts: seq<string>, t: int)
      requires Valid() && r < MAX_DOORS && |ts| >= 2 && ts[1] == "EVENT"
      modifies doors, this`log
      ensures doors[..] == old(doors[..])[r := old(doors[r]).(
                bits := ApplyChange(old(doors[r]).bits, EventChange(ts)), lastEventMs := t)]
      ensures log == old(log) + LogOf(r, ts, Addr(0, 0))
    {
      EventLog(r, ts);
      if |ts| >= 5 {
        NoteChange(r, ts[0], ts[2], ts[3], ts[4]);
      }
      doors[r] := doors[r].(lastEventMs := t);
    }

    lemma EventLog(r: nat, ts: seq<string>)
      requires |ts| >= 2 && ts[1] == "EVENT"
      ensures LogOf(r, ts, Addr(0, 0)) ==
              if EventChange(ts) == None then [] else [Alerted(r, ts[0], ts[3], ts[2], ts[4])]
    {
      assert |"EVENT"| == 5 && |"FEEDBACK"| == 8 && |"COMMAND"| == 7;
    }

    method SetOpenBit(r: nat, which: string, v: bool)
      requires Valid() && r < MAX_DOORS
      modifies doors
      ensures doors[..] == old(doors[..])[r := old(doors[r]).(
                bits := ApplyChange(old(doors[r]).bits, SetOpen(if which == "D0" then 0 else 1, v)))]
    {
      var bits := doors[r].bits;
      doors[r] := doors[r].(bits := if which == "D0" then bits.(d0Open := v) else bits.(d1Open := v));
    }

    method SetLockedBit(r: nat, which: string, v: bool)
      requires Valid() && r < MAX_DOORS
      modifies doors
      ensures doors[..] == old(doors[..])[r := old(doors[r]).(
                bits := ApplyChange(old(doors[r]).bits, SetLocked(if which == "D0" then 0 else 1, v)))]
    {
      var bits := doors[r].bits;
      doors[r] := doors[r].(bits := if which == "D0" then bits.(d0Locked := v) else bits.(d1Locked := v));
    }

    method HandleFeedback(r: nat, ts: seq<string>, t: int)
      requires Valid() && r < MAX_DOORS && |ts| >= 2 && ts[1] == "FEEDBACK" && due == Nothing
      modifies doors, pending, ring, ring.slots, this`due, this`log
      ensures Valid()
      ensures doors[..] == if |ts| >= 5 then old(doors[..])[r := old(doors[r]).(feedback := FeedbackOf(ts, t))]
                           else old(doors[..])
      ensures pending[..] == ApplyAll(old(pending[..]), PendingOps(ts, Addr(0, 0), t))
      ensures ring.log == old(ring.log) + HistoryOf(true, ts, t)[1..]
      ensures due == DueOf(old(pending[..]), ts, "")
      ensures log == old(log) + LogOf(r, ts, Addr(0, 0))
    {
      if |ts| >= 5 {
        var cmdid := Atoi(ts[2]);
        doors[r] := doors[r].(feedback := Feedback(t, Trunc(ts[3], 31), Trunc(ts[4], 31), cmdid));
        log := log + [Recorded(r, cmdid, Trunc(ts[3], 31), Trunc(ts[4], 31))];
        AddHistory(ts[0], Join(["FEEDBACK", Dec(cmdid), ts[3], ts[4]]), t);
        var found, client := GetAndClearClientCmd(ts[0], cmdid);
        if found {
          due := RelayDue(client, ts[0], cmdid, Trunc(Line([ts[0], "FEEDBACK", Dec(cmdid), ts[3], ts[4]]), 255));
        }
      }
    }

    method HandleCommand(ts: seq<string>, raw: string, src: Addr, t: int)
      requires Valid() && |ts| >= 2 && ts[1] == "COMMAND" && due == Nothing
      modifies pending, this`due, this`log
      ensures pending[..] == ApplyAll(old(pending[..]), PendingOps(ts, src, t))
      ensures due == DueOf(old(pending[..]), ts, raw)
      ensures log == old(log) + LogOf(0, ts, src)
    {
      if |ts| >= 5 {
        var cmdid := Atoi(ts[2]);
        RegisterClientCommand(cmdid, ts[0], src, t);
        log := log + [Accepted(Trunc(ts[0], ID_LEN), cmdid, src)];
        due := ForwardDue(ts[0], raw);
      }
    }

    /** The branch on the line's type, once its row has been found or made. */
    method Dispatch(r: nat, ts: seq<string>, raw: string, src: Addr, t: int)
      requires Valid() && r < MAX_DOORS && |ts| >= 2 && due == Nothing
      requires forall i | 2 <= i < |ts| :: ts[i] != ""
      requires ts[1] != "COMMAND" ==> doors[r].hasLastAddr && doors[r].lastAddr == src
      modifies doors, pending, ring, ring.slots, this`due, this`log
      ensures Valid()
      ensures doors[..] == old(doors[..])[r := RowAfter(old(doors[r]), ts, src, t)]
      ensures pending[..] == ApplyAll(old(pending[..]), PendingOps(ts, src, t))
      ensures ring.log == old(ring.log) + HistoryOf(true, ts, t)[1..]
      ensures due == DueOf(old(pending[..]), ts, raw)
      ensures log == old(log) + LogOf(r, ts, src)
    {
      var type_ := ts[1];
      if type_ == "HEARTBEAT" {
        HandleHeartbeat(r, ts, HistLine(ts), t);
      } else if type_ == "EVENT" {
        HandleEvent(r, ts, t);
      } else if type_ == "FEEDBACK" {
        HandleFeedback(r, ts, t);
      } else if type_ == "COMMAND" {
        HandleCommand(ts, raw, src, t);
      } else {
        doors[r] := doors[r].(lastEventMs := t);
      }
    }

    method NoteAddress(r: nat, ts: seq<string>, src: Addr)
      requires Valid() && r < MAX_DOORS && |ts| >= 2
      modifies doors
      ensures doors[..] == old(doors[..])[r := Noted(old(doors[r]), ts, src)]
    {
      if ts[1] != "COMMAND" {
        doors[r] := doors[r].(lastAddr := src);
        doors[r] := doors[r].(hasLastAddr := true);
      }
    }

    ghost function Noted(row: DoorRow, ts: seq<string>, src: Addr): DoorRow
      requires |ts| >= 2
    {
      if IsCommand(ts) then row else row.(lastAddr := src, hasLastAddr := true)
    }

    lemma NotedFirst(row: DoorRow, ts: seq<string>, src: Addr, t: int)
      requires |ts| >= 2
      ensures RowAfter(Noted(row, ts, src), ts, src, t) == RowAfter(row, ts, src, t)
    {
    }

    lemma FirstEvent(log: seq<HubModel.Event>, ts: seq<string>, t: int)
      requires |ts| >= 2
      ensures log + [Event(t, Trunc(ts[0], ID_LEN), HistLine(ts))] + HistoryOf(true, ts, t)[1..] ==
              log + HistoryOf(true, ts, t)
    {
    }

    method Track(r: nat, ts: seq<string>, raw: string, src: Addr, t: int)
      requires Valid() && r < MAX_DOORS && |ts| >= 2 && due == Nothing
      requires forall i | 2 <= i < |ts| :: ts[i] != ""
      modifies doors, pending, ring, ring.slots, this`due, this`log
      ensures Valid()
      ensures doors[..] == old(doors[..])[r := RowAfter(old(doors[r]), ts, src, t)]
      ensures pending[..] == ApplyAll(old(pending[..]), PendingOps(ts, src, t))
      ensures ring.log == old(ring.log) + HistoryOf(true, ts, t)
      ensures due == DueOf(old(pending[..]), ts, raw)
      ensures log == old(log) + LogOf(r, ts, src)
    {
      NotedFirst(doors[r], ts, src, t);
      FirstEvent(ring.log, ts, t);
      NoteAddress(r, ts, src);
      AddHistory(ts[0], HistLine(ts), t);
      Dispatch(r, ts, raw, src, t);
    }

    /** The endpoint part: any line but a COMMAND comes from the module itself. */
    method NoteSender(ts: seq<string>, src: Addr)
      requires Valid() && |ts| >= 2
      modifies endpoints, this`numEndpoints
      ensures Valid() && endpoints[..numEndpoints] == EndpointsAfter(old(endpoints[..numEndpoints]), ts, src)
    {
      if ts[1] != "COMMAND" {
        UpdateEndpointTable(ts[0], src);
      }
    }

    /** The rest: the module's row, if there is one, and what the line says. */
    method TrackOrNot(ts: seq<string>, raw: string, src: Addr, t: int)
      requires Valid() && due == Nothing && |ts| >= 2
      requires forall i | 2 <= i < |ts| :: ts[i] != ""
      modifies doors, pending, ring, ring.slots, this`due, this`log
      ensures Valid() &&
              Abs() == HandleTokens(old(Abs()), ts, raw, src, t).(endpoints := old(endpoints[..numEndpoints]))
    {
      var r := FindOrCreateDoor(ts[0]);
      if r == MAX_DOORS {
        AddHistory(ts[0], "<NO-STATE> (untracked)", t);
      } else {
        UpdateTwice(old(doors[..]), r, doors[r], RowAfter(doors[r], ts, src, t));
        Track(r, ts, raw, src, t);
      }
    }

    lemma UpdateTwice<T>(s: seq<T>, r: nat, a: T, b: T)
      requires r < |s|
      ensures s[r := a][r := b] == s[r := b]
    {
    }

    method HandleWords(ts: seq<string>, raw: string, src: Addr, t: int)
      requires Valid() && due == Nothing && |ts| >= 2
      requires forall i | 2 <= i < |ts| :: ts[i] != ""
      modifies this, doors, endpoints, pending, ring, ring.slots
      ensures Valid() && Abs() == HandleTokens(old(Abs()), ts, raw, src, t)
    {
      NoteSender(ts, src);
      TrackOrNot(ts, raw, src, t);
    }

    /** One datagram, up to the point where the handler releases the mutex. */
    method HandleLine(datagram: string, src: Addr, t: int)
      requires Valid() && due == Nothing
      modifies this, doors, endpoints, pending, ring, ring.slots
      ensures Valid() && Abs() == Receive(old(Abs()), datagram, src, t)
    {
      var raw := Received(datagram);
      var ts := Tokens(CLib, raw);
      if |ts| < 2 {
        return;
      }
      forall i | 2 <= i < |ts| ensures ts[i] != "" { assert ts[i] in ts; }
      HandleWords(ts, raw, src, t);
    }

    /** What the handler sends after releasing the mutex: the relayed FEEDBACK to the
        client, or the COMMAND as received to the module's endpoint. */
    method SendDue(netOk: bool)
      requires Valid()
      modifies this`due, this`log
      ensures Valid() && Abs() == Finish(old(Abs()), netOk)
    {
      match due {
        case Nothing =>
        case RelayDue(dst, moduleId, cmdid, line) =>
          if netOk { log := log + [Relayed(moduleId, cmdid, dst, line)]; }
        case ForwardDue(moduleId, line) =>
          var k := FindEndpointIndex(moduleId);
          if k < numEndpoints && endpoints[k].hasAddr && netOk {
            log := log + [Forwarded(endpoints[k].addr, line)];
          }
      }
      due := Nothing;
    }

    // ---------- the offline sweep ----------

    method SweepOne(i: nat, now: int)
      requires Valid() && i < MAX_DOORS
      modifies doors, ring, ring.slots, this`log
      ensures Valid()
      ensures doors[..] == old(doors[..])[i := SweepRow(old(doors[i]), now)]
      ensures ring.log == old(ring.log) + RowEvents(old(doors[i]), now)
      ensures log == old(log) + RowAlerts(old(doors[i]), i, now)
    {
      if !doors[i].known {
        return;
      }
      var id := doors[i].moduleId;
      var shouldBeOffline := now - doors[i].lastHeartbeatMs > OFFLINE_TIMEOUT_MS;
      if shouldBeOffline && !doors[i].offline {
        doors[i] := doors[i].(offline := true);
        doors[i] := doors[i].(lastOnlineMs := now);
        AddHistory(id, Line([id, "EVENT", "SYSTEM", "OFFLINE"]), now);
        log := log + [Alerted(i, id, "SYSTEM", "MODULE", "OFFLINE")];
      } else if !shouldBeOffline && doors[i].offline {
        doors[i] := doors[i].(offline := false);
        AddHistory(id, Line([id, "EVENT", "SYSTEM", "ONLINE"]), now);
        log := log + [Alerted(i, id, "SYSTEM", "MODULE", "ONLINE")];
      }
    }

    method CheckOfflineModules(now: int)
      requires Valid()
      modifies doors, ring, ring.slots, this`log
      ensures Valid() && Abs() == Sweep(old(Abs()), now)
    {
      ghost var was, events, alerts := doors[..], ring.log, log;
      for i := 0 to MAX_DOORS
        invariant Valid()
        invariant doors[..] == SweptTo(was, i, now)
        invariant ring.log == events + SweepEvents(was[..i], now)
        invariant log == alerts + SweepAlerts(was[..i], now)
      {
        OneMoreRow(was, i, now);
        Associate(events, SweepEvents(was[..i], now), RowEvents(was[i], now));
        Associate(alerts, SweepAlerts(was[..i], now), RowAlerts(was[i], i, now));
        SweepOne(i, now);
      }
      AllSwept(was, now);
    }

    /** The table with its first `i` rows swept. */
    ghost function SweptTo(was: seq<DoorRow>, i: nat, now: int): (d: seq<DoorRow>)
      ensures |d| == |was|
    {
      seq(|was|, j requires 0 <= j < |was| => if j < i then SweepRow(was[j], now) else was[j])
    }

    lemma AllSwept(was: DoorTable, now: int)
      ensures SweptTo(was, MAX_DOORS, now) == seq(MAX_DOORS, i requires 0 <= i < MAX_DOORS => SweepRow(was[i], now))
      ensures was[..MAX_DOORS] == was
    {
    }

    lemma OneMoreRow(was: seq<DoorRow>, i: nat, now: int)
      requires i < |was|
      ensures SweptTo(was, i, now)[i] == was[i]
      ensures SweptTo(was, i + 1, now) == SweptTo(was, i, now)[i := SweepRow(was[i], now)]
      ensures SweepEvents(was[..i + 1], now) == SweepEvents(was[..i], now) + RowEvents(was[i], now)
      ensures SweepAlerts(was[..i + 1], now) == SweepAlerts(was[..i], now) + RowAlerts(was[i], i, now)
    {
      assert was[..i + 1][..i] == was[..i];
    }

    // ---------- queries and the start of a command ----------

    method GetStatus(moduleId: string) returns (found: bool, row: DoorRow)
      requires Valid()
      ensures var r := FindDoor(doors[..], moduleId);
              found == (r < MAX_DOORS) && (found ==> row == doors[..][r])
    {
      for i := 0 to MAX_DOORS
        invariant forall j | 0 <= j < i :: !IsRowOf(doors[j], moduleId)
      {
        if doors[i].known && doors[i].moduleId == moduleId {
          return true, doors[i];
        }
      }
      return false, FREE_ROW;
    }

    /** The first critical section of hub_udp_send_command: find the module's row, copy
        its address, take the next id. `row` is MAX_DOORS when the call fails at once. */
    method TakeCommandId(moduleId: string) returns (row: nat, dest: Addr, cmdid: int)
      requires Valid()
      modifies this`nextCmdid
      ensures var r := FindDoor(old(doors[..]), moduleId);
              if r < MAX_DOORS && doors[r].hasLastAddr
              then row == r && dest == doors[r].lastAddr && cmdid == old(nextCmdid) && nextCmdid == old(nextCmdid) + 1
              else row == MAX_DOORS && nextCmdid == old(nextCmdid)
      ensures Valid()
    {
      row, dest, cmdid := MAX_DOORS, Addr(0, 0), 0;
      for i := 0 to MAX_DOORS
        invariant forall j | 0 <= j < i :: !IsRowOf(doors[j], moduleId)
      {
        if doors[i].known && doors[i].moduleId == moduleId {
          if doors[i].hasLastAddr {
            row, dest, cmdid := i, doors[i].lastAddr, nextCmdid;
            nextCmdid := nextCmdid + 1;
          }
          return;
        }
      }
    }

    /** One datagram of a call, sent outside the mutex. */
    method Transmit(call: nat, cmdid: int, dst: Addr, line: string)
      requires Valid()
      modifies this`log
      ensures Valid() && Abs() == old(Abs()).(log := old(log) + [Commanded(call, cmdid, dst, line)])
    {
      log := log + [Commanded(call, cmdid, dst, line)];
    }
  }
}
