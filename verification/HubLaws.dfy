/** What one line, and one sweep, come to at the hub, said word by word: every field of the
    row, every event of the history and every alert, read back from outside. */
module HubLaws {
  import opened Text
  import opened Pending
  import opened HubModel
  import opened HubRuns

  // ---------- the history of a line ----------

  lemma WordsAreTokens(text: string)
    ensures forall w | w in Words(text) :: IsToken(CLib, w)
    ensures |Words(text)| >= 2 ==> |Words(text)[0]| + 1 + |Words(text)[1]| <= 255
  {
    FirstTwoFit(CLib, Received(text));
  }

  lemma JoinTwo(a: string, b: string)
    ensures Join([a, b]) == a + " " + b && |Join([a, b])| == |a| + 1 + |b|
  {
    assert [a, b][1..] == [b];
  }

  lemma HeadLineReads(ts: seq<string>)
    requires |ts| >= 2 && IsToken(CLib, ts[0]) && IsToken(CLib, ts[1]) && |ts[0]| + 1 + |ts[1]| <= 255
    ensures Tokens(CLib, HistLine(ts)) == [ts[0], ts[1]]
  {
    JoinTwo(ts[0], ts[1]);
    TokensOfJoin(CLib, [ts[0], ts[1]]);
  }

  /** What a handled line adds to the history: first its module and type; after a complete
      FEEDBACK its id, target and action as well; and nothing else. */
  lemma {:induction false} LineIsRecorded(h: Hub, text: string, src: Addr, t: int)
    requires h.due == Nothing && |Words(text)| >= 2 && RowFor(h.doors, Words(text)[0]) < MAX_DOORS
    ensures var ts, h' := Words(text), Step(h, Datagram(text, src, t));
            && h.history <= h'.history
            && |h'.history| == |h.history| + (if ts[1] == "FEEDBACK" && |ts| >= 5 then 2 else 1)
            && h'.history[|h.history|].timestampMs == t
            && h'.history[|h.history|].moduleId == Trunc(ts[0], 15)
            && Tokens(CLib, h'.history[|h.history|].line) == [ts[0], ts[1]]
  {
    var ts := Words(text);
    WordsAreTokens(text);
    assert ts[0] in ts && ts[1] in ts;
    HeadLineReads(ts);
    StepAddsEvents(h, Datagram(text, src, t));
  }

  lemma FourReads(n: int, target: string, action: string)
    requires IsToken(CLib, target) && IsToken(CLib, action)
    ensures Tokens(CLib, Join(["FEEDBACK", Dec(n), target, action])) == ["FEEDBACK", Dec(n), target, action]
  {
    var ws := ["FEEDBACK", Dec(n), target, action];
    DecIsWord(n);
    WordIsCToken(Dec(n));
    assert IsPlain("FEEDBACK");
    PlainIsWord("FEEDBACK");
    WordIsCToken("FEEDBACK");
    TokensOfJoin(CLib, ws);
  }

  /** The second event of a FEEDBACK, when its words fit a line. */
  lemma {:induction false} FeedbackIsRecorded(h: Hub, text: string, src: Addr, t: int)
    requires h.due == Nothing && |Words(text)| >= 5 && RowFor(h.doors, Words(text)[0]) < MAX_DOORS
    requires Words(text)[1] == "FEEDBACK"
    requires |Join(["FEEDBACK", Dec(Atoi(Words(text)[2])), Words(text)[3], Words(text)[4]])| <= 255
    ensures var ts, e := Words(text), Step(h, Datagram(text, src, t)).history[|h.history| + 1];
            var read := Tokens(CLib, e.line);
            && e.timestampMs == t && e.moduleId == Trunc(ts[0], 15)
            && |read| == 4 && read[0] == "FEEDBACK" && Atoi(read[1]) == Atoi(ts[2])
            && read[2] == ts[3] && read[3] == ts[4]
  {
    var ts := Words(text);
    WordsAreTokens(text);
    assert ts[3] in ts && ts[4] in ts;
    FourReads(Atoi(ts[2]), ts[3], ts[4]);
    NumberRoundTrip(Atoi(ts[2]));
    StepAddsEvents(h, Datagram(text, src, t));
  }

  /** A line of a module that can have no row: its address is noted, one event says that it
      is untracked, and that is all. A line without two words does nothing. */
  lemma {:induction false} UntrackedIsDropped(h: Hub, text: string, src: Addr, t: int)
    requires h.due == Nothing
    ensures |Words(text)| < 2 ==> Step(h, Datagram(text, src, t)) == h
    ensures |Words(text)| >= 2 && RowFor(h.doors, Words(text)[0]) == MAX_DOORS ==>
              var h' := Step(h, Datagram(text, src, t));
              && h'.doors == h.doors && h'.pending == h.pending && h'.due == Nothing && h'.log == h.log
              && h'.nextCmdid == h.nextCmdid
              && h'.history == h.history + [Event(t, Trunc(Words(text)[0], 15), "<NO-STATE> (untracked)")]
              && (Words(text)[1] == "COMMAND" ==> h'.endpoints == h.endpoints)
  {
  }

  // ---------- the row ----------

  /** A module heard of for the first time starts blank: nothing open or locked, not
      offline, no time, no line, no address and no feedback. */
  lemma {:induction false} NewRowIsBlank(d: DoorTable, m: string)
    requires FindDoor(d, m) == MAX_DOORS && RowFor(d, m) < MAX_DOORS
    ensures var row := BaseRow(d[RowFor(d, m)], m);
            && row.known && !row.offline && row.moduleId == Trunc(m, 15)
            && !row.bits.d0Open && !row.bits.d0Locked && !row.bits.d1Open && !row.bits.d1Locked
            && row.lastHeartbeatMs == 0 && row.lastEventMs == 0 && row.lastOnlineMs == 0 && row.lastHeartbeatLine == ""
            && !row.hasLastAddr && row.feedback.ms == 0 && row.feedback.cmdid == 0
            && row.feedback.target == "" && row.feedback.action == ""
  {
  }

  /** Which line changes what: the heartbeat's time and line by a HEARTBEAT only, the event
      time by every line but HEARTBEAT, FEEDBACK and COMMAND, the booleans by HEARTBEAT and
      EVENT only; and nothing at all by a COMMAND. */
  lemma {:induction false} LineChanges(base: DoorRow, ts: seq<string>, src: Addr, t: int)
    requires |ts| >= 2
    ensures var row := RowAfter(base, ts, src, t);
            && row.lastHeartbeatMs == (if ts[1] == "HEARTBEAT" then t else base.lastHeartbeatMs)
            && (ts[1] == "HEARTBEAT" || ts[1] == "FEEDBACK" || ts[1] == "COMMAND" ==>
                 row.lastEventMs == base.lastEventMs)
            && (ts[1] != "HEARTBEAT" && ts[1] != "FEEDBACK" && ts[1] != "COMMAND" ==> row.lastEventMs == t)
            && row.lastOnlineMs == base.lastOnlineMs
            && (ts[1] != "HEARTBEAT" ==> row.lastHeartbeatLine == base.lastHeartbeatLine)
            && (ts[1] != "HEARTBEAT" && ts[1] != "EVENT" ==> row.bits == base.bits)
            && (ts[1] == "COMMAND" ==> row == base)
  {
    assert "EVENT"[0] == 'E' && "HEARTBEAT"[0] == 'H' && "FEEDBACK"[0] == 'F' && "COMMAND"[0] == 'C';
  }

  /** The line kept for display reads as the heartbeat's own words, or as module and type if
      it has none, whenever these fit. */
  lemma {:induction false} DisplayLineReads(base: DoorRow, ts: seq<string>, src: Addr, t: int)
    requires |ts| >= 2 && ts[1] == "HEARTBEAT" && forall w | w in ts :: IsToken(CLib, w)
    requires |Join(ts[2..])| <= 255 && |ts[0]| + 1 + |ts[1]| <= 255
    ensures Tokens(CLib, RowAfter(base, ts, src, t).lastHeartbeatLine) == if |ts| > 2 then ts[2..] else ts
  {
    assert |"HEARTBEAT"| == 9 && |"COMMAND"| == 7;
    assert forall w | w in ts[2..] :: w in ts;
    TokensOfJoin(CLib, ts[2..]);
    assert ts[0] in ts && ts[1] in ts;
    HeadLineReads(ts);
    if |ts| == 2 { assert ts == [ts[0], ts[1]]; }
  }

  predicate Says(ts: seq<string>, which: string, what: string, state: string)
    requires |ts| >= 5
  {
    ts[2] == which && ts[3] == what && ts[4] == state
  }

  lemma EventBits(base: DoorRow, ts: seq<string>, src: Addr, t: int)
    requires |ts| >= 5 && ts[1] == "EVENT"
    ensures RowAfter(base, ts, src, t).bits == ApplyChange(base.bits, ChangeOf(ts[2], ts[3], ts[4]))
  {
    assert "EVENT"[0] == 'E' && "HEARTBEAT"[0] == 'H' && "COMMAND"[0] == 'C';
  }

  lemma OpenEvents(bits: Bits, ts: seq<string>)
    requires |ts| >= 5
    ensures var b := ApplyChange(bits, ChangeOf(ts[2], ts[3], ts[4]));
            && b.d0Open == (Says(ts, "D0", "DOOR", "OPEN") || (!Says(ts, "D0", "DOOR", "CLOSED") && bits.d0Open))
            && b.d1Open == (Says(ts, "D1", "DOOR", "OPEN") || (!Says(ts, "D1", "DOOR", "CLOSED") && bits.d1Open))
  {
    assert "D0"[1] == '0' && "D1"[1] == '1' && "DOOR"[0] == 'D' && "LOCK"[0] == 'L';
    assert |"OPEN"| == 4 && |"CLOSED"| == 6;
  }

  lemma LockEvents(bits: Bits, ts: seq<string>)
    requires |ts| >= 5
    ensures var was, b := bits, ApplyChange(bits, ChangeOf(ts[2], ts[3], ts[4]));
            && b.d0Locked == (Says(ts, "D0", "LOCK", "LOCKED") || (!Says(ts, "D0", "LOCK", "UNLOCKED") && was.d0Locked))
            && b.d1Locked == (Says(ts, "D1", "LOCK", "LOCKED") || (!Says(ts, "D1", "LOCK", "UNLOCKED") && was.d1Locked))
  {
    assert "D0"[1] == '0' && "D1"[1] == '1' && "DOOR"[0] == 'D' && "LOCK"[0] == 'L';
    assert |"LOCKED"| == 6 && |"UNLOCKED"| == 8;
  }

  /** What an EVENT does to the booleans, each of them in turn: it is set by one event and
      cleared by another, and no other event touches it. */
  lemma {:induction false} EventSetsBits(base: DoorRow, ts: seq<string>, src: Addr, t: int)
    requires |ts| >= 5 && ts[1] == "EVENT"
    ensures var was, b := base.bits, RowAfter(base, ts, src, t).bits;
            && b.d0Open == (Says(ts, "D0", "DOOR", "OPEN") || (!Says(ts, "D0", "DOOR", "CLOSED") && was.d0Open))
            && b.d1Open == (Says(ts, "D1", "DOOR", "OPEN") || (!Says(ts, "D1", "DOOR", "CLOSED") && was.d1Open))
            && b.d0Locked == (Says(ts, "D0", "LOCK", "LOCKED") || (!Says(ts, "D0", "LOCK", "UNLOCKED") && was.d0Locked))
            && b.d1Locked == (Says(ts, "D1", "LOCK", "LOCKED") || (!Says(ts, "D1", "LOCK", "UNLOCKED") && was.d1Locked))
  {
    EventBits(base, ts, src, t);
    OpenEvents(base.bits, ts);
    LockEvents(base.bits, ts);
  }

  /** Which EVENTs raise an alert, and that it says what the EVENT said. */
  lemma {:induction false} EventAlerts(r: nat, ts: seq<string>, src: Addr)
    requires |ts| >= 5 && ts[1] == "EVENT"
    ensures var acts := LogOf(r, ts, src);
            var understood := (ts[2] == "D0" || ts[2] == "D1")
              && ((ts[3] == "DOOR" && (ts[4] == "OPEN" || ts[4] == "CLOSED"))
                  || (ts[3] == "LOCK" && (ts[4] == "LOCKED" || ts[4] == "UNLOCKED")));
            if !understood then acts == []
            else
              && |acts| == 1 && acts[0].Alerted? && acts[0].row == r && acts[0].moduleId == ts[0]
              && (acts[0].door == "D0" || acts[0].door == "D1") && acts[0].door == ts[2]
              && (acts[0].eventType == "DOOR" || acts[0].eventType == "LOCK") && acts[0].eventType == ts[3]
              && acts[0].state == ts[4]
  {
    assert |"EVENT"| == 5 && |"FEEDBACK"| == 8 && |"COMMAND"| == 7;
    assert "DOOR"[0] == 'D' && "LOCK"[0] == 'L';
  }

  // ---------- door states on the wire ----------

  lemma NoCut(s: string, c: char)
    requires c !in s
    ensures IndexOf(s, c) == |s|
  {
  }

  function OpenSaid(word: string, was: bool): bool
  {
    word == "OPEN" || (word != "CLOSED" && was)
  }

  function LockSaid(word: string, was: bool): bool
  {
    word == "LOCKED" || (word != "UNLOCKED" && was)
  }

  /** A state token in general, cut at the '=' and the first comma behind it: the first part
      may open or close, the second lock or unlock; an empty second part leaves the lock to
      the first; and words that say none of this change nothing. */
  lemma {:induction false} StateTokenMeans(a: string, first: string, second: string, was: Pair)
    requires '=' !in a && ',' !in first && |first| <= 31 && |second| <= 31
    ensures ParseState(a + ['='] + (first + [','] + second), was) ==
            Pair(OpenSaid(first, was.open), LockSaid(if second == "" then first else second, was.locked))
  {
    TwoFields(a, first, second);
    assert "OPEN"[0] == 'O' && "CLOSED"[0] == 'C' && "LOCKED"[0] == 'L' && "UNLOCKED"[0] == 'U';
  }

  lemma TwoFields(a: string, first: string, second: string)
    requires '=' !in a && ',' !in first && |first| <= 31 && |second| <= 31
    ensures SplitState(a + ['='] + (first + [','] + second)) == Fields(first, second)
  {
    Cuts(a, '=', first + [','] + second);
    Cuts(first, ',', second);
  }

  /** Without a comma there is one part, which may do either; without '=' there is none. */
  lemma {:induction false} LoneFieldMeans(a: string, word: string, was: Pair)
    requires '=' !in a && ',' !in word && |word| <= 31
    ensures ParseState(a + ['='] + word, was) == Pair(OpenSaid(word, was.open), LockSaid(word, was.locked))
    ensures ParseState(a, was) == was
  {
    Cuts(a, '=', word);
    NoCut(word, ',');
    NoCut(a, '=');
    assert word[..|word|] == word;
    assert "OPEN"[0] == 'O' && "CLOSED"[0] == 'C' && "LOCKED"[0] == 'L' && "UNLOCKED"[0] == 'U';
  }

  lemma {:induction false} Cuts(a: string, c: char, b: string)
    requires c !in a
    ensures var s := a + [c] + b;
            IndexOf(s, c) == |a| && s[..|a|] == a && s[|a| + 1..] == b
  {
    var s := a + [c] + b;
    assert s[|a|] == c;
    assert forall i | 0 <= i < |a| :: s[i] == a[i] && a[i] in a;
  }

  /** A token speaks of the door it begins with, and of no other. */
  lemma {:induction false} TokenTouches(bits: Bits, token: string)
    ensures var b := ApplyStateToken(bits, token);
            && (!("D0=" <= token) ==> b.d0Open == bits.d0Open && b.d0Locked == bits.d0Locked)
            && (!("D1=" <= token) ==> b.d1Open == bits.d1Open && b.d1Locked == bits.d1Locked)
            && ("D0=" <= token ==> Pair(b.d0Open, b.d0Locked) == ParseState(token, Pair(bits.d0Open, bits.d0Locked)))
            && ("D1=" <= token ==> Pair(b.d1Open, b.d1Locked) == ParseState(token, Pair(bits.d1Open, bits.d1Locked)))
  {
    assert "D0=" <= token ==> token[1] == '0';
    assert "D1=" <= token ==> token[1] == '1';
  }

  // ---------- the sweep ----------

  /** One row of a sweep: the flag changes exactly when it was wrong, the offline time with
      it when the module goes, and nothing else. */
  lemma {:induction false} SweepChanges(row: DoorRow, now: int)
    ensures var row', late := SweepRow(row, now), now - row.lastHeartbeatMs > 10000;
            && row' == row.(offline := row'.offline, lastOnlineMs := row'.lastOnlineMs)
            && row'.offline == (if row.known then late else row.offline)
            && row'.lastOnlineMs == (if row.known && late && !row.offline then now else row.lastOnlineMs)
  {
  }

  /** What a row's change says, in the history and as an alert: the module, and OFFLINE or
      ONLINE as the flag is now; without a change, nothing. */
  lemma {:induction false} SweepSays(row: DoorRow, i: nat, now: int)
    requires IsWord(row.moduleId) && |row.moduleId| <= ID_LEN
    ensures var row', events, alerts := SweepRow(row, now), RowEvents(row, now), RowAlerts(row, i, now);
            var says := if row'.offline then "OFFLINE" else "ONLINE";
            if row'.offline == row.offline then events == [] && alerts == []
            else
              && |events| == 1 && events[0].timestampMs == now && events[0].moduleId == row.moduleId
              && Tokens(CLib, events[0].line) == [row.moduleId, "EVENT", "SYSTEM", says]
              && alerts == [Alerted(i, row.moduleId, "SYSTEM", "MODULE", says)]
  {
    var says := SweepState(row, now);
    var ws := [row.moduleId, "EVENT", "SYSTEM", says];
    SystemWords();
    CTokensOfLine(ws);
    assert |Line(ws)| <= 255 by { FourWords(row.moduleId, "EVENT", "SYSTEM", says); }
  }

  lemma SystemWords()
    ensures IsWord("EVENT") && IsWord("SYSTEM") && IsWord("OFFLINE") && IsWord("ONLINE")
  {
    assert IsPlain("EVENT") && IsPlain("SYSTEM") && IsPlain("OFFLINE") && IsPlain("ONLINE");
    PlainIsWord("EVENT");
    PlainIsWord("SYSTEM");
    PlainIsWord("OFFLINE");
    PlainIsWord("ONLINE");
  }

  lemma FourWords(a: string, b: string, c: string, d: string)
    ensures |Line([a, b, c, d])| == |a| + |b| + |c| + |d| + 4
  {
    JoinTwo(c, d);
    assert [b, c, d][1..] == [c, d] && Join([b, c, d]) == b + " " + Join([c, d]);
    assert [a, b, c, d][1..] == [b, c, d] && Join([a, b, c, d]) == a + " " + Join([b, c, d]);
  }

  predicate Mentions(acts: seq<Act>, i: nat)
  {
    exists k | 0 <= k < |acts| :: acts[k].Alerted? && acts[k].row == i
  }

  lemma {:induction false} AlertsRise(doors: seq<DoorRow>, now: int)
    ensures var alerts := SweepAlerts(doors, now);
            && |SweepEvents(doors, now)| == |alerts|
            && (forall k | 0 <= k < |alerts| :: alerts[k].Alerted? && alerts[k].row < |doors|)
            && (forall j, k | 0 <= j < k < |alerts| :: alerts[j].row < alerts[k].row)
  {
    if doors != [] { AlertsRise(doors[..|doors| - 1], now); }
  }

  lemma {:induction false} AlertsOfChanges(doors: seq<DoorRow>, now: int, i: nat)
    requires i < |doors|
    ensures SweepRow(doors[i], now).offline != doors[i].offline <==> Mentions(SweepAlerts(doors, now), i)
  {
    var n := |doors| - 1;
    var before, own := SweepAlerts(doors[..n], now), RowAlerts(doors[n], n, now);
    AlertsRise(doors[..n], now);
    MentionsEither(before, own, i);
    if i < n {
      AlertsOfChanges(doors[..n], now, i);
      OwnRowOnly(doors[n], n, now, i);
    } else {
      LastRowMentions(before, doors[n], n, now);
    }
  }

  lemma OwnRowOnly(row: DoorRow, n: nat, now: int, i: nat)
    requires i != n
    ensures !Mentions(RowAlerts(row, n, now), i)
  {
  }

  /** The k-th event is the one of the row the k-th alert is for. */
  lemma {:induction false} EventsGoWithAlerts(doors: seq<DoorRow>, now: int, k: nat)
    requires k < |SweepAlerts(doors, now)|
    ensures var a := SweepAlerts(doors, now)[k];
            && |SweepEvents(doors, now)| == |SweepAlerts(doors, now)|
            && a.Alerted? && a.row < |doors|
            && RowEvents(doors[a.row], now) == [SweepEvents(doors, now)[k]]
  {
    var n := |doors| - 1;
    AlertsRise(doors, now);
    AlertsRise(doors[..n], now);
    if k < |SweepAlerts(doors[..n], now)| { EventsGoWithAlerts(doors[..n], now, k); }
  }

  /** A sweep goes through the rows in order: its alerts are those of the rows that change,
      each once and by rising row, and its events are theirs, one for one. */
  lemma {:induction false} SweepInOrder(doors: seq<DoorRow>, now: int)
    ensures var alerts := SweepAlerts(doors, now);
            && |SweepEvents(doors, now)| == |alerts|
            && (forall k | 0 <= k < |alerts| :: alerts[k].Alerted? && alerts[k].row < |doors|)
            && (forall j, k | 0 <= j < k < |alerts| :: alerts[j].row < alerts[k].row)
            && (forall k | 0 <= k < |alerts| :: RowEvents(doors[alerts[k].row], now) == [SweepEvents(doors, now)[k]])
    ensures forall i | 0 <= i < |doors| ::
              SweepRow(doors[i], now).offline != doors[i].offline <==> Mentions(SweepAlerts(doors, now), i)
  {
    AlertsRise(doors, now);
    forall k | 0 <= k < |SweepAlerts(doors, now)|
      ensures RowEvents(doors[SweepAlerts(doors, now)[k].row], now) == [SweepEvents(doors, now)[k]]
    {
      EventsGoWithAlerts(doors, now, k);
    }
    forall i | 0 <= i < |doors|
      ensures SweepRow(doors[i], now).offline != doors[i].offline <==> Mentions(SweepAlerts(doors, now), i)
    {
      AlertsOfChanges(doors, now, i);
    }
  }

  lemma MentionsEither(a: seq<Act>, b: seq<Act>, i: nat)
    ensures Mentions(a + b, i) <==> Mentions(a, i) || Mentions(b, i)
  {
    if Mentions(a, i) {
      var k :| 0 <= k < |a| && a[k].Alerted? && a[k].row == i;
      assert (a + b)[k] == a[k];
    }
    if Mentions(b, i) {
      var k :| 0 <= k < |b| && b[k].Alerted? && b[k].row == i;
      assert (a + b)[|a| + k] == b[k];
    }
  }

  lemma LastRowMentions(before: seq<Act>, row: DoorRow, n: nat, now: int)
    requires forall k | 0 <= k < |before| :: before[k].Alerted? && before[k].row < n
    ensures !Mentions(before, n)
    ensures Mentions(RowAlerts(row, n, now), n) <==> SweepRow(row, now).offline != row.offline
  {
    var own := RowAlerts(row, n, now);
    if own != [] { assert own[0].row == n; }
  }
}
