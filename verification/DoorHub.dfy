/** The lines a door prints, as the hub reads them: every message comes apart into the words
    that were meant, and changes the door's row exactly as it says. */
module DoorHub {
  import opened Text
  import opened Pending
  import opened HubModel
  import opened HubRuns
  import opened DoorReporter

  /** An id the 16-byte fields hold whole and the tokenisers keep whole. */
  predicate IsId(m: string) { IsWord(m) && |m| <= 15 }

  // ---------- the hub understands what the door prints ----------

  lemma PlainTypes()
    ensures IsPlain("HELLO") && IsPlain("HEARTBEAT") && IsPlain("EVENT")
  {
  }

  lemma PlainParts()
    ensures IsPlain("D0") && IsPlain("D1") && IsPlain("DOOR") && IsPlain("LOCK")
  {
  }

  lemma PlainStates(o: bool, l: bool)
    ensures IsPlain(OpenWord(o)) && IsPlain(LockWord(l)) && 4 <= |OpenWord(o)| <= 6 <= |LockWord(l)| <= 8
    ensures ',' !in OpenWord(o)
  {
  }

  lemma {:induction false} IndexAfter(a: string, c: char, b: string)
    requires c !in a
    ensures IndexOf(a + [c] + b, c) == |a|
  {
    var s := a + [c] + b;
    assert s[|a|] == c;
    assert forall i | 0 <= i < |a| :: s[i] == a[i] && a[i] in a;
  }

  lemma {:induction false} CutAt(a: string, c: char, b: string)
    requires c !in a
    ensures var s := a + [c] + b; var k := IndexOf(s, c); k < |s| && s[..k] == a && s[k + 1..] == b
  {
    IndexAfter(a, c, b);
  }

  lemma SplitsAt(a: string, b: string, c: string)
    requires '=' !in a && ',' !in b && |b| <= 31 && |c| <= 31
    ensures SplitState(a + ['='] + (b + [','] + c)) == Fields(b, c)
  {
    CutAt(a, '=', b + [','] + c);
    CutAt(b, ',', c);
  }

  lemma StateTokenSplits(door: string, o: bool, l: bool)
    requires '=' !in door
    ensures SplitState(StateToken(door, o, l)) == Fields(OpenWord(o), LockWord(l))
  {
    PlainStates(o, l);
    SplitsAt(door, OpenWord(o), LockWord(l));
    TokenShape(door, OpenWord(o), LockWord(l));
  }

  lemma TokenShape(a: string, b: string, c: string)
    ensures a + "=" + b + "," + c == a + ['='] + (b + [','] + c)
  {
  }

  lemma StateTokenParses(door: string, o: bool, l: bool, was: Pair)
    requires '=' !in door
    ensures ParseState(StateToken(door, o, l), was) == Pair(o, l)
  {
    StateTokenSplits(door, o, l);
  }

  lemma StateTokenIsWord(door: string, o: bool, l: bool)
    requires IsPlain(door) && |door| == 2
    ensures IsWord(StateToken(door, o, l)) && |StateToken(door, o, l)| <= 18
  {
    PlainStates(o, l);
    var s := StateToken(door, o, l);
    assert s == door + ['='] + OpenWord(o) + [','] + LockWord(l);
    PlainIsWord(s);
  }

  predicate ShortWord(w: string) { IsWord(w) && |w| <= 18 }

  lemma PlainIsShort(w: string)
    requires IsPlain(w) && 0 < |w| <= 18
    ensures ShortWord(w)
  {
    PlainIsWord(w);
  }

  lemma MsgWordsAreWords(m: string, msg: Msg)
    requires IsId(m)
    ensures forall w | w in MsgWords(m, msg) :: ShortWord(w)
  {
    match msg {
      case Hello =>
        assert ShortWord("HELLO") by { PlainTypes(); PlainIsShort("HELLO"); }
      case Heartbeat(o, l) =>
        assert ShortWord("HEARTBEAT") by { PlainTypes(); PlainIsShort("HEARTBEAT"); }
        assert ShortWord(StateToken("D0", o, l)) && ShortWord(StateToken("D1", o, l)) by {
          PlainParts();
          StateTokenIsWord("D0", o, l);
          StateTokenIsWord("D1", o, l);
        }
      case DoorEvent(o) => EventWordsAreWords(OpenWord(o), o, false);
      case LockEvent(l) => EventWordsAreWords(LockWord(l), false, l);
    }
  }

  lemma EventWordsAreWords(w: string, o: bool, l: bool)
    requires w == OpenWord(o) || w == LockWord(l)
    ensures ShortWord("EVENT") && ShortWord("D0") && ShortWord("D1") && ShortWord("DOOR") &&
            ShortWord("LOCK") && ShortWord(w)
  {
    PlainTypes();
    PlainParts();
    PlainStates(o, l);
    PlainIsShort("EVENT");
    PlainIsShort("D0");
    PlainIsShort("D1");
    PlainIsShort("DOOR");
    PlainIsShort("LOCK");
    PlainIsShort(w);
  }

  lemma MsgIsRead(m: string, msg: Msg)
    requires IsId(m)
    ensures Words(Print(m, msg)) == MsgWords(m, msg)
  {
    var ws := MsgWords(m, msg);
    MsgWordsAreWords(m, msg);
    LineLength(ws);
    ReceivedLine(ws);
    CTokensOfLine(ws);
  }

  lemma {:induction false} LineLength(ws: seq<string>)
    requires forall w | w in ws :: |w| <= 18
    ensures |Line(ws)| <= 19 * |ws| + 1
  {
    if |ws| > 1 { LineLength(ws[1..]); }
  }

  lemma StateTokenStarts(o: bool, l: bool)
    ensures "D0=" <= StateToken("D0", o, l) && "D1=" <= StateToken("D1", o, l) && !("D0=" <= StateToken("D1", o, l))
  {
    assert StateToken("D0", o, l)[..3] == "D0=";
    assert StateToken("D1", o, l)[..3] == "D1=";
    assert "D0="[1] == '0' && "D1="[1] == '1';
  }

  lemma TokenSets(bits: Bits, o: bool, l: bool)
    ensures ApplyStateToken(bits, StateToken("D0", o, l)) == bits.(d0Open := o, d0Locked := l)
    ensures ApplyStateToken(bits, StateToken("D1", o, l)) == bits.(d1Open := o, d1Locked := l)
  {
    StateTokenStarts(o, l);
    assert '=' !in "D0" && '=' !in "D1";
    var a, b := StateToken("D0", o, l), StateToken("D1", o, l);
    assert ParseState(a, Pair(bits.d0Open, bits.d0Locked)) == Pair(o, l) by {
      StateTokenParses("D0", o, l, Pair(bits.d0Open, bits.d0Locked));
    }
    assert ParseState(b, Pair(bits.d1Open, bits.d1Locked)) == Pair(o, l) by {
      StateTokenParses("D1", o, l, Pair(bits.d1Open, bits.d1Locked));
    }
  }

  /** Whatever the hub believed before, a heartbeat sets all four booleans of the row. */
  lemma HeartbeatHeals(bits: Bits, o: bool, l: bool)
    ensures ApplyStateTokens(bits, [StateToken("D0", o, l), StateToken("D1", o, l)]) == Bits(o, l, o, l)
  {
    var a, b := StateToken("D0", o, l), StateToken("D1", o, l);
    assert [a, b][..1] == [a] && [a][..0] == [];
    TokenSets(bits, o, l);
    TokenSets(bits.(d0Open := o, d0Locked := l), o, l);
    assert ApplyStateTokens(bits, [a]) == ApplyStateToken(bits, a);
  }

  /** What a message of the door does to its row. */
  function Told(row: DoorRow, msg: Msg, t: int): DoorRow
  {
    match msg
    case Hello => row.(lastEventMs := t)
    case Heartbeat(o, l) => row.(bits := Bits(o, l, o, l), lastHeartbeatMs := t)
    case DoorEvent(o) => row.(bits := row.bits.(d0Open := o), lastEventMs := t)
    case LockEvent(l) => row.(bits := row.bits.(d1Locked := l), lastEventMs := t)
  }

  lemma EventsAreUnderstood(m: string, b: bool)
    ensures EventChange([m, "EVENT", "D0", "DOOR", OpenWord(b)]) == SetOpen(0, b)
    ensures EventChange([m, "EVENT", "D1", "LOCK", LockWord(b)]) == SetLocked(1, b)
  {
  }

  lemma TypesDiffer()
    ensures "HELLO" != "COMMAND" && "HELLO" != "HEARTBEAT" && "HELLO" != "EVENT" && "HELLO" != "FEEDBACK"
    ensures "EVENT" != "COMMAND" && "EVENT" != "HEARTBEAT" && "HEARTBEAT" != "COMMAND"
  {
    assert "HELLO"[0] == 'H' && "EVENT"[0] == 'E';
  }

  lemma BeatIsTold(row: DoorRow, m: string, o: bool, l: bool, src: Addr, t: int)
    ensures var row' := RowAfter(row, MsgWords(m, Heartbeat(o, l)), src, t);
            row' == Told(row, Heartbeat(o, l), t).(
                      hasLastAddr := true, lastAddr := src, lastHeartbeatLine := row'.lastHeartbeatLine)
  {
    TypesDiffer();
    HeartbeatHeals(row.bits, o, l);
    assert MsgWords(m, Heartbeat(o, l))[2..] == [StateToken("D0", o, l), StateToken("D1", o, l)];
  }

  /** Handling the line a door prints leaves its row as told, but for the address and,
      on a heartbeat, the line kept for display. */
  lemma RowIsTold(row: DoorRow, m: string, msg: Msg, src: Addr, t: int)
    ensures var row' := RowAfter(row, MsgWords(m, msg), src, t);
            row' == Told(row, msg, t).(
                      hasLastAddr := true, lastAddr := src, lastHeartbeatLine := row'.lastHeartbeatLine)
  {
    match msg {
      case Hello => TypesDiffer();
      case Heartbeat(o, l) => BeatIsTold(row, m, o, l, src, t);
      case DoorEvent(o) =>
        TypesDiffer();
        EventsAreUnderstood(m, o);
      case LockEvent(l) =>
        TypesDiffer();
        EventsAreUnderstood(m, l);
    }
  }
}
