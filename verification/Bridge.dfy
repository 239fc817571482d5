/** The Node bridge between web clients and the hub: commands with increasing ids, a map
    of those waiting for their FEEDBACK, and a timer for each. */
module Bridge {
  import opened Text

  /** Who asked: a client to be told, nobody, or a get-door-info call with its callback. */
  datatype Kind = Direct | Silent | Info

  /** What a requester is told about its command, broadcasts apart. */
  datatype Reply = Answered(cmdid: int, moduleId: string, target: string, action: string) | Failed(cmdid: int)

  /** `kinds[k]` is the kind of the command with id k + 1. `sending` holds the ids whose
      send callback is still to come, `timers` those whose timer is running. */
  datatype State = State(kinds: seq<Kind>, sending: set<int>, pending: set<int>, timers: set<int>, replies: seq<Reply>)

  const START := State([], {}, {}, {}, [])

  datatype Event = Request(kind: Kind)
                 | Sent(cmdid: int, ok: bool)
                 | Message(text: string)
                 | TimesOut(cmdid: int)

  predicate IsInfo(s: State, c: int) { 1 <= c <= |s.kinds| && s.kinds[c - 1] == Info }

  predicate IsDirect(s: State, c: int) { 1 <= c <= |s.kinds| && s.kinds[c - 1] == Direct }

  // ---------- the lines ----------

  /** The COMMAND line; missing parts get their defaults. */
  function CommandText(moduleId: string, cmdid: int, target: string, action: string): string
  {
    Line([if moduleId == "" then "D1" else moduleId, "COMMAND", Dec(cmdid),
          if target == "" then "D0" else target, action])
  }

  datatype Feedback = NoFeedback | Feedback(moduleId: string, cmdid: Number, target: string, action: string)

  function ParseFeedback(text: string): Feedback
  {
    var parts := Tokens(JavaScript, text);
    if |parts| >= 5 && parts[1] == "FEEDBACK"
    then Feedback(parts[0], ParseInt(parts[2]), parts[3], Join(parts[4..]))
    else NoFeedback
  }

  /** What is missing from a request gets its default, and nothing else does. */
  lemma {:induction false} DefaultsAreFilledIn(moduleId: string, cmdid: int, target: string, action: string)
    requires moduleId == "" || IsToken(CLib, moduleId)
    requires target == "" || IsToken(CLib, target)
    requires IsToken(CLib, action)
    ensures var ws := Tokens(CLib, CommandText(moduleId, cmdid, target, action));
            && |ws| == 5 && ws[1] == "COMMAND" && Atoi(ws[2]) == cmdid && ws[4] == action
            && (moduleId == "" ==> ws[0] == "D1") && (moduleId != "" ==> ws[0] == moduleId)
            && (target == "" ==> ws[3] == "D0") && (target != "" ==> ws[3] == target)
  {
    assert IsPlain("COMMAND") && IsPlain("D1") && IsPlain("D0");
    PlainIsWord("COMMAND");
    PlainIsWord("D1");
    PlainIsWord("D0");
    DecIsWord(cmdid);
    WordIsCToken("COMMAND");
    WordIsCToken("D1");
    WordIsCToken("D0");
    WordIsCToken(Dec(cmdid));
    NumberRoundTrip(cmdid);
    TokensOfLine(CLib, [if moduleId == "" then "D1" else moduleId, "COMMAND", Dec(cmdid),
                        if target == "" then "D0" else target, action]);
  }

  /** A FEEDBACK's action is all its words from the fifth on; a line of another kind, or with
      fewer words, or without a number, answers nothing. */
  lemma {:induction false} FeedbackExactly(s: State, ws: seq<string>)
    requires forall w | w in ws :: IsToken(JavaScript, w)
    ensures |ws| < 5 || ws[1] != "FEEDBACK" || ParseInt(ws[2]) == NaN ==> Answers(s, Line(ws)) == []
    ensures |ws| >= 5 && ws[1] == "FEEDBACK" ==>
              && ParseFeedback(Line(ws)).Feedback? && ParseFeedback(Line(ws)).moduleId == ws[0]
              && ParseFeedback(Line(ws)).target == ws[3]
              && Tokens(JavaScript, ParseFeedback(Line(ws)).action) == ws[4..]
              && (ParseInt(ws[2]).Num? ==>
                   Answers(s, Line(ws)) == if ParseInt(ws[2]).value in s.pending then [ParseInt(ws[2]).value] else [])
  {
    TokensOfLine(JavaScript, ws);
    if |ws| >= 5 {
      assert forall w | w in ws[4..] :: w in ws;
      TokensOfJoin(JavaScript, ws[4..]);
    }
  }

  // ---------- the events ----------

  /** The id the FEEDBACK line answers, if it is one of those waiting. */
  function Answers(s: State, text: string): seq<int>
  {
    var f := ParseFeedback(text);
    if f.Feedback? && f.cmdid.Num? && f.cmdid.value in s.pending then [f.cmdid.value] else []
  }

  function Happen(s: State, e: Event): State
  {
    match e
    case Request(kind) =>
      var c := |s.kinds| + 1;
      var s' := s.(kinds := s.kinds + [kind], sending := s.sending + {c});
      if kind == Info then s'.(pending := s.pending + {c}, timers := s.timers + {c}) else s'
    case Sent(c, ok) =>
      if c !in s.sending || !(1 <= c <= |s.kinds|) then s
      else
        var s' := s.(sending := s.sending - {c});
        (match s.kinds[c - 1]
         case Silent => s'
         case Direct =>
           if ok then s'.(pending := s.pending + {c}, timers := s.timers + {c})
           else s'.(replies := s.replies + [Failed(c)])
         case Info =>
           if ok then s'
           else s'.(pending := s.pending - {c}, timers := s.timers - {c}, replies := s.replies + [Failed(c)]))
    case Message(text) =>
      if Answers(s, text) == [] then s
      else
        var f, c := ParseFeedback(text), Answers(s, text)[0];
        s.(pending := s.pending - {c}, timers := s.timers - {c},
           replies := s.replies + [Answered(c, f.moduleId, f.target, f.action)])
    case TimesOut(c) =>
      if c !in s.timers then s
      else s.(pending := s.pending - {c}, timers := s.timers - {c}, replies := s.replies + [Failed(c)])
  }

  function Run(s: State, es: seq<Event>): State
  {
    if es == [] then s else Happen(Run(s, es[..|es| - 1]), es[|es| - 1])
  }

  // ---------- the program ----------

  /** The module-level variables of the server and its callbacks. The pending map holds
      the kind of each entry's socket object. */
  class Server {
    var cmdCounter: int
    var pending: map<int, Kind>
    var timers: set<int>
    ghost var kinds: seq<Kind>
    ghost var sending: set<int>
    ghost var replies: seq<Reply>

    ghost predicate Valid()
      reads this
    {
      && cmdCounter == |kinds| + 1
      && (forall c | c in pending :: 1 <= c < cmdCounter && pending[c] == kinds[c - 1])
      && (forall c | c in sending :: 1 <= c < cmdCounter)
    }

    ghost function Abs(): State
      reads this
    {
      State(kinds, sending, pending.Keys, timers, replies)
    }

    constructor ()
      ensures Valid() && Abs() == START
    {
      cmdCounter, pending, timers := 1, map[], {};
      kinds, sending, replies := [], {}, [];
    }

    method SendCommand(moduleId: string, target: string, action: string, kind: Kind) returns (payload: string)
      requires Valid() && kind != Info
      modifies this
      ensures Valid() && Abs() == Happen(old(Abs()), Request(kind))
      ensures payload == CommandText(moduleId, old(cmdCounter), target, action)
    {
      var mod := if moduleId == "" then "D1" else moduleId;
      var tgt := if target == "" then "D0" else target;
      var cmdid := cmdCounter;
      cmdCounter := cmdCounter + 1;
      payload := Line([mod, "COMMAND", Dec(cmdid), tgt, action]);
      kinds, sending := kinds + [kind], sending + {cmdid};
    }

    /** get-door-info: the entry and its timer are there before the line is sent. */
    method GetDoorInfo(moduleId: string) returns (payload: string)
      requires Valid()
      modifies this
      ensures Valid() && Abs() == Happen(old(Abs()), Request(Info))
      ensures payload == CommandText(if moduleId != "" && moduleId[0] == 'D' then moduleId else "D" + moduleId,
                                     old(cmdCounter), "D0", "STATUS")
    {
      var mod := if moduleId != "" && moduleId[0] == 'D' then moduleId else "D" + moduleId;
      var cmdid := cmdCounter;
      cmdCounter := cmdCounter + 1;
      payload := Line([mod, "COMMAND", Dec(cmdid), "D0", "STATUS"]);
      timers := timers + {cmdid};
      pending := pending[cmdid := Info];
      kinds, sending := kinds + [Info], sending + {cmdid};
    }

    method Forget(c: int)
      modifies this`pending, this`timers
      ensures pending == old(pending) - {c} && timers == old(timers) - {c}
    {
      timers := timers - {c};
      pending := pending - {c};
    }

    /** The callback of the send, called once for each command. */
    method OnSent(c: int, kind: Kind, ok: bool)
      requires Valid() && c in sending && kinds[c - 1] == kind
      modifies this
      ensures Valid() && Abs() == Happen(old(Abs()), Sent(c, ok))
    {
      sending := sending - {c};
      match kind {
        case Silent =>
        case Direct =>
          if ok {
            timers := timers + {c};
            pending := pending[c := Direct];
          } else {
            replies := replies + [Failed(c)];
          }
        case Info =>
          if !ok {
            Forget(c);
            replies := replies + [Failed(c)];
          }
      }
    }

    method OnMessage(text: string)
      requires Valid()
      modifies this
      ensures Valid() && Abs() == Happen(old(Abs()), Message(text))
    {
      var parts := Tokens(JavaScript, text);
      if |parts| < 2 {
        return;
      }
      if parts[1] == "FEEDBACK" && |parts| >= 5 {
        var cmdid := ParseInt(parts[2]);
        var rawAction := Join(parts[4..]);
        if cmdid.Num? && cmdid.value in pending {
          replies := replies + [Answered(cmdid.value, parts[0], parts[3], rawAction)];
          Forget(cmdid.value);
        }
      }
    }

    method OnTimeout(c: int)
      requires Valid() && c in timers
      modifies this
      ensures Valid() && Abs() == Happen(old(Abs()), TimesOut(c))
    {
      Forget(c);
      replies := replies + [Failed(c)];
    }
  }

  // ---------- one outcome per command ----------

  function Replies(rs: seq<Reply>, c: int): nat
  {
    if rs == [] then 0 else Replies(rs[..|rs| - 1], c) + if rs[|rs| - 1].cmdid == c then 1 else 0
  }

  lemma {:induction false} OneMoreReply(rs: seq<Reply>, r: Reply, c: int)
    ensures Replies(rs + [r], c) == Replies(rs, c) + if r.cmdid == c then 1 else 0
  {
    assert (rs + [r])[..|rs|] == rs;
  }

  function One(b: bool): nat { if b then 1 else 0 }

  /** The books of one command. A direct one is being sent, or waits, or was answered, and
      exactly one of these; a silent one is never told anything; an info call waits or was
      answered, but its send callback is not tied to either. */
  predicate Fits(kind: Kind, sending: bool, pending: bool, told: nat)
  {
    match kind
    case Direct => One(sending) + One(pending) + told == 1
    case Silent => !pending && told == 0
    case Info => One(pending) + told == 1 || (!sending && !pending && told == 2)
  }

  ghost predicate Balanced(s: State, c: int)
  {
    if 1 <= c <= |s.kinds| then Fits(s.kinds[c - 1], c in s.sending, c in s.pending, Replies(s.replies, c))
    else c !in s.sending && c !in s.pending && Replies(s.replies, c) == 0
  }

  /** What the requesters are told by an event. */
  function NewReplies(s: State, e: Event): seq<Reply>
  {
    match e
    case Request(_) => []
    case Sent(c, ok) =>
      if c in s.sending && 1 <= c <= |s.kinds| && s.kinds[c - 1] != Silent && !ok then [Failed(c)] else []
    case Message(text) =>
      if Answers(s, text) == [] then []
      else
        var f := ParseFeedback(text);
        [Answered(Answers(s, text)[0], f.moduleId, f.target, f.action)]
    case TimesOut(c) => if c in s.timers then [Failed(c)] else []
  }

  lemma RepliesAfter(s: State, e: Event, c: int)
    ensures Happen(s, e).replies == s.replies + NewReplies(s, e)
    ensures Replies(Happen(s, e).replies, c) ==
            Replies(s.replies, c) + One(NewReplies(s, e) != [] && NewReplies(s, e)[0].cmdid == c)
  {
    var rs := NewReplies(s, e);
    if rs == [] { assert s.replies + rs == s.replies; } else { OneMoreReply(s.replies, rs[0], c); }
  }

  /** Of what an event does, this is what concerns command `c`. */
  lemma StepOf(s: State, e: Event, c: int)
    requires s.pending == s.timers
    ensures var s', told := Happen(s, e), NewReplies(s, e) != [] && NewReplies(s, e)[0].cmdid == c;
            match e
            case Request(kind) =>
              && s'.kinds == s.kinds + [kind] && !told
              && (c != |s.kinds| + 1 ==> (c in s'.sending <==> c in s.sending) && (c in s'.pending <==> c in s.pending))
              && (c == |s.kinds| + 1 ==> c in s'.sending && (c in s'.pending <==> kind == Info || c in s.pending))
            case Sent(k, ok) =>
              && s'.kinds == s.kinds
              && (k != c || c !in s.sending || !(1 <= c <= |s.kinds|) ==>
                   !told && (c in s'.sending <==> c in s.sending) && (c in s'.pending <==> c in s.pending))
              && (k == c && c in s.sending && 1 <= c <= |s.kinds| ==>
                   && c !in s'.sending && told == (!ok && s.kinds[c - 1] != Silent)
                   && (c in s'.pending <==>
                      (s.kinds[c - 1] == Direct && ok) || (c in s.pending && !(s.kinds[c - 1] == Info && !ok))))
            case _ =>
              && s'.kinds == s.kinds && s'.sending == s.sending
              && (c in s'.pending <==> c in s.pending && !told) && (told ==> c in s.pending)
  {
  }

  lemma {:induction false} StepBalances(s: State, e: Event, c: int)
    requires Balanced(s, c) && s.pending == s.timers
    ensures Balanced(Happen(s, e), c)
  {
    RepliesAfter(s, e, c);
    StepOf(s, e, c);
  }

  /** In every run, for every id: the books balance, every waiting command has a running
      timer and every timer a waiting command, and all of them have been issued. */
  lemma {:induction false} BooksBalance(es: seq<Event>, c: int)
    ensures var s := Run(START, es);
            Balanced(s, c) && s.pending == s.timers && (c in s.pending ==> 1 <= c <= |s.kinds|)
  {
    if es != [] {
      BooksBalance(es[..|es| - 1], c);
      StepBalances(Run(START, es[..|es| - 1]), es[|es| - 1], c);
    }
  }

  /** Whatever order callbacks, FEEDBACKs (early, late or repeated) and timeouts come in,
      a direct requester is told at most one thing about its command; once the command is
      neither being sent nor waiting it has been told exactly one. */
  lemma {:induction false} OneOutcomePerCommand(es: seq<Event>, c: int)
    ensures var s := Run(START, es);
            && Replies(s.replies, c) <= (if IsInfo(s, c) then 2 else 1)
            && (1 <= c <= |s.kinds| && s.kinds[c - 1] == Direct && c !in s.sending && c !in s.pending ==>
               Replies(s.replies, c) == 1)
  {
    BooksBalance(es, c);
  }

  /** A waiting command, get-door-info included, leaves the map on its first FEEDBACK or
      timeout and never comes back: it has had its answer. */
  lemma {:induction false} FirstAnswerSettles(es: seq<Event>, e: Event, c: int, more: seq<Event>)
    requires c in Run(START, es).pending
    requires e == TimesOut(c) || (e.Message? && Answers(Run(START, es), e.text) == [c])
    ensures c !in Run(START, es + [e]).pending
    ensures c !in Run(Run(START, es + [e]), more).pending
  {
    var s := Run(START, es);
    assert (es + [e])[..|es|] == es;
    BooksBalance(es, c);
    BooksBalance(es + [e], c);
    RepliesAfter(s, e, c);
    StaysSettled(es + [e], c, more);
  }

  lemma {:induction false} RunAppend(s: State, a: seq<Event>, b: seq<Event>)
    ensures Run(s, a + b) == Run(Run(s, a), b)
  {
    if b == [] {
      assert a + b == a;
    } else {
      assert (a + b)[..|a + b| - 1] == a + b[..|b| - 1];
      RunAppend(s, a, b[..|b| - 1]);
    }
  }

  lemma {:induction false} RepliesOnlyGrow(s: State, es: seq<Event>, c: int)
    ensures Replies(Run(s, es).replies, c) >= Replies(s.replies, c)
  {
    if es != [] {
      var t := Run(s, es[..|es| - 1]);
      RepliesOnlyGrow(s, es[..|es| - 1], c);
      NoReplyLost(t, es[|es| - 1], c);
    }
  }

  lemma NoReplyLost(s: State, e: Event, c: int)
    ensures Replies(Happen(s, e).replies, c) >= Replies(s.replies, c)
  {
    RepliesAfter(s, e, c);
  }

  lemma {:induction false} KindsOnlyGrow(s: State, es: seq<Event>)
    ensures s.kinds <= Run(s, es).kinds
  {
    if es != [] { KindsOnlyGrow(s, es[..|es| - 1]); }
  }

  lemma {:induction false} StaysSettled(es: seq<Event>, c: int, more: seq<Event>)
    requires 1 <= c <= |Run(START, es).kinds| && c !in Run(START, es).pending && Replies(Run(START, es).replies, c) >= 1
    ensures c !in Run(Run(START, es), more).pending
  {
    RepliesOnlyGrow(Run(START, es), more, c);
    KindsOnlyGrow(Run(START, es), more);
    RunAppend(START, es, more);
    BooksBalance(es + more, c);
  }

  /** get-door-info is the exception: its callback runs a second time exactly when the
      error of its send comes after it was already answered or timed out. */
  lemma {:induction false} InfoIsToldTwiceExactly(es: seq<Event>, e: Event, c: int)
    requires IsInfo(Run(START, es), c) && Replies(Run(START, es).replies, c) == 1
    ensures Replies(Run(START, es + [e]).replies, c) == 2 <==> e == Sent(c, false) && c in Run(START, es).sending
  {
    var s := Run(START, es);
    RunStep(START, es, e);
    BooksBalance(es, c);
    RepliesAfter(s, e, c);
    TellsInfoExactly(s, e, c);
  }

  lemma TellsInfoExactly(s: State, e: Event, c: int)
    requires IsInfo(s, c) && s.pending == s.timers && c !in s.pending
    ensures NewReplies(s, e) != [] && NewReplies(s, e)[0].cmdid == c <==> e == Sent(c, false) && c in s.sending
  {
  }

  /** It happens from the start, and with no FEEDBACK at all. */
  lemma {:induction false} InfoIsToldTwice()
    ensures Run(START, [Request(Info)] + [TimesOut(1)] + [Sent(1, false)]).replies == [Failed(1), Failed(1)]
  {
    var a, b, d := Request(Info), TimesOut(1), Sent(1, false);
    RunStep(START, [], a);
    assert [] + [a] == [a];
    RunStep(START, [a], b);
    RunStep(START, [a] + [b], d);
  }

  lemma {:induction false} RunStep(s: State, es: seq<Event>, e: Event)
    ensures Run(s, es + [e]) == Happen(Run(s, es), e)
  {
    assert (es + [e])[..|es|] == es;
  }

  // ---------- which outcome ----------

  /** What a requester is told about command `c`, in order. */
  function About(rs: seq<Reply>, c: int): seq<Reply>
  {
    if rs == [] then [] else About(rs[..|rs| - 1], c) + if rs[|rs| - 1].cmdid == c then [rs[|rs| - 1]] else []
  }

  lemma {:induction false} OneMoreAbout(rs: seq<Reply>, r: Reply, c: int)
    ensures About(rs + [r], c) == About(rs, c) + if r.cmdid == c then [r] else []
  {
    assert (rs + [r])[..|rs|] == rs;
  }

  lemma {:induction false} AboutCounts(rs: seq<Reply>, c: int)
    ensures |About(rs, c)| == Replies(rs, c)
  {
    if rs != [] { AboutCounts(rs[..|rs| - 1], c); }
  }

  /** The message is a FEEDBACK that carries this id. */
  predicate Carries(text: string, c: int)
  {
    var f := ParseFeedback(text);
    f.Feedback? && f.cmdid == Num(c)
  }

  /** The first of these events to settle a waiting command: its timer, or a FEEDBACK with
      its id, whose contents it passes on. */
  function FirstWord(es: seq<Event>, c: int): seq<Reply>
    decreases |es|
  {
    if es == [] then []
    else if es[0] == TimesOut(c) then [Failed(c)]
    else if es[0].Message? && Carries(es[0].text, c) then
      var f := ParseFeedback(es[0].text);
      [Answered(c, f.moduleId, f.target, f.action)]
    else FirstWord(es[1..], c)
  }

  lemma {:induction false} AboutAppend(rs: seq<Reply>, said: seq<Reply>, c: int)
    requires |said| <= 1
    ensures About(rs + said, c) == About(rs, c) + About(said, c)
  {
    if said == [] {
      assert rs + said == rs;
    } else {
      assert said == [said[0]];
      OneMoreAbout(rs, said[0], c);
      AboutOne(said[0], c);
    }
  }

  lemma RepliesAppended(s: State, e: Event)
    ensures Happen(s, e).replies == s.replies + NewReplies(s, e) && |NewReplies(s, e)| <= 1
  {
  }

  lemma AboutAfter(s: State, e: Event, c: int)
    ensures About(Happen(s, e).replies, c) == About(s.replies, c) + About(NewReplies(s, e), c)
  {
    RepliesAppended(s, e);
    AboutAppend(s.replies, NewReplies(s, e), c);
  }

  /** A direct command whose send callback has come waits, or has been settled. */
  ghost predicate DirectSent(s: State, c: int, waits: bool)
  {
    && s.pending == s.timers && IsDirect(s, c) && c !in s.sending
    && (c in s.pending <==> waits)
  }

  lemma AboutOne(r: Reply, c: int)
    ensures About([r], c) == if r.cmdid == c then [r] else []
  {
    OneMoreAbout([], r, c);
    assert [] + [r] == [r];
  }

  /** The event tells somebody something about command `c`. */
  predicate Tells(s: State, e: Event, c: int)
  {
    NewReplies(s, e) != [] && NewReplies(s, e)[0].cmdid == c
  }

  lemma NothingAbout(s: State, e: Event, c: int)
    requires !Tells(s, e, c)
    ensures About(Happen(s, e).replies, c) == About(s.replies, c)
  {
    AboutAfter(s, e, c);
    if NewReplies(s, e) != [] { AboutOne(NewReplies(s, e)[0], c); }
  }

  lemma SettledStep(s: State, e: Event, c: int)
    requires DirectSent(s, c, false)
    ensures DirectSent(Happen(s, e), c, false) && !Tells(s, e, c)
  {
    StepOf(s, e, c);
  }

  lemma NoMatch(s: State, text: string, c: int)
    requires !Carries(text, c)
    ensures Answers(s, text) == [] || Answers(s, text)[0] != c
  {
  }

  /** Only its timer or a FEEDBACK with its id moves a waiting command. */
  lemma StillWaiting(s: State, e: Event, c: int)
    requires DirectSent(s, c, true)
    requires e != TimesOut(c) && !(e.Message? && Carries(e.text, c))
    ensures DirectSent(Happen(s, e), c, true) && !Tells(s, e, c)
  {
    match e {
      case Request(kind) =>
      case Sent(k, ok) =>
      case Message(text) => NoMatch(s, text, c);
      case TimesOut(k) =>
    }
  }

  lemma TimerSettles(s: State, c: int)
    requires DirectSent(s, c, true)
    ensures DirectSent(Happen(s, TimesOut(c)), c, false)
    ensures About(Happen(s, TimesOut(c)).replies, c) == About(s.replies, c) + [Failed(c)]
  {
    AboutAfter(s, TimesOut(c), c);
    AboutOne(Failed(c), c);
  }

  lemma FeedbackSettles(s: State, text: string, c: int)
    requires DirectSent(s, c, true) && Carries(text, c)
    ensures DirectSent(Happen(s, Message(text)), c, false)
    ensures var f := ParseFeedback(text);
            About(Happen(s, Message(text)).replies, c) ==
                About(s.replies, c) + [Answered(c, f.moduleId, f.target, f.action)]
  {
    var f := ParseFeedback(text);
    assert Answers(s, text) == [c];
    AboutAfter(s, Message(text), c);
    AboutOne(Answered(c, f.moduleId, f.target, f.action), c);
  }

  lemma {:induction false} RunFromFirst(s: State, es: seq<Event>)
    requires es != []
    ensures Run(s, es) == Run(Happen(s, es[0]), es[1..])
  {
    assert es == [es[0]] + es[1..];
    RunAppend(s, [es[0]], es[1..]);
    RunStep(s, [], es[0]);
    assert [] + [es[0]] == [es[0]];
  }

  lemma {:induction false} SettledRun(s: State, es: seq<Event>, c: int)
    requires DirectSent(s, c, false)
    ensures About(Run(s, es).replies, c) == About(s.replies, c)
    decreases |es|
  {
    if es != [] {
      RunFromFirst(s, es);
      SettledStep(s, es[0], c);
      NothingAbout(s, es[0], c);
      SettledRun(Happen(s, es[0]), es[1..], c);
    }
  }

  lemma {:induction false} WaitingRun(s: State, es: seq<Event>, c: int)
    requires DirectSent(s, c, true)
    ensures About(Run(s, es).replies, c) == About(s.replies, c) + FirstWord(es, c)
    decreases |es|
  {
    if es != [] {
      var e, more := es[0], es[1..];
      RunFromFirst(s, es);
      if e == TimesOut(c) {
        TimerSettles(s, c);
        SettledRun(Happen(s, e), more, c);
      } else if e.Message? && Carries(e.text, c) {
        FeedbackSettles(s, e.text, c);
        SettledRun(Happen(s, e), more, c);
      } else {
        StillWaiting(s, e, c);
        NothingAbout(s, e, c);
        WaitingRun(Happen(s, e), more, c);
      }
    }
  }

  /** What a direct requester is told, and all it is ever told. Before the send callback
      nothing: a FEEDBACK that comes so early is lost. If sending failed, the failure.
      Otherwise the contents of the first FEEDBACK with its id after the callback if that is
      handled before its timer runs out, and a failure if the timer comes first. */
  lemma {:induction false} DirectIsToldExactly(before: seq<Event>, c: int, ok: bool, after: seq<Event>)
    requires c in Run(START, before).sending && IsDirect(Run(START, before), c)
    ensures About(Run(START, before).replies, c) == []
    ensures About(Run(START, before + [Sent(c, ok)] + after).replies, c) ==
            if ok then FirstWord(after, c) else [Failed(c)]
  {
    var s, sent := Run(START, before), Sent(c, ok);
    BooksBalance(before, c);
    AboutCounts(s.replies, c);
    RunAppend(START, before + [sent], after);
    RunStep(START, before, sent);
    StepOf(s, sent, c);
    AboutAfter(s, sent, c);
    if ok {
      WaitingRun(Happen(s, sent), after, c);
    } else {
      AboutOne(Failed(c), c);
      SettledRun(Happen(s, sent), after, c);
    }
  }
}
