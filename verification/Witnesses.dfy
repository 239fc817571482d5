/** The failures are real: runs from a fresh hub, over lines a hub can receive, that end in
    them. Each is a family of runs, for every name and clock reading that fits. */
module Witnesses {
  import opened Text
  import opened Pending
  import opened HubModel
  import HistoryRing
  import opened HubRuns
  import opened SendCommand

  predicate Fits(ws: seq<string>)
  {
    (forall w | w in ws :: IsWord(w)) && |Line(ws)| <= 255
  }

  lemma LineIsRead(ws: seq<string>)
    requires Fits(ws)
    ensures Words(Line(ws)) == ws && Received(Line(ws)) == Line(ws)
  {
    ReceivedLine(ws);
    CTokensOfLine(ws);
  }

  // ---------- ids that do not fit ----------

  lemma FirstHello(m: string, src: Addr, t: int)
    requires Fits([m, "HELLO"]) && |m| > ID_LEN
    ensures var h := Step(InitHub(), Datagram(Line([m, "HELLO"]), src, t));
            && h.due == Nothing
            && h.doors[0].known && h.doors[0].moduleId == m[..ID_LEN]
            && (forall i | 0 < i < MAX_DOORS :: !h.doors[i].known)
            && |h.endpoints| == 1 && h.endpoints[0].moduleId == m[..ID_LEN]
  {
    LineIsRead([m, "HELLO"]);
  }

  lemma SecondHello(d: DoorTable, e: EndpointTable, m: string, src: Addr, t: int)
    requires |m| > ID_LEN && d[0].known && d[0].moduleId == m[..ID_LEN]
    requires forall i | 0 < i < MAX_DOORS :: !d[i].known
    requires |e| == 1 && e[0].moduleId == m[..ID_LEN]
    ensures !DistinctRows(DoorsAfter(d, [m, "HELLO"], src, t))
    ensures !DistinctEndpoints(UpdateEndpoint(e, m, src))
  {
    assert FindDoor(d, m[..ID_LEN]) == 0;
    DuplicateRowsExactly(d, [m, "HELLO"], src, t);
    DuplicateEndpointsExactly(e, m, src);
  }

  lemma TwoSteps(h: Hub, a: Input, b: Input)
    ensures Run(h, [a] + [b]) == Step(Step(h, a), b)
  {
    RunStep(h, [], a);
    assert [] + [a] == [a];
    RunStep(h, [a], b);
  }

  lemma HelloTables(h: Hub, m: string, src: Addr, t: int)
    requires Fits([m, "HELLO"]) && h.due == Nothing && RowFor(h.doors, m) < MAX_DOORS
    ensures var h' := Step(h, Datagram(Line([m, "HELLO"]), src, t));
            h'.doors == DoorsAfter(h.doors, [m, "HELLO"], src, t) && h'.endpoints == UpdateEndpoint(h.endpoints, m, src)
  {
    LineIsRead([m, "HELLO"]);
  }

  /** A module whose id is too long says HELLO twice, and has two rows and two endpoints. */
  lemma {:induction false} LongIdTwice(m: string, src: Addr, t: int, u: int)
    requires Fits([m, "HELLO"]) && |m| > ID_LEN
    ensures var hello := Line([m, "HELLO"]);
            var h := Run(InitHub(), [Datagram(hello, src, t)] + [Datagram(hello, src, u)]);
            !DistinctRows(h.doors) && !DistinctEndpoints(h.endpoints)
  {
    var a, b := Datagram(Line([m, "HELLO"]), src, t), Datagram(Line([m, "HELLO"]), src, u);
    TwoSteps(InitHub(), a, b);
    FirstHello(m, src, t);
    var h := Step(InitHub(), a);
    SecondHello(h.doors, h.endpoints, m, src, u);
    HelloTables(h, m, src, u);
  }

  // ---------- an old answer taken for a new one ----------

  /** The run of one event, and of two more. */
  lemma ExecOne(s: Sys, e: SendCommand.Event)
    ensures Exec(s, [e]) == Next(s, e)
  {
    ExecStep(s, [], e);
    assert [] + [e] == [e];
  }

  lemma ExecPair(s: Sys, es: seq<SendCommand.Event>, a: SendCommand.Event, b: SendCommand.Event)
    ensures Exec(s, es + [a] + [b]) == Next(Next(Exec(s, es), a), b)
  {
    ExecStep(s, es, a);
    ExecStep(s, es + [a], b);
  }

  predicate FitsFields(m: string, target: string, action: string)
  {
    |m| <= ID_LEN && |target| <= 31 && |action| <= 31
  }

  /** The first FEEDBACK a fresh hub hears. */
  lemma FirstFeedback(m: string, n: int, target: string, action: string, src: Addr, t: int)
    requires Fits([m, "FEEDBACK", Dec(n), target, action]) && FitsFields(m, target, action)
    ensures var h := Step(InitHub(), Datagram(Line([m, "FEEDBACK", Dec(n), target, action]), src, t));
            && FindDoor(h.doors, m) == 0 && h.doors[0].hasLastAddr
            && h.doors[0].feedback == Feedback(t, target, action, n)
            && h.nextCmdid == 1 && h.log == [Recorded(0, n, target, action)]
  {
    var ws := [m, "FEEDBACK", Dec(n), target, action];
    LineIsRead(ws);
    NumberRoundTrip(n);
    assert RowFor(InitHub().doors, m) == 0;
    assert "FEEDBACK" != "EVENT" by { assert |"FEEDBACK"| != |"EVENT"|; }
    assert IsRecorded(ws);
  }

  /** A FEEDBACK under any positive id arrives before the command is even issued; the
      call returns true at its first look, and nothing was recorded since it began. */
  lemma {:induction false} StaleSuccess(m: string, n: int, target: string, action: string,
          src: Addr, t: int, timedOut: bool)
    requires n >= 1 && Fits([m, "FEEDBACK", Dec(n), target, action]) && FitsFields(m, target, action)
    ensures var line := Line([m, "FEEDBACK", Dec(n), target, action]);
            var s := Exec(INIT_SYS, [HubDoes(Datagram(line, src, t))] + [Invoke(m, target, action)]
                                    + [Try(0, true, true)] + [Wake(0, timedOut)]);
            |s.calls| == 1 && s.calls[0].phase == Done(true) && !FreshAck(s.hub.log, s.calls[0])
  {
    var e0 := HubDoes(Datagram(Line([m, "FEEDBACK", Dec(n), target, action]), src, t));
    var e1, e2, e3 := Invoke(m, target, action), Try(0, true, true), Wake(0, timedOut);
    ExecOne(INIT_SYS, e0);
    ExecStep(INIT_SYS, [e0], e1);
    ExecPair(INIT_SYS, [e0] + [e1], e2, e3);
    FirstFeedback(m, n, target, action, src, t);
    StaleFromHere(Next(INIT_SYS, e0), m, target, action, timedOut);
  }

  // ---------- a call without an answer ----------

  /** A HELLO is none of the lines with a meaning of their own. */
  lemma HelloIsPlain(m: string)
    ensures var ts := [m, "HELLO"];
            !IsCommand(ts) && !IsAccepted(ts) && !IsRecorded(ts) && EventChange(ts) == None
  {
    assert "HELLO"[0] == 'H' && "EVENT"[0] == 'E' && "COMMAND"[0] == 'C' && "FEEDBACK"[0] == 'F';
  }

  lemma HelloLine(h: Hub, m: string, src: Addr, t: int)
    requires Fits([m, "HELLO"]) && h.due == Nothing && RowFor(h.doors, m) < MAX_DOORS
    ensures var h' := Step(h, Datagram(Line([m, "HELLO"]), src, t));
            && h'.due == Nothing && h'.log == h.log && h'.nextCmdid == h.nextCmdid && h'.pending == h.pending
            && h'.doors == DoorsAfter(h.doors, [m, "HELLO"], src, t)
  {
    LineIsRead([m, "HELLO"]);
    HelloIsPlain(m);
    assert h.log + [] == h.log;
  }

  lemma HelloRow(d: DoorTable, m: string, src: Addr, t: int)
    requires |m| <= ID_LEN && forall i | 0 <= i < MAX_DOORS :: d[i] == FREE_ROW
    ensures var d' := DoorsAfter(d, [m, "HELLO"], src, t);
            && RowFor(d, m) == 0 && FindDoor(d', m) == 0 && d'[0].hasLastAddr && d'[0].lastAddr == src
            && d'[0].feedback == Feedback(0, "", "", 0)
  {
    HelloIsPlain(m);
  }

  /** A hub that has only just heard of this module. */
  predicate Heard(h: Hub, m: string, src: Addr)
  {
    && h.due == Nothing && h.log == [] && h.nextCmdid == 1 && h.pending == InitHub().pending
    && FindDoor(h.doors, m) == 0 && h.doors[0].hasLastAddr && h.doors[0].lastAddr == src
    && h.doors[0].feedback == Feedback(0, "", "", 0)
  }

  /** The first HELLO of a module whose id fits. */
  lemma ShortHello(h: Hub, m: string, src: Addr, t: int)
    requires Fits([m, "HELLO"]) && |m| <= ID_LEN && h == InitHub()
    ensures Heard(Step(h, Datagram(Line([m, "HELLO"]), src, t)), m, src)
  {
    HelloRow(h.doors, m, src, t);
    HelloLine(h, m, src, t);
  }

  /** One attempt of the only call: its command gets out, its wait runs out. */
  lemma TryInVain(s: Sys)
    requires |s.calls| == 1 && s.calls[0].phase == Ready && s.calls[0].row == 0
    requires s.hub.doors[0].feedback.cmdid < s.calls[0].cmdid
    ensures var s', c := Next(Next(s, Try(0, true, true)), Wake(0, true)), s.calls[0];
            && s'.calls == [NextAttempt(c)] && s'.hub.doors == s.hub.doors
            && s'.hub.log == s.hub.log + [Commanded(0, c.cmdid, c.dest, CommandLine(c))]
  {
    var s1 := Next(s, Try(0, true, true));
    assert s1.calls[0] == s.calls[0].(phase := Waiting);
    assert Next(s1, Wake(0, true)).calls[0] == CallAfter(s1, Wake(0, true), 0);
  }

  lemma ThreeInVain(s: Sys)
    requires |s.calls| == 1 && s.calls[0].phase == Ready && s.calls[0].row == 0 && s.calls[0].attempt == 0
    requires s.hub.doors[0].feedback.cmdid < s.calls[0].cmdid
    ensures var tries, wakes, c := Try(0, true, true), Wake(0, true), s.calls[0];
            var sent := Commanded(0, c.cmdid, c.dest, CommandLine(c));
            var s' := Next(Next(Next(Next(Next(Next(s, tries), wakes), tries), wakes), tries), wakes);
            s'.calls == [c.(attempt := 3, phase := Done(false))] && s'.hub.log == s.hub.log + [sent] + [sent] + [sent]
  {
    var tries, wakes := Try(0, true, true), Wake(0, true);
    TryInVain(s);
    var s1 := Next(Next(s, tries), wakes);
    TryInVain(s1);
    TryInVain(Next(Next(s1, tries), wakes));
  }

  lemma InVainSteps(hello: SendCommand.Event, invoke: SendCommand.Event)
    ensures var tries, wakes := Try(0, true, true), Wake(0, true);
            var s := Next(Next(INIT_SYS, hello), invoke);
            Exec(INIT_SYS, [hello] + [invoke] + [tries] + [wakes] + [tries] + [wakes] + [tries] + [wakes]) ==
            Next(Next(Next(Next(Next(Next(s, tries), wakes), tries), wakes), tries), wakes)
  {
    var tries, wakes := Try(0, true, true), Wake(0, true);
    ExecOne(INIT_SYS, hello);
    ExecStep(INIT_SYS, [hello], invoke);
    ExecPair(INIT_SYS, [hello] + [invoke], tries, wakes);
    ExecPair(INIT_SYS, [hello] + [invoke] + [tries] + [wakes], tries, wakes);
    ExecPair(INIT_SYS, [hello] + [invoke] + [tries] + [wakes] + [tries] + [wakes], tries, wakes);
  }

  lemma CallAfterHello(s: Sys, m: string, target: string, action: string, src: Addr)
    requires s.calls == [] && Heard(s.hub, m, src)
    ensures var s' := Next(s, Invoke(m, target, action));
            && s'.calls == [Call(m, target, action, 0, src, 1, 0, 0, Ready)]
            && s'.hub.log == [] && s'.hub.doors == s.hub.doors
  {
    InvokeBegins(s, m, target, action);
  }

  /** A module says HELLO, a command for it gets out three times, no FEEDBACK comes: the
      call returns false, although every send succeeded. */
  lemma {:induction false} SentInVain(m: string, target: string, action: string, src: Addr, t: int)
    requires Fits([m, "HELLO"]) && |m| <= ID_LEN
    ensures var tries, wakes := Try(0, true, true), Wake(0, true);
            var s := Exec(INIT_SYS, [HubDoes(Datagram(Line([m, "HELLO"]), src, t))] + [Invoke(m, target, action)]
                                    + [tries] + [wakes] + [tries] + [wakes] + [tries] + [wakes]);
            |s.calls| == 1 && s.calls[0].phase == Done(false) && |s.hub.log| == 3 && Sent(s.hub.log, 0) == 3
  {
    var hello, invoke := Datagram(Line([m, "HELLO"]), src, t), Invoke(m, target, action);
    InVainSteps(HubDoes(hello), invoke);
    HubMoves(INIT_SYS, hello);
    ShortHello(INIT_SYS.hub, m, src, t);
    var s := Next(INIT_SYS, HubDoes(hello));
    CallAfterHello(s, m, target, action, src);
    ThreeInVain(Next(s, invoke));
    CountThree(Commanded(0, 1, src, CommandLine(Next(s, invoke).calls[0])));
  }

  lemma CountThree(a: Act)
    requires a.Commanded? && a.call == 0
    ensures Sent([] + [a] + [a] + [a], 0) == 3 && |[] + [a] + [a] + [a]| == 3
  {
    SentOfOne([], a, 0);
    SentOfOne([] + [a], a, 0);
    SentOfOne([] + [a] + [a], a, 0);
  }

  // ---------- the newest event missed ----------

  lemma HelloEvent(h: Hub, m: string, src: Addr, t: int)
    requires Fits([m, "HELLO"]) && |m| <= ID_LEN && h.due == Nothing
    ensures var h' := Step(h, Datagram(Line([m, "HELLO"]), src, t));
            && h'.due == Nothing && |h'.history| == |h.history| + 1
            && h'.history == h.history + [h'.history[|h.history|]] && h'.history[|h.history|].moduleId == m
  {
    LineIsRead([m, "HELLO"]);
  }

  /** Two modules say HELLO; a reader who asks for one event is given the older one. */
  lemma {:induction false} NewestIsMissed(m: string, n: string, src: Addr, t: int, u: int)
    requires Fits([m, "HELLO"]) && Fits([n, "HELLO"]) && |m| <= ID_LEN && |n| <= ID_LEN && m != n
    ensures var h := Run(InitHub(), [Datagram(Line([m, "HELLO"]), src, t)] + [Datagram(Line([n, "HELLO"]), src, u)]);
            && |h.history| == 2 && |HistoryRing.Readable(h.history, 1)| == 1
            && h.history[1].moduleId == n && h.history[1] !in HistoryRing.Readable(h.history, 1)
  {
    var a, b := Datagram(Line([m, "HELLO"]), src, t), Datagram(Line([n, "HELLO"]), src, u);
    TwoSteps(InitHub(), a, b);
    HelloEvent(InitHub(), m, src, t);
    HelloEvent(Step(InitHub(), a), n, src, u);
    HistoryRing.NewestExactly(Step(Step(InitHub(), a), b).history, 1);
  }

  // ---------- a relay nobody asked for ----------

  /** The first COMMAND a fresh hub hears, handled to the end. */
  lemma FirstCommand(m: string, n: int, target: string, action: string, client: Addr, t: int)
    requires Fits([m, "COMMAND", Dec(n), target, action]) && FitsFields(m, target, action)
    ensures var h := Step(Step(InitHub(), Datagram(Line([m, "COMMAND", Dec(n), target, action]), client, t)),
                          Release(true));
            && h.due == Nothing && FindDoor(h.doors, m) == 0
            && h.pending[0] == PendingCmd(n, client, m, t)
            && h.log == [Accepted(m, n, client)]
  {
    var ws := [m, "COMMAND", Dec(n), target, action];
    LineIsRead(ws);
    NumberRoundTrip(n);
    assert "COMMAND" != "EVENT" && "COMMAND" != "FEEDBACK" by {
      assert |"COMMAND"| == 7 && |"EVENT"| == 5 && |"FEEDBACK"| == 8;
    }
    assert IsAccepted(ws) && IsCommand(ws);
    var ops := PendingOps(ws, client, t);
    assert ApplyAll(InitHub().pending, ops) == Apply(InitHub().pending, ops[0]) by { assert ops[1..] == []; }
  }

  /** A FEEDBACK that matches the first slot, handled to the end: it is relayed to the
      slot's client, and the slot keeps the module's name and address. */
  lemma MatchingFeedback(h: Hub, m: string, n: int, target: string, action: string, door: Addr, t: int, client: Addr)
    requires Fits([m, "FEEDBACK", Dec(n), target, action]) && FitsFields(m, target, action)
    requires h.due == Nothing && FindDoor(h.doors, m) == 0
    requires Matches(h.pending[0], m, n) && h.pending[0].clientAddr == client
    ensures var ws := [m, "FEEDBACK", Dec(n), target, action];
            var h' := Step(Step(h, Datagram(Line(ws), door, t)), Release(true));
            && h'.due == Nothing && FindDoor(h'.doors, m) == 0
            && Matches(h'.pending[0], m, 0) && h'.pending[0].clientAddr == client
            && h'.log == h.log + [Recorded(0, n, target, action)] + [Relayed(m, n, client, RelayLine(ws))]
  {
    var ws := [m, "FEEDBACK", Dec(n), target, action];
    LineIsRead(ws);
    NumberRoundTrip(n);
    assert "FEEDBACK" != "EVENT" && "FEEDBACK" != "COMMAND" by {
      assert |"FEEDBACK"| == 8 && |"EVENT"| == 5 && |"COMMAND"| == 7;
    }
    assert IsRecorded(ws) && !IsAccepted(ws);
    var ops := PendingOps(ws, door, t);
    assert ApplyAll(h.pending, ops) == Apply(h.pending, ops[0]) by { assert ops[1..] == []; }
  }

  /** Three datagrams, each handled to the end. */
  function Three(a: Input, b: Input, c: Input): seq<Input>
  {
    [a] + [Release(true)] + [b] + [Release(true)] + [c] + [Release(true)]
  }

  function Handle(h: Hub, i: Input): Hub { Step(Step(h, i), Release(true)) }

  lemma RunThree(h: Hub, a: Input, b: Input, c: Input)
    ensures Run(h, Three(a, b, c)) == Handle(Handle(Handle(h, a), b), c)
  {
    var r := Release(true);
    RunStep(h, [], a);
    assert [] + [a] == [a];
    RunStep(h, [a], r);
    RunStep(h, [a] + [r], b);
    RunStep(h, [a] + [r] + [b], r);
    RunStep(h, [a] + [r] + [b] + [r], c);
    RunStep(h, [a] + [r] + [b] + [r] + [c], r);
  }

  /** One command and its answer, and then a FEEDBACK with id 0: it is relayed too, to a
      client that never sent a command 0, so two answers have gone out for one command. */
  lemma {:induction false} ZeroIsRelayed(m: string, n: int, target: string, action: string,
          client: Addr, door: Addr, t: int)
    requires n != 0 && FitsFields(m, target, action)
    requires Fits([m, "COMMAND", Dec(n), target, action])
    requires Fits([m, "FEEDBACK", Dec(n), target, action]) && Fits([m, "FEEDBACK", Dec(0), target, action])
    ensures var answer, zero := [m, "FEEDBACK", Dec(n), target, action], [m, "FEEDBACK", Dec(0), target, action];
            Run(InitHub(), Three(Datagram(Line([m, "COMMAND", Dec(n), target, action]), client, t),
                                 Datagram(Line(answer), door, t), Datagram(Line(zero), door, t))).log ==
            [Accepted(m, n, client)]
            + [Recorded(0, n, target, action)] + [Relayed(m, n, client, RelayLine(answer))]
            + [Recorded(0, 0, target, action)] + [Relayed(m, 0, client, RelayLine(zero))]
  {
    var a := Datagram(Line([m, "COMMAND", Dec(n), target, action]), client, t);
    var b := Datagram(Line([m, "FEEDBACK", Dec(n), target, action]), door, t);
    var c := Datagram(Line([m, "FEEDBACK", Dec(0), target, action]), door, t);
    RunThree(InitHub(), a, b, c);
    FirstCommand(m, n, target, action, client, t);
    var h := Handle(InitHub(), a);
    MatchingFeedback(h, m, n, target, action, door, t, client);
    MatchingFeedback(Handle(h, b), m, 0, target, action, door, t, client);
  }

  // ---------- one id, two commands ----------

  /** A client's COMMAND for a module with a row and a fresh table; it does not get out. */
  lemma CommandStuck(h: Hub, m: string, n: int, target: string, action: string, client: Addr, t: int)
    requires Fits([m, "COMMAND", Dec(n), target, action]) && FitsFields(m, target, action)
    requires h.due == Nothing && FindDoor(h.doors, m) == 0 && h.pending == InitHub().pending
    ensures var h' := Step(Step(h, Datagram(Line([m, "COMMAND", Dec(n), target, action]), client, t)), Release(false));
            && h'.due == Nothing && h'.doors == h.doors && h'.nextCmdid == h.nextCmdid
            && h'.pending[0] == PendingCmd(n, client, m, t)
            && h'.log == h.log + [Accepted(m, n, client)]
  {
    var ws := [m, "COMMAND", Dec(n), target, action];
    LineIsRead(ws);
    NumberRoundTrip(n);
    assert "COMMAND" != "EVENT" && "COMMAND" != "FEEDBACK" by {
      assert |"COMMAND"| == 7 && |"EVENT"| == 5 && |"FEEDBACK"| == 8;
    }
    assert IsAccepted(ws) && IsCommand(ws);
    assert DoorsAfter(h.doors, ws, client, t) == h.doors;
    var ops := PendingOps(ws, client, t);
    assert ApplyAll(h.pending, ops) == Apply(h.pending, ops[0]) by { assert ops[1..] == []; }
  }

  /** A call begins, takes id 1 and sends its command to the module. */
  lemma FirstCall(s: Sys, m: string, target: string, action: string)
    requires s.calls == [] && s.hub.nextCmdid == 1 && FindDoor(s.hub.doors, m) == 0 && s.hub.doors[0].hasLastAddr
    ensures var s' := Next(Next(s, Invoke(m, target, action)), Try(0, true, true));
            && s'.hub.doors == s.hub.doors && s'.hub.pending == s.hub.pending && s'.hub.due == s.hub.due
            && |s'.calls| == 1
            && s'.hub.log == s.hub.log + [Commanded(0, 1, s.hub.doors[0].lastAddr, CommandLine(s'.calls[0]))]
  {
    InvokeAndTry(s, m, target, action);
    var s1 := Next(s, Invoke(m, target, action));
    assert s1.calls == [Begin(s.hub, m, target, action)[0]];
    assert Next(s1, Try(0, true, true)).calls[0] == s1.calls[0].(phase := Waiting);
  }

  /** The events of that run: the module's HELLO; a client's COMMAND 1, which the network
      does not let out; the hub's own command, whose id is 1 too; and its FEEDBACK. */
  function SharedIdRun(m: string, target: string, action: string, client: Addr, door: Addr,
          t: int): seq<SendCommand.Event>
  {
    [HubDoes(Datagram(Line([m, "HELLO"]), door, t))]
    + [HubDoes(Datagram(Line([m, "COMMAND", Dec(1), target, action]), client, t))] + [HubDoes(Release(false))]
    + [Invoke(m, target, action)] + [Try(0, true, true)]
    + [HubDoes(Datagram(Line([m, "FEEDBACK", Dec(1), target, action]), door, t))] + [HubDoes(Release(true))]
  }

  lemma SharedIdSteps(m: string, target: string, action: string, client: Addr, door: Addr, t: int)
    ensures var hello := HubDoes(Datagram(Line([m, "HELLO"]), door, t));
            var command := HubDoes(Datagram(Line([m, "COMMAND", Dec(1), target, action]), client, t));
            var answer := HubDoes(Datagram(Line([m, "FEEDBACK", Dec(1), target, action]), door, t));
            var s := Next(Next(Next(INIT_SYS, hello), command), HubDoes(Release(false)));
            Exec(INIT_SYS, SharedIdRun(m, target, action, client, door, t)) ==
            Next(Next(Next(Next(s, Invoke(m, target, action)), Try(0, true, true)), answer), HubDoes(Release(true)))
  {
    var hello := HubDoes(Datagram(Line([m, "HELLO"]), door, t));
    var command := HubDoes(Datagram(Line([m, "COMMAND", Dec(1), target, action]), client, t));
    var answer := HubDoes(Datagram(Line([m, "FEEDBACK", Dec(1), target, action]), door, t));
    var stuck, sent, invoke, tries := HubDoes(Release(false)), HubDoes(Release(true)),
        Invoke(m, target, action), Try(0, true, true);
    ExecOne(INIT_SYS, hello);
    ExecPair(INIT_SYS, [hello], command, stuck);
    ExecPair(INIT_SYS, [hello] + [command] + [stuck], invoke, tries);
    ExecPair(INIT_SYS, [hello] + [command] + [stuck] + [invoke] + [tries], answer, sent);
  }

  /** The receiver's step of the hub leaves the calls alone. */
  lemma HubMoves(s: Sys, i: Input)
    requires !OfOthers(i)
    ensures Next(s, HubDoes(i)) == Sys(Step(s.hub, i), s.calls)
  {
    assert CallsAfter(s, HubDoes(i)) == s.calls;
  }

  /** From a hub whose client waits under id 1: a call, and the answer to it. */
  lemma CallIsAnsweredToClient(s: Sys, m: string, target: string, action: string, client: Addr, door: Addr, t: int)
    requires FitsFields(m, target, action) && Fits([m, "FEEDBACK", Dec(1), target, action])
    requires Stuck(s, m, client, door, t)
    ensures var answer := HubDoes(Datagram(Line([m, "FEEDBACK", Dec(1), target, action]), door, t));
            var s' := Next(Next(Next(Next(s, Invoke(m, target, action)), Try(0, true, true)), answer),
                           HubDoes(Release(true)));
            && |s'.calls| == 1
            && s'.hub.log == s.hub.log + [Commanded(0, 1, door, CommandLine(s'.calls[0]))]
                             + [Recorded(0, 1, target, action)]
                             + [Relayed(m, 1, client, RelayLine([m, "FEEDBACK", Dec(1), target, action]))]
  {
    FirstCall(s, m, target, action);
    var s1 := Next(Next(s, Invoke(m, target, action)), Try(0, true, true));
    var answer := Datagram(Line([m, "FEEDBACK", Dec(1), target, action]), door, t);
    HubMoves(s1, answer);
    HubMoves(Next(s1, HubDoes(answer)), Release(true));
    MatchingFeedback(s1.hub, m, 1, target, action, door, t, client);
  }

  /** The client is relayed the answer to the hub's own command as the answer to its own,
      which was never forwarded. */
  lemma {:induction false} AnswerToAnother(m: string, target: string, action: string, client: Addr, door: Addr, t: int)
    requires FitsFields(m, target, action) && Fits([m, "HELLO"])
    requires Fits([m, "COMMAND", Dec(1), target, action]) && Fits([m, "FEEDBACK", Dec(1), target, action])
    ensures var s := Exec(INIT_SYS, SharedIdRun(m, target, action, client, door, t));
            && |s.calls| == 1
            && s.hub.log == [Accepted(m, 1, client)] + [Commanded(0, 1, door, CommandLine(s.calls[0]))]
                            + [Recorded(0, 1, target, action)]
                            + [Relayed(m, 1, client, RelayLine([m, "FEEDBACK", Dec(1), target, action]))]
  {
    SharedIdSteps(m, target, action, client, door, t);
    var s := HelloAndStuck(INIT_SYS, m, target, action, client, door, t);
    CallIsAnsweredToClient(s, m, target, action, client, door, t);
  }

  /** What the call meets: the client's command waits, and nothing was forwarded. */
  predicate Stuck(s: Sys, m: string, client: Addr, door: Addr, t: int)
  {
    && s.calls == [] && s.hub.nextCmdid == 1 && s.hub.due == Nothing && s.hub.log == [Accepted(m, 1, client)]
    && FindDoor(s.hub.doors, m) == 0 && s.hub.doors[0].hasLastAddr && s.hub.doors[0].lastAddr == door
    && s.hub.pending[0] == PendingCmd(1, client, m, t)
  }

  lemma GetsStuck(s: Sys, m: string, target: string, action: string, client: Addr, door: Addr, t: int)
    requires s.calls == [] && Heard(s.hub, m, door)
    requires FitsFields(m, target, action) && Fits([m, "COMMAND", Dec(1), target, action])
    ensures var command := Datagram(Line([m, "COMMAND", Dec(1), target, action]), client, t);
            Stuck(Next(Next(s, HubDoes(command)), HubDoes(Release(false))), m, client, door, t)
  {
    var command := Datagram(Line([m, "COMMAND", Dec(1), target, action]), client, t);
    HubMoves(s, command);
    HubMoves(Next(s, HubDoes(command)), Release(false));
    CommandStuck(s.hub, m, 1, target, action, client, t);
  }

  lemma HelloAndStuck(s0: Sys, m: string, target: string, action: string, client: Addr,
          door: Addr, t: int) returns (s: Sys)
    requires s0 == INIT_SYS && FitsFields(m, target, action) && Fits([m, "HELLO"])
    requires Fits([m, "COMMAND", Dec(1), target, action])
    ensures s == Next(Next(Next(s0, HubDoes(Datagram(Line([m, "HELLO"]), door, t))),
                           HubDoes(Datagram(Line([m, "COMMAND", Dec(1), target, action]), client, t))),
                      HubDoes(Release(false)))
    ensures Stuck(s, m, client, door, t)
  {
    var hello := Datagram(Line([m, "HELLO"]), door, t);
    var command := Datagram(Line([m, "COMMAND", Dec(1), target, action]), client, t);
    HubMoves(s0, hello);
    ShortHello(s0.hub, m, door, t);
    var s1 := Next(s0, HubDoes(hello));
    GetsStuck(s1, m, target, action, client, door, t);
    s := Next(Next(s1, HubDoes(command)), HubDoes(Release(false)));
  }
}
