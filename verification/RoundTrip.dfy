/** One command all the way round: printed by the bridge, registered and forwarded by the
    hub, acted on and answered by the door, relayed by the hub, and read by the bridge. */
module RoundTrip {
  import opened Text
  import opened Pending
  import opened HubModel
  import opened HubRuns
  import Bridge
  import Door = DoorReporter
  import Lock = LockController
  import DoorHub
  import DoorModule
  import SendCommand

  lemma PlainCommand()
    ensures IsWord("COMMAND") && IsWord("FEEDBACK")
  {
    assert IsPlain("COMMAND") && IsPlain("FEEDBACK");
    PlainIsWord("COMMAND");
    PlainIsWord("FEEDBACK");
  }

  predicate IsRequest(m: string, target: string, action: string)
  {
    DoorHub.IsId(m) && IsWord(target) && IsWord(action)
  }

  function CommandWords(m: string, c: int, target: string, action: string): seq<string>
  {
    [m, "COMMAND", Dec(c), target, action]
  }

  function FeedbackWords(m: string, c: int, target: string, action: string): seq<string>
  {
    [m, "FEEDBACK", Dec(c), target, action]
  }

  lemma AllWords(m: string, c: int, target: string, action: string)
    requires IsRequest(m, target, action)
    ensures forall w | w in CommandWords(m, c, target, action) :: IsWord(w)
    ensures forall w | w in FeedbackWords(m, c, target, action) :: IsWord(w)
  {
    PlainCommand();
    DecIsWord(c);
  }

  /** A COMMAND is read by hub and door as what the bridge meant. */
  lemma CommandIsRead(m: string, c: int, target: string, action: string)
    requires IsRequest(m, target, action) && |Bridge.CommandText(m, c, target, action)| <= 255
    ensures var text := Bridge.CommandText(m, c, target, action);
            && Received(text) == text && Words(text) == CommandWords(m, c, target, action)
            && Door.ParseCommand(m, text) == Door.Command(c, target, action)
  {
    AllWords(m, c, target, action);
    ReceivedLine(CommandWords(m, c, target, action));
    CTokensOfLine(CommandWords(m, c, target, action));
    NumberRoundTrip(c);
  }

  /** A FEEDBACK line means the same to the hub that relays it and to the bridge. */
  lemma FeedbackIsRead(m: string, c: int, target: string, action: string)
    requires IsRequest(m, target, action) && |Line(FeedbackWords(m, c, target, action))| <= 255
    ensures var text := Door.FeedbackLine(m, c, target, action);
            && text == Line(FeedbackWords(m, c, target, action))
            && Words(text) == FeedbackWords(m, c, target, action)
            && RelayLine(FeedbackWords(m, c, target, action)) == text
            && Bridge.ParseFeedback(text) == Bridge.Feedback(m, Num(c), target, action)
  {
    var ws := FeedbackWords(m, c, target, action);
    AllWords(m, c, target, action);
    ReceivedLine(ws);
    CTokensOfLine(ws);
    TokensOfLine(JavaScript, ws);
    NumberRoundTrip(c);
    assert ws[4..] == [action];
  }

  /** What the door answers fits on one word if the action did. */
  lemma AnswerIsWord(lock: Lock.Lock, action: string, env: Lock.Env)
    requires IsWord(action)
    ensures IsWord(Lock.Answer(lock, action, env))
  {
    if action == "STATUS" {
      var s := Lock.StateText(Lock.DoorStatus(lock, Lock.UNKNOWN, env).state);
      assert IsPlain("STATUS_") && IsPlain(s);
      PlainIsWord("STATUS_" + s);
    }
  }

  // ---------- the hub in between ----------

  /** The only slot that answers to (m, c) is `k`. */
  predicate OnlyAt(p: PendingTable, k: nat, m: string, c: int)
  {
    forall i | 0 <= i < MAX_PENDING && i != k :: !Matches(p[i], m, c)
  }

  /** No operation registers (m, c) again. */
  predicate NotAgain(ops: seq<Op>, m: string, c: int)
  {
    forall op | op in ops && op.Reg? :: !(op.cmdid == c && Trunc(op.moduleId, ID_LEN) == m)
  }

  lemma {:induction false} StaysOnly(p: PendingTable, k: nat, ops: seq<Op>, m: string, c: int)
    requires c != 0 && OnlyAt(p, k, m, c) && NotAgain(ops, m, c)
    ensures OnlyAt(ApplyAll(p, ops), k, m, c)
    decreases |ops|
  {
    if ops != [] {
      assert ops[0] in ops;
      StaysOnly(Apply(p, ops[0]), k, ops[1..], m, c);
    }
  }

  lemma {:induction false} RowStays(h: Hub, inputs: seq<Input>, m: string)
    requires FindDoor(h.doors, m) < MAX_DOORS
    ensures FindDoor(Run(h, inputs).doors, m) < MAX_DOORS
  {
    if inputs != [] {
      var g := Run(h, inputs[..|inputs| - 1]);
      RowStays(h, inputs[..|inputs| - 1], m);
      KnownRowsStay(g, inputs[|inputs| - 1]);
      assert IsRowOf(Step(g, inputs[|inputs| - 1]).doors[FindDoor(g.doors, m)], m);
    }
  }

  /** A request: module, id, target and action, asked by the bridge at `client`, received
      by the hub at time `t`. */
  datatype Trip = Trip(m: string, c: int, target: string, action: string, client: Addr, t: int)

  function Payload(trip: Trip): string { Bridge.CommandText(trip.m, trip.c, trip.target, trip.action) }

  function Entry(trip: Trip): PendingCmd { PendingCmd(trip.c, trip.client, trip.m, trip.t) }

  /** The tokens are words, the id is not the free-slot mark, and the line fits a buffer. */
  predicate Sendable(trip: Trip)
  {
    IsRequest(trip.m, trip.target, trip.action) && trip.c != 0 && |Payload(trip)| <= 255
  }

  /** The hub can register the command: its module's row exists or can be made, and
      (module, id) is not waiting already. */
  predicate CanRegister(h: Hub, trip: Trip)
  {
    && h.due == Nothing && RowFor(h.doors, trip.m) < MAX_DOORS
    && forall i | 0 <= i < MAX_PENDING :: h.pending[i].issuedMs < trip.t && !Matches(h.pending[i], trip.m, trip.c)
  }

  /** The hub knows where to send what is meant for the module. */
  predicate KnowsDoor(h: Hub, m: string)
  {
    FindEndpoint(h.endpoints, m) < |h.endpoints| && h.endpoints[FindEndpoint(h.endpoints, m)].hasAddr
  }

  predicate CanTake(h: Hub, trip: Trip) { CanRegister(h, trip) && KnowsDoor(h, trip.m) }

  function DoorAddress(h: Hub, trip: Trip): Addr
    requires KnowsDoor(h, trip.m)
  {
    h.endpoints[FindEndpoint(h.endpoints, trip.m)].addr
  }

  /** The hub after it has taken in the COMMAND and tried to send it on. */
  function Taken(h: Hub, trip: Trip, netOk: bool): Hub
  {
    Finish(Step(h, Datagram(Payload(trip), trip.client, trip.t)), netOk)
  }

  function Forwarding(h: Hub, trip: Trip): Hub { Taken(h, trip, true) }

  /** Until the answer: at most 127 more commands, none of them this pair, no FEEDBACK for
      it, and a clock that does not run backwards. */
  predicate Undisturbed(g: Hub, between: seq<Input>, trip: Trip)
  {
    var ops := OpsOf(g, between);
    && NotBefore(ops, trip.t) && Registrations(ops) <= 127 && NotAgain(ops, trip.m, trip.c)
    && LeavesAlone(ops, Entry(trip)) && Run(g, between).due == Nothing
  }

  /** The command is registered in any case; it is forwarded exactly if the network lets it
      out and the module's endpoint is known. */
  lemma CommandIsTaken(h: Hub, trip: Trip, netOk: bool)
    requires Sendable(trip) && CanRegister(h, trip)
    ensures var g := Taken(h, trip, netOk);
            && g.due == Nothing && FindDoor(g.doors, trip.m) < MAX_DOORS
            && g.pending == Register(h.pending, trip.c, trip.m, trip.client, trip.t)
            && g.log == h.log + [Accepted(trip.m, trip.c, trip.client)]
                      + if netOk && KnowsDoor(h, trip.m) then [Forwarded(DoorAddress(h, trip), Payload(trip))] else []
  {
    CommandIsRead(trip.m, trip.c, trip.target, trip.action);
    NumberRoundTrip(trip.c);
    TakenIn(h, trip, CommandWords(trip.m, trip.c, trip.target, trip.action));
  }

  lemma TakenIn(h: Hub, trip: Trip, ts: seq<string>)
    requires CanRegister(h, trip) && |trip.m| <= ID_LEN
    requires |ts| == 5 && ts[0] == trip.m && ts[1] == "COMMAND" && Atoi(ts[2]) == trip.c
    ensures var h' := HandleTokens(h, ts, Payload(trip), trip.client, trip.t);
            && h'.due == ForwardDue(trip.m, Payload(trip)) && FindDoor(h'.doors, trip.m) < MAX_DOORS
            && h'.endpoints == h.endpoints
            && h'.pending == Register(h.pending, trip.c, trip.m, trip.client, trip.t)
            && h'.log == h.log + [Accepted(trip.m, trip.c, trip.client)]
  {
    TypesApart();
    var ops := PendingOps(ts, trip.client, trip.t);
    assert ApplyAll(h.pending, ops) == Apply(h.pending, ops[0]) by { assert ops[1..] == []; }
    assert IsRowOf(DoorsAfter(h.doors, ts, trip.client, trip.t)[RowFor(h.doors, trip.m)], trip.m);
  }

  lemma TypesApart()
    ensures "FEEDBACK" != "COMMAND" && "FEEDBACK" != "EVENT" && "COMMAND" != "EVENT"
  {
  }

  /** The hub forwards the bridge's text unchanged to the module's address, and the door
      reads from it what the bridge was asked. */
  lemma {:induction false} CommandReachesDoor(h: Hub, trip: Trip)
    requires Sendable(trip) && CanTake(h, trip)
    ensures Forwarded(DoorAddress(h, trip), Payload(trip)) in Forwarding(h, trip).log
    ensures Door.ParseCommand(trip.m, Payload(trip)) == Door.Command(trip.c, trip.target, trip.action)
  {
    CommandIsTaken(h, trip, true);
    CommandIsRead(trip.m, trip.c, trip.target, trip.action);
  }

  /** While it is undisturbed, the command keeps its slot and stays the only one of its
      kind, forwarded or not. */
  lemma {:induction false} CommandKeepsWaiting(h: Hub, trip: Trip, netOk: bool, between: seq<Input>)
    requires Sendable(trip) && CanRegister(h, trip) && Undisturbed(Taken(h, trip, netOk), between, trip)
    ensures var g', k := Run(Taken(h, trip, netOk), between), SlotFor(h.pending);
            && g'.pending[k] == Entry(trip) && OnlyAt(g'.pending, k, trip.m, trip.c)
            && FindDoor(g'.doors, trip.m) < MAX_DOORS
  {
    CommandIsTaken(h, trip, netOk);
    var g, k := Taken(h, trip, netOk), SlotFor(h.pending);
    var ops := OpsOf(g, between);
    RunAppliesOps(g, between);
    SurvivesNext127(h.pending, Entry(trip), ops);
    assert OnlyAt(g.pending, k, trip.m, trip.c);
    StaysOnly(g.pending, k, ops, trip.m, trip.c);
    RowStays(g, between, trip.m);
  }

  lemma Relays(h: Hub, k: nat, trip: Trip, ts: seq<string>, text: string, src: Addr, t: int)
    requires h.due == Nothing && FindDoor(h.doors, trip.m) < MAX_DOORS
    requires k < MAX_PENDING && h.pending[k] == Entry(trip) && OnlyAt(h.pending, k, trip.m, trip.c)
    requires |ts| == 5 && ts[0] == trip.m && ts[1] == "FEEDBACK" && Atoi(ts[2]) == trip.c
    ensures HandleTokens(h, ts, text, src, t).due == RelayDue(trip.client, trip.m, trip.c, RelayLine(ts))
  {
    TypesApart();
    assert FindMatch(h.pending, trip.m, trip.c) == k;
  }

  lemma RelayGoesOut(h: Hub, k: nat, trip: Trip, ts: seq<string>, text: string, src: Addr, t: int)
    requires h.due == Nothing && FindDoor(h.doors, trip.m) < MAX_DOORS
    requires k < MAX_PENDING && h.pending[k] == Entry(trip) && OnlyAt(h.pending, k, trip.m, trip.c)
    requires |ts| == 5 && ts[0] == trip.m && ts[1] == "FEEDBACK" && Atoi(ts[2]) == trip.c
    ensures Relayed(trip.m, trip.c, trip.client, RelayLine(ts)) in Finish(HandleTokens(h, ts, text, src, t), true).log
  {
    Relays(h, k, trip, ts, text, src, t);
  }

  /** A FEEDBACK with the command's id goes to the client that sent it, whoever it was
      meant to answer and whatever target and action it names. */
  lemma FeedbackIsRelayed(g: Hub, k: nat, trip: Trip, target: string, answer: string, src: Addr, t: int)
    requires IsRequest(trip.m, target, answer) && |Line(FeedbackWords(trip.m, trip.c, target, answer))| <= 255
    requires g.due == Nothing && FindDoor(g.doors, trip.m) < MAX_DOORS
    requires k < MAX_PENDING && g.pending[k] == Entry(trip) && OnlyAt(g.pending, k, trip.m, trip.c)
    ensures var text := Door.FeedbackLine(trip.m, trip.c, target, answer);
            Relayed(trip.m, trip.c, trip.client, text) in Finish(Step(g, Datagram(text, src, t)), true).log
  {
    FeedbackIsRead(trip.m, trip.c, target, answer);
    NumberRoundTrip(trip.c);
    var ts := FeedbackWords(trip.m, trip.c, target, answer);
    RelayGoesOut(g, k, trip, ts, Received(Door.FeedbackLine(trip.m, trip.c, target, answer)), src, t);
  }

  /** The hub does not remember whether it forwarded a command. If this one waits
      undisturbed until a FEEDBACK with its id is handled, that is relayed as its answer; and
      what the hub sent for it before was nothing, exactly if the network failed or the
      module's endpoint was unknown. The FEEDBACK then answers another command, one of the
      hub's own that has the same id. */
  lemma {:induction false} AnsweredUnforwardedExactly(h: Hub, trip: Trip, netOk: bool, between: seq<Input>,
                                                      target: string, answer: string, src: Addr, t: int)
    requires Sendable(trip) && CanRegister(h, trip) && Undisturbed(Taken(h, trip, netOk), between, trip)
    requires IsRequest(trip.m, target, answer) && |Line(FeedbackWords(trip.m, trip.c, target, answer))| <= 255
    ensures var text := Door.FeedbackLine(trip.m, trip.c, target, answer);
            var g := Taken(h, trip, netOk);
            && h.log <= g.log
            && ((forall a | a in g.log[|h.log|..] :: !a.Forwarded?) <==> !(netOk && KnowsDoor(h, trip.m)))
            && Relayed(trip.m, trip.c, trip.client, text) in
               Finish(Step(Run(g, between), Datagram(text, src, t)), true).log
  {
    var g := Taken(h, trip, netOk);
    CommandIsTaken(h, trip, netOk);
    OnlyThese(h, trip, netOk);
    CommandKeepsWaiting(h, trip, netOk, between);
    FeedbackIsRelayed(Run(g, between), SlotFor(h.pending), trip, target, answer, src, t);
  }

  lemma OnlyThese(h: Hub, trip: Trip, netOk: bool)
    requires Sendable(trip) && CanRegister(h, trip)
    ensures var g := Taken(h, trip, netOk);
            && h.log <= g.log
            && ((forall a | a in g.log[|h.log|..] :: !a.Forwarded?) <==> !(netOk && KnowsDoor(h, trip.m)))
  {
    CommandIsTaken(h, trip, netOk);
    NewActs(h.log, Accepted(trip.m, trip.c, trip.client),
            if netOk && KnowsDoor(h, trip.m) then [Forwarded(DoorAddress(h, trip), Payload(trip))] else []);
  }

  lemma NewActs(log: seq<Act>, accepted: Act, sent: seq<Act>)
    requires !accepted.Forwarded? && |sent| <= 1 && (forall a | a in sent :: a.Forwarded?)
    ensures var acts := (log + [accepted] + sent)[|log|..];
            (forall a | a in acts :: !a.Forwarded?) <==> sent == []
  {
    var acts := (log + [accepted] + sent)[|log|..];
    assert acts == [accepted] + sent;
    if sent != [] { assert sent[0] in sent && sent[0] in acts; }
  }

  lemma BridgeHears(trip: Trip, answer: string, s: Bridge.State)
    requires IsRequest(trip.m, trip.target, answer) && |Line(FeedbackWords(trip.m, trip.c, trip.target, answer))| <= 255
    requires trip.c in s.pending
    ensures var text := Door.FeedbackLine(trip.m, trip.c, trip.target, answer);
            Bridge.Happen(s, Bridge.Message(text)).replies ==
                s.replies + [Bridge.Answered(trip.c, trip.m, trip.target, answer)]
  {
    FeedbackIsRead(trip.m, trip.c, trip.target, answer);
  }

  /** The answer goes back to the bridge that asked, as the door wrote it; the bridge reads
      the same module, id and target and exactly the door's action text, and tells its
      waiting requester so. */
  lemma {:induction false} AnswerComesBack(g: Hub, k: nat, trip: Trip, answer: string,
                                            src: Addr, t: int, s: Bridge.State)
    requires IsRequest(trip.m, trip.target, answer) && |Line(FeedbackWords(trip.m, trip.c, trip.target, answer))| <= 255
    requires g.due == Nothing && FindDoor(g.doors, trip.m) < MAX_DOORS
    requires k < MAX_PENDING && g.pending[k] == Entry(trip) && OnlyAt(g.pending, k, trip.m, trip.c)
    requires trip.c in s.pending
    ensures var text := Door.FeedbackLine(trip.m, trip.c, trip.target, answer);
            && Relayed(trip.m, trip.c, trip.client, text) in Finish(Step(g, Datagram(text, src, t)), true).log
            && Bridge.Happen(s, Bridge.Message(text)).replies ==
               s.replies + [Bridge.Answered(trip.c, trip.m, trip.target, answer)]
  {
    FeedbackIsRelayed(g, k, trip, trip.target, answer, src, t);
    BridgeHears(trip, answer, s);
  }

  /** The door this trip is for, with its socket open. */
  predicate IsTheDoor(door: Door.Door, trip: Trip) { door.socketOpen && door.moduleId == trip.m }

  /** What that door sends for the forwarded text ends with its FEEDBACK. */
  lemma DoorAnswers(door: Door.Door, lock: Lock.Lock, trip: Trip, env: Lock.Env, now: int)
    requires Sendable(trip) && IsTheDoor(door, trip)
    ensures var lines := DoorModule.Response(door, lock, Payload(trip), env, now);
            && lines != []
            && lines[|lines| - 1] == Door.FeedbackLine(trip.m, trip.c, trip.target, Lock.Answer(lock, trip.action, env))
  {
    CommandIsRead(trip.m, trip.c, trip.target, trip.action);
  }

  /** The whole way: whatever the door's lock decides to answer, once the hub could take
      the command and was undisturbed until the door's FEEDBACK, the last line it sends for
      the command, arrived. */
  lemma {:induction false} CommandRoundTrip(h: Hub, trip: Trip, between: seq<Input>, door: Door.Door, lock: Lock.Lock,
                                            env: Lock.Env, now: int, src: Addr, t: int, s: Bridge.State)
    requires Sendable(trip) && CanTake(h, trip) && Undisturbed(Forwarding(h, trip), between, trip)
    requires IsTheDoor(door, trip)
    requires |Line(FeedbackWords(trip.m, trip.c, trip.target, Lock.Answer(lock, trip.action, env)))| <= 255
    requires trip.c in s.pending
    ensures Forwarded(DoorAddress(h, trip), Payload(trip)) in Forwarding(h, trip).log
    ensures var lines := DoorModule.Response(door, lock, Payload(trip), env, now);
            && lines != []
            && var back := lines[|lines| - 1];
            && Relayed(trip.m, trip.c, trip.client, back) in
               Finish(Step(Run(Forwarding(h, trip), between), Datagram(back, src, t)), true).log
            && Bridge.Happen(s, Bridge.Message(back)).replies ==
               s.replies + [Bridge.Answered(trip.c, trip.m, trip.target, Lock.Answer(lock, trip.action, env))]
  {
    CommandReachesDoor(h, trip);
    CommandKeepsWaiting(h, trip, true, between);
    AnswerIsWord(lock, trip.action, env);
    DoorAnswers(door, lock, trip, env, now);
    AnswerComesBack(Run(Forwarding(h, trip), between), SlotFor(h.pending), trip, Lock.Answer(lock, trip.action, env),
                    src, t, s);
  }

  // ---------- the hub's own commands ----------

  /** The command of a call consists of words and fits a line. */
  predicate Callable(c: SendCommand.Call)
  {
    IsRequest(c.moduleId, c.target, c.action) && |Line(CommandWords(c.moduleId, c.cmdid, c.target, c.action))| <= 255
  }

  /** The line a call sends, read back: module, COMMAND, its id, target and action, in this
      order; and the module takes it as just that request. */
  lemma {:induction false} CallIsRead(c: SendCommand.Call)
    requires Callable(c)
    ensures var ws := Words(SendCommand.CommandLine(c));
            && |ws| == 5 && ws[0] == c.moduleId && ws[1] == "COMMAND" && Atoi(ws[2]) == c.cmdid
            && ws[3] == c.target && ws[4] == c.action
    ensures Door.ParseCommand(c.moduleId, SendCommand.CommandLine(c)) == Door.Command(c.cmdid, c.target, c.action)
  {
    AllWords(c.moduleId, c.cmdid, c.target, c.action);
    ReceivedLine(CommandWords(c.moduleId, c.cmdid, c.target, c.action));
    CTokensOfLine(CommandWords(c.moduleId, c.cmdid, c.target, c.action));
    NumberRoundTrip(c.cmdid);
  }

  /** What the hub remembers of a FEEDBACK line of a module that has a row. */
  lemma FeedbackIsKept(h: Hub, m: string, n: int, target: string, answer: string, src: Addr, t: int)
    requires IsRequest(m, target, answer) && |Line(FeedbackWords(m, n, target, answer))| <= 255
    requires |target| <= 31 && |answer| <= 31 && h.due == Nothing && FindDoor(h.doors, m) < MAX_DOORS
    ensures Step(h, Datagram(Door.FeedbackLine(m, n, target, answer), src, t)).doors[FindDoor(h.doors, m)].feedback ==
            Feedback(t, target, answer, n)
  {
    FeedbackIsRead(m, n, target, answer);
    NumberRoundTrip(n);
    TypesApart();
    KeptByRow(h.doors, FeedbackWords(m, n, target, answer), src, t);
  }

  lemma KeptByRow(d: DoorTable, ts: seq<string>, src: Addr, t: int)
    requires |ts| == 5 && ts[1] == "FEEDBACK" && FindDoor(d, ts[0]) < MAX_DOORS
    ensures DoorsAfter(d, ts, src, t)[FindDoor(d, ts[0])].feedback == FeedbackOf(ts, t)
  {
    assert |"FEEDBACK"| == 8 && |"COMMAND"| == 7 && |"EVENT"| == 5 && |"HEARTBEAT"| == 9;
  }

  /** A call all the way round: its line reaches the module, the module's FEEDBACK, the last
      line it sends for it, reaches the hub; and what the row then carries satisfies the
      call exactly if the module answers with the action it was asked for. */
  lemma {:induction false} CallRoundTrip(h: Hub, c: SendCommand.Call, door: Door.Door, lock: Lock.Lock, env: Lock.Env,
                                         now: int, src: Addr, t: int)
    requires Callable(c) && |c.target| <= 31 && |c.action| <= 31
    requires door.socketOpen && door.moduleId == c.moduleId
    requires h.due == Nothing && FindDoor(h.doors, c.moduleId) == c.row < MAX_DOORS
    requires |Line(FeedbackWords(c.moduleId, c.cmdid, c.target, Lock.Answer(lock, c.action, env)))| <= 255
    ensures var lines := DoorModule.Response(door, lock, SendCommand.CommandLine(c), env, now);
            && lines != []
            && var h' := Step(h, Datagram(lines[|lines| - 1], src, t));
            SendCommand.Accepts(c, h'.doors[c.row].feedback) <==> Lock.Answer(lock, c.action, env) == c.action
  {
    CallIsRead(c);
    AnswerIsWord(lock, c.action, env);
    AnswerIsShort(lock, c.action, env);
    FeedbackIsKept(h, c.moduleId, c.cmdid, c.target, Lock.Answer(lock, c.action, env), src, t);
  }

  lemma AnswerIsShort(lock: Lock.Lock, action: string, env: Lock.Env)
    requires |action| <= 31
    ensures |Lock.Answer(lock, action, env)| <= 31
  {
    assert |"STATUS_"| == 7;
  }

  /** So LOCK and UNLOCK are acknowledged whenever they are answered, and a STATUS sent by
      the hub never is: the door answers it with the state. */
  lemma {:induction false} StatusIsNeverAcknowledged(lock: Lock.Lock, action: string, env: Lock.Env)
    ensures Lock.Answer(lock, action, env) == action <==> action != "STATUS"
  {
    assert |"STATUS"| == 6 && |"STATUS_"| == 7;
  }

  lemma NoTargetText(m: string, n: string, action: string)
    ensures Line([m, "COMMAND", n, "", action]) == Join([m, "COMMAND", n]) + ([' '] + ([' '] + (action + ['\n'])))
  {
    JoinTail("", [action]);
    JoinTail(n, ["", action]);
    JoinTail("COMMAND", [n, "", action]);
    JoinTail(m, ["COMMAND", n, "", action]);
    JoinTail("COMMAND", [n]);
    JoinTail(m, ["COMMAND", n]);
  }

  lemma JoinTail(w: string, ws: seq<string>)
    requires ws != []
    ensures Join([w] + ws) == w + " " + Join(ws) && ([w] + ws)[1..] == ws
  {
  }

  /** A call with an empty target, as the HTTP interface makes it when none is given, prints
      two blanks in a row: the module finds a word too few and ignores it. */
  lemma {:induction false} NoTargetIsIgnored(c: SendCommand.Call)
    requires c.target == "" && IsRequest(c.moduleId, "D0", c.action)
    requires |Line([c.moduleId, "COMMAND", Dec(c.cmdid), "", c.action])| <= 255
    ensures Door.ParseCommand(c.moduleId, SendCommand.CommandLine(c)) == Door.Ignored
  {
    var m, n, a := c.moduleId, Dec(c.cmdid), c.action;
    var head, text := Join([m, "COMMAND", n]), SendCommand.CommandLine(c);
    NoTargetText(m, n, a);
    AllWords(m, c.cmdid, "D0", a);
    assert forall w | w in [m, "COMMAND", n] :: w in CommandWords(m, c.cmdid, "D0", a);
    assert a in CommandWords(m, c.cmdid, "D0", a);
    NoTargetWords(m, n, a);
    NoNulIn(m, n, a);
    assert Received(text) == text;
  }

  lemma NoTargetWords(m: string, n: string, a: string)
    requires forall w | w in [m, "COMMAND", n, a] :: IsWord(w)
    ensures Tokens(CLib, Line([m, "COMMAND", n, "", a])) == [m, "COMMAND", n, a]
  {
    var ws := [m, "COMMAND", n];
    NoTargetText(m, n, a);
    forall w | w in [m, "COMMAND", n, a] ensures IsToken(CLib, w) { WordIsCToken(w); }
    assert forall w | w in ws :: w in [m, "COMMAND", n, a];
    TokensOfJoin(CLib, ws);
    SplitsAtBlank(CLib, Join(ws), ' ', [' '] + (a + ['\n']));
    SplitsAtBlank(CLib, "", ' ', a + ['\n']);
    assert "" + ([' '] + (a + ['\n'])) == [' '] + (a + ['\n']);
    TokensOfLine(CLib, [a]);
    assert Line([a]) == a + ['\n'];
  }

  lemma NoNulIn(m: string, n: string, a: string)
    requires forall w | w in [m, "COMMAND", n, a] :: IsWord(w)
    ensures '\0' !in Line([m, "COMMAND", n, "", a])
  {
    NoTargetText(m, n, a);
    assert forall w | w in [m, "COMMAND", n] :: w in [m, "COMMAND", n, a];
    JoinHasNoNul([m, "COMMAND", n]);
    assert IsWord(a);
  }
}
