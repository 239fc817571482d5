/** hub_udp_send_command: calls from other threads, each sending its command up to three
    times and waiting for a FEEDBACK, interleaved in any way with the hub's own steps. */
module SendCommand {
  import opened Text
  import opened Pending
  import opened HubModel
  import opened HubRuns

  const ACK_RETRIES := 2

  datatype Phase = Ready | Waiting | Done(ok: bool)

  /** `issuedAt` marks the moment the call took its id: the length of the hub's log. */
  datatype Call = Call(moduleId: string, target: string, action: string,
                       row: nat, dest: Addr, cmdid: int, issuedAt: nat, attempt: nat, phase: Phase)

  // ---------- one call ----------

  datatype CallInput = Socket(socketOk: bool, sendOk: bool)      // one try at sending
                     | Look(timedOut: bool, seen: Feedback)      // the row's feedback, under the mutex

  function CommandLine(c: Call): string
  {
    Trunc(Line([c.moduleId, "COMMAND", Dec(c.cmdid), c.target, c.action]), 255)
  }

  /** The feedback satisfies the call: same target and action, for this or a later id. */
  predicate Accepts(c: Call, fb: Feedback)
  {
    fb.cmdid >= c.cmdid && fb.target == c.target && fb.action == c.action
  }

  function NextAttempt(c: Call): Call
  {
    c.(attempt := c.attempt + 1, phase := if c.attempt < ACK_RETRIES then Ready else Done(false))
  }

  function CallStep(c: Call, i: CallInput): Call
  {
    match (c.phase, i)
    case (Ready, Socket(socketOk, sendOk)) => if socketOk && sendOk then c.(phase := Waiting) else NextAttempt(c)
    case (Waiting, Look(timedOut, seen)) =>
      if seen.cmdid < c.cmdid && !timedOut then c
      else if Accepts(c, seen) then c.(phase := Done(true))
      else NextAttempt(c)
    case _ => c
  }

  function RunCall(c: Call, script: seq<CallInput>): Call
  {
    if script == [] then c else CallStep(RunCall(c, script[..|script| - 1]), script[|script| - 1])
  }

  /** Steps a call can still take before it is over. */
  function Fuel(c: Call): int
  {
    match c.phase
    case Done(_) => 0
    case Ready => 2 * (ACK_RETRIES + 1 - c.attempt)
    case Waiting => 2 * (ACK_RETRIES + 1 - c.attempt) - 1
  }

  predicate CallValid(c: Call)
  {
    c.attempt <= ACK_RETRIES || (c.attempt == ACK_RETRIES + 1 && c.phase == Done(false))
  }

  lemma {:induction false} StepBurnsFuel(c: Call, i: CallInput)
    requires CallValid(c)
    ensures var c' := CallStep(c, i);
            && CallValid(c') && c' == c.(attempt := c'.attempt, phase := c'.phase)
            && (c' != c ==> 0 <= Fuel(c') < Fuel(c))
    ensures 0 <= Fuel(c) && (Fuel(c) == 0 <==> c.phase.Done?)
  {
  }

  /** A call that is not over moves as soon as it tries to send, or its wait runs out. */
  lemma {:induction false} AlwaysMoves(c: Call, socketOk: bool, sendOk: bool, seen: Feedback)
    requires CallValid(c)
    ensures c.phase == Ready ==> CallStep(c, Socket(socketOk, sendOk)) != c
    ensures c.phase == Waiting ==> CallStep(c, Look(true, seen)) != c
  {
  }

  /** The k-th input of the script is a look that satisfies the waiting call. */
  predicate SatisfiedAt(c: Call, script: seq<CallInput>, k: nat)
    requires k < |script|
  {
    RunCall(c, script[..k]).phase == Waiting && script[k].Look? && Accepts(c, script[k].seen)
  }

  lemma {:induction false} CallKeepsItsTerms(c: Call, script: seq<CallInput>)
    ensures SameCall(c, RunCall(c, script))
  {
    if script != [] { CallKeepsItsTerms(c, script[..|script| - 1]); }
  }

  /** What success means: whatever is sent, and however often, a call returns true exactly
      if at some look, while it waits, its row carries a FEEDBACK that satisfies it. */
  lemma {:induction false} SucceedsExactly(c: Call, script: seq<CallInput>)
    requires c.phase != Done(true)
    ensures RunCall(c, script).phase == Done(true) <==> exists k | 0 <= k < |script| :: SatisfiedAt(c, script, k)
  {
    if script != [] {
      var n := |script| - 1;
      var before := script[..n];
      SucceedsExactly(c, before);
      CallKeepsItsTerms(c, before);
      forall k | 0 <= k < n ensures SatisfiedAt(c, script, k) <==> SatisfiedAt(c, before, k) {
        assert before[..k] == script[..k];
      }
      if RunCall(c, before).phase != Done(true) && RunCall(c, script).phase == Done(true) {
        assert SatisfiedAt(c, script, n);
      }
    }
  }

  /** A look in full: while the row's id is older and time is left the call goes on waiting;
      the right answer ends it; and anything else, a newer FEEDBACK for something else
      included, ends the attempt at once, the last of three with failure. */
  lemma {:induction false} LookExactly(c: Call, timedOut: bool, seen: Feedback)
    requires c.phase == Waiting
    ensures var c' := CallStep(c, Look(timedOut, seen));
            if seen.cmdid < c.cmdid then
              if !timedOut then c' == c
              else c' == c.(attempt := c.attempt + 1, phase := if c.attempt < 2 then Ready else Done(false))
            else if seen.target == c.target && seen.action == c.action then c' == c.(phase := Done(true))
            else c' == c.(attempt := c.attempt + 1, phase := if c.attempt < 2 then Ready else Done(false))
  {
  }

  /** What the call meets: whether the socket opens and the datagram goes out at attempt
      `a`, what the row carries at the k-th look of that attempt, and whether the wait
      before that look ran out. */
  datatype World = World(socketOk: nat -> bool, sendOk: nat -> bool,
                         sees: (nat, nat) -> Feedback, timesOut: (nat, nat) -> bool)

  /** The next thing the call does in this world, after `looks` looks of its attempt. */
  function NextInput(c: Call, looks: nat, w: World): CallInput
  {
    if c.phase == Ready then Socket(w.socketOk(c.attempt), w.sendOk(c.attempt))
    else Look(looks > 0 && w.timesOut(c.attempt, looks), w.sees(c.attempt, looks))
  }

  /** Looks since the last try at sending. */
  function Looks(script: seq<CallInput>): nat
  {
    if script == [] || script[|script| - 1].Socket? then 0 else Looks(script[..|script| - 1]) + 1
  }

  /** Tries that got a datagram out. */
  function Datagrams(script: seq<CallInput>): nat
  {
    if script == [] then 0
    else Datagrams(script[..|script| - 1]) + if script[|script| - 1] == Socket(true, true) then 1 else 0
  }

  /** The script is what this call meets in this world, step by step; nothing in it is left
      to choose, and it goes on no longer than the call. */
  predicate Meets(c: Call, script: seq<CallInput>, w: World)
  {
    script == [] ||
    var before := script[..|script| - 1];
    && Meets(c, before, w) && !RunCall(c, before).phase.Done?
    && script[|script| - 1] == NextInput(RunCall(c, before), Looks(before), w)
  }

  /** So far the call has met `script` and stands at `now`. */
  ghost predicate Stands(c: Call, script: seq<CallInput>, w: World, now: Call, looks: nat, datagrams: nat)
  {
    && Meets(c, script, w) && RunCall(c, script) == now
    && Looks(script) == looks && Datagrams(script) == datagrams
  }

  lemma OneMoreInput(c: Call, script: seq<CallInput>, w: World, now: Call, looks: nat, datagrams: nat, i: CallInput)
    requires Stands(c, script, w, now, looks, datagrams) && !now.phase.Done? && i == NextInput(now, looks, w)
    ensures Stands(c, script + [i], w, CallStep(now, i), if i.Socket? then 0 else looks + 1,
                   datagrams + if i == Socket(true, true) then 1 else 0)
  {
    assert (script + [i])[..|script|] == script;
  }

  /** There is one such script and no other: two that end with the call over are equal. */
  lemma {:induction false} WorldDecides(c: Call, a: seq<CallInput>, b: seq<CallInput>, w: World)
    requires Meets(c, a, w) && Meets(c, b, w) && |a| <= |b|
    ensures a == b[..|a|]
    ensures RunCall(c, a).phase.Done? ==> a == b
  {
    if |a| < |b| {
      WorldDecides(c, a, b[..|b| - 1], w);
      assert b[..|b| - 1][..|a|] == b[..|a|];
      if a == b[..|b| - 1] { assert !RunCall(c, a).phase.Done?; }
    } else if a != [] {
      var n := |a| - 1;
      WorldDecides(c, a[..n], b[..n], w);
      assert a[..n] == b[..n] by { assert b[..n][..n] == b[..n]; }
      assert a == a[..n] + [a[n]] && b == b[..n] + [b[n]] && b[..|a|] == b;
    }
  }

  /** The loops of the call as they are written: three attempts, and in each a timed wait
      that wakes up any number of times before it gives up; `patience` bounds the wakings.
      The script of what it met is exactly what the world held for it. */
  method SendLoop(c: Call, w: World, ghost patience: nat -> nat)
    returns (ok: bool, sent: seq<string>, ghost script: seq<CallInput>)
    requires c.attempt == 0 && c.phase == Ready
    requires forall a: nat :: w.timesOut(a, patience(a) + 1)
    ensures Meets(c, script, w)
    ensures RunCall(c, script) == c.(phase := Done(ok), attempt := RunCall(c, script).attempt)
    ensures |sent| == Datagrams(script) <= 3 && forall d | d in sent :: d == CommandLine(c)
    ensures !ok <==> RunCall(c, script).attempt == 3
    ensures ok <==> exists k | 0 <= k < |script| :: SatisfiedAt(c, script, k)
  {
    ok, sent, script := Attempts(c, w, patience);
    SucceedsExactly(c, script);
  }

  method Attempts(c: Call, w: World, ghost patience: nat -> nat)
    returns (ok: bool, sent: seq<string>, ghost script: seq<CallInput>)
    requires c.attempt == 0 && c.phase == Ready
    requires forall a: nat :: w.timesOut(a, patience(a) + 1)
    ensures Meets(c, script, w)
    ensures RunCall(c, script) == c.(phase := Done(ok), attempt := RunCall(c, script).attempt)
    ensures |sent| == Datagrams(script) <= 3 && forall d | d in sent :: d == CommandLine(c)
    ensures !ok <==> RunCall(c, script).attempt == 3
  {
    sent, script := [], [];
    var buf := CommandLine(c);
    var attempt := 0;
    while attempt <= ACK_RETRIES
      invariant 0 <= attempt <= ACK_RETRIES + 1 && |sent| <= attempt
      invariant forall d | d in sent :: d == CommandLine(c)
      invariant Stands(c, script, w, AtAttempt(c, attempt), Looks(script), |sent|)
    {
      ghost var i := Socket(w.socketOk(attempt), w.sendOk(attempt));
      OneMoreInput(c, script, w, AtAttempt(c, attempt), Looks(script), |sent|, i);
      script := script + [i];
      if !w.socketOk(attempt) || !w.sendOk(attempt) {
        attempt := attempt + 1;
        continue;
      }
      sent := sent + [buf];
      ok, script := AwaitFeedback(c, attempt, w, patience(attempt), script, |sent|);
      if ok {
        return true, sent, script;
      }
      attempt := attempt + 1;
    }
    return false, sent, script;
  }

  /** The call as it is before attempt `a`; after the last one it has failed. */
  function AtAttempt(c: Call, a: nat): Call
  {
    c.(attempt := a, phase := if a <= ACK_RETRIES then Ready else Done(false))
  }

  /** The call while it waits at attempt `a`. */
  function WaitingAt(c: Call, a: nat): Call { c.(attempt := a, phase := Waiting) }

  /** The call after the last look of attempt `a`. */
  function AfterWait(c: Call, a: nat, got: bool): Call
  {
    if got then c.(attempt := a, phase := Done(true)) else AtAttempt(c, a + 1)
  }

  lemma OneMoreLook(c: Call, script: seq<CallInput>, w: World, a: nat, k: nat, datagrams: nat)
    requires a <= ACK_RETRIES && Stands(c, script, w, WaitingAt(c, a), k, datagrams)
    ensures var seen, timedOut := w.sees(a, k), k > 0 && w.timesOut(a, k);
            var more := script + [Look(timedOut, seen)];
            && (seen.cmdid < c.cmdid && !timedOut ==> Stands(c, more, w, WaitingAt(c, a), k + 1, datagrams))
            && (seen.cmdid >= c.cmdid || timedOut ==>
                 Stands(c, more, w, AfterWait(c, a, Accepts(c, seen)), k + 1, datagrams))
  {
    var i := Look(k > 0 && w.timesOut(a, k), w.sees(a, k));
    OneMoreInput(c, script, w, WaitingAt(c, a), k, datagrams, i);
    StepOfWait(c, a, i.timedOut, i.seen);
  }

  lemma StepOfWait(c: Call, a: nat, timedOut: bool, seen: Feedback)
    requires a <= ACK_RETRIES
    ensures CallStep(WaitingAt(c, a), Look(timedOut, seen)) ==
            if seen.cmdid < c.cmdid && !timedOut then WaitingAt(c, a) else AfterWait(c, a, Accepts(c, seen))
  {
  }

  /** The wait of one attempt, and the test after it. */
  method AwaitFeedback(c: Call, attempt: nat, w: World, ghost patience: nat,
          ghost before: seq<CallInput>, ghost datagrams: nat)
    returns (got: bool, ghost script: seq<CallInput>)
    requires attempt <= ACK_RETRIES && w.timesOut(attempt, patience + 1)
    requires Stands(c, before, w, WaitingAt(c, attempt), 0, datagrams)
    ensures Stands(c, script, w, AfterWait(c, attempt, got), Looks(script), datagrams)
  {
    script := before;
    var k, timedOut := 0, false;
    var seen := w.sees(attempt, 0);
    while seen.cmdid < c.cmdid && !timedOut
      invariant Stands(c, script, w, WaitingAt(c, attempt), k, datagrams)
      invariant seen == w.sees(attempt, k) && timedOut == (k > 0 && w.timesOut(attempt, k))
      invariant k <= patience + 1
      decreases patience + 1 - k
    {
      OneMoreLook(c, script, w, attempt, k, datagrams);
      script := script + [Look(timedOut, seen)];
      k := k + 1;
      timedOut := w.timesOut(attempt, k);
      seen := w.sees(attempt, k);
    }
    OneMoreLook(c, script, w, attempt, k, datagrams);
    script := script + [Look(timedOut, seen)];
    got := seen.cmdid >= c.cmdid && seen.target == c.target && seen.action == c.action;
  }

  // ---------- all calls and the hub together ----------

  datatype Sys = Sys(hub: Hub, calls: seq<Call>)

  datatype Event = HubDoes(i: Input)
                 | Invoke(moduleId: string, target: string, action: string)
                 | Try(c: nat, socketOk: bool, sendOk: bool)
                 | Wake(c: nat, timedOut: bool)

  const INIT_SYS := Sys(InitHub(), [])

  /** What call `c` is given to work on by this event, if anything. */
  function InputFor(s: Sys, e: Event, c: nat): seq<CallInput>
    requires c < |s.calls|
  {
    match e
    case Try(k, socketOk, sendOk) => if k == c then [Socket(socketOk, sendOk)] else []
    case Wake(k, timedOut) =>
      if k == c && s.calls[c].row < MAX_DOORS then [Look(timedOut, s.hub.doors[s.calls[c].row].feedback)] else []
    case _ => []
  }

  /** The call that begins here: its module has a row with an address, or it fails at
      once and takes no id. */
  function Begin(h: Hub, moduleId: string, target: string, action: string): seq<Call>
  {
    var r := FindDoor(h.doors, moduleId);
    if r < MAX_DOORS && h.doors[r].hasLastAddr
    then [Call(moduleId, target, action, r, h.doors[r].lastAddr, h.nextCmdid, |h.log|, 0, Ready)] else []
  }

  /** The hub's part of an event: calls take ids and transmit, the rest is its own. */
  function HubInput(s: Sys, e: Event): seq<Input>
  {
    match e
    case HubDoes(i) => if i.IssueId? || i.Transmit? then [] else [i]
    case Invoke(moduleId, target, action) => if Begin(s.hub, moduleId, target, action) == [] then [] else [IssueId]
    case Try(c, socketOk, sendOk) =>
      if c < |s.calls| && s.calls[c].phase == Ready && socketOk && sendOk
      then [Transmit(c, s.calls[c].cmdid, s.calls[c].dest, CommandLine(s.calls[c]))] else []
    case Wake(_, _) => []
  }

  function CallsAfter(s: Sys, e: Event): seq<Call>
  {
    match e
    case Invoke(moduleId, target, action) => s.calls + Begin(s.hub, moduleId, target, action)
    case _ => seq(|s.calls|, c requires 0 <= c < |s.calls| => CallAfter(s, e, c))
  }

  function CallAfter(s: Sys, e: Event, c: nat): Call
    requires c < |s.calls|
  {
    var ins := InputFor(s, e, c);
    if ins == [] then s.calls[c] else CallStep(s.calls[c], ins[0])
  }

  function Next(s: Sys, e: Event): Sys
  {
    var ins := HubInput(s, e);
    Sys(if ins == [] then s.hub else Step(s.hub, ins[0]), CallsAfter(s, e))
  }

  function Exec(s: Sys, es: seq<Event>): Sys
  {
    if es == [] then s else Next(Exec(s, es[..|es| - 1]), es[|es| - 1])
  }

  /** What the receiver thread does in such a run, in order. */
  function HubEvents(es: seq<Event>): seq<Input>
  {
    if es == [] then []
    else
      var e := es[|es| - 1];
      HubEvents(es[..|es| - 1]) + if e.HubDoes? && !OfOthers(e.i) then [e.i] else []
  }

  /** The hub of such a system goes through a run of HubRuns: the receiver's own steps, all
      of them and in order, with ids taken and commands transmitted in between. */
  lemma {:induction false} HubPart(es: seq<Event>) returns (inputs: seq<Input>)
    ensures Exec(INIT_SYS, es).hub == Run(InitHub(), inputs)
    ensures OwnInputs(inputs) == HubEvents(es)
  {
    if es == [] {
      inputs := [];
    } else {
      var s, e := Exec(INIT_SYS, es[..|es| - 1]), es[|es| - 1];
      inputs := HubPart(es[..|es| - 1]);
      var ins := HubInput(s, e);
      if ins != [] {
        RunStep(InitHub(), inputs, ins[0]);
        OwnAppend(inputs, [ins[0]]);
        OwnOfOne(ins[0]);
        inputs := inputs + [ins[0]];
      }
    }
  }

  // ---------- the hub's theorems, with calls under way ----------

  /** Whatever is called meanwhile: if the ids in the datagrams fit, the tables agree. */
  lemma {:induction false} RoutingWithCalls(es: seq<Event>)
    requires ShortIds(HubEvents(es))
    ensures var h := Exec(INIT_SYS, es).hub; Routed(h.doors, h.endpoints)
  {
    var inputs := HubPart(es);
    ShortIdsOfOwn(inputs);
    RoutingTablesAgree(inputs);
  }

  /** Alerts alternate for every row, and for every module if the ids fit. */
  lemma {:induction false} AlertsWithCalls(es: seq<Event>, row: nat, m: string)
    requires row < MAX_DOORS
    ensures Alternate(Flips(Exec(INIT_SYS, es).hub.log, row))
    ensures ShortIds(HubEvents(es)) ==> Alternate(ModuleFlips(Exec(INIT_SYS, es).hub.log, m))
  {
    var inputs := HubPart(es);
    ShortIdsOfOwn(inputs);
    AlertsAlternate(inputs, row);
    if ShortIds(HubEvents(es)) { ModuleAlertsAlternate(inputs, m); }
  }

  /** The history is in time order if the receiver's clock does not run backwards. */
  lemma {:induction false} HistoryWithCalls(es: seq<Event>, since: int)
    requires ClockForward(HubEvents(es), since)
    ensures InTimeOrder(Exec(INIT_SYS, es).hub.history)
  {
    var inputs := HubPart(es);
    ClockOfOwn(inputs, since);
    HistoryInTimeOrder(InitHub(), inputs, since);
  }

  /** Relays are conserved, and go to clients that asked. */
  lemma {:induction false} RelaysWithCalls(es: seq<Event>, m: string, c: int, clients: iset<Addr>)
    ensures var log := Exec(INIT_SYS, es).hub.log;
            && (c != 0 ==> RelayedCount(log, m, c, clients) <= AcceptedCount(log, m, c, clients))
            && forall a | a in log && a.Relayed? ::
                 if a.cmdid != 0 then Accepted(a.moduleId, a.cmdid, a.dst) in log else Asked(log, a.moduleId, a.dst)
  {
    var inputs := HubPart(es);
    var log := Exec(INIT_SYS, es).hub.log;
    if c != 0 { RelaysAreConserved(inputs, m, c, clients); }
    RelaysGoToAskers(inputs);
    forall a | a in log && a.Relayed? && a.cmdid != 0 ensures Accepted(a.moduleId, a.cmdid, a.dst) in log {
      RelaysAreConserved(inputs, a.moduleId, a.cmdid, clients);
      assert a == Relayed(a.moduleId, a.cmdid, a.dst, a.line);
    }
  }

  // ---------- retries and ids ----------

  /** How often the state of call `c` changed during the run. */
  function Moves(s: Sys, es: seq<Event>, c: nat): nat
  {
    if es == [] then 0
    else
      var before := Exec(s, es[..|es| - 1]);
      var after := Next(before, es[|es| - 1]);
      var moved := c < |before.calls| && c < |after.calls| && before.calls[c] != after.calls[c];
      Moves(s, es[..|es| - 1], c) + if moved then 1 else 0
  }

  /** Commands call `c` has transmitted. */
  function Sent(log: seq<Act>, c: nat): nat
  {
    if log == [] then 0
    else Sent(log[..|log| - 1], c) + if log[|log| - 1].Commanded? && log[|log| - 1].call == c then 1 else 0
  }

  /** Retries so far; a wait or a success means one more command is out. */
  function Tries(c: Call): nat
  {
    c.attempt + if c.phase == Ready || c.phase == Done(false) then 0 else 1
  }

  ghost predicate CallsInOrder(s: Sys)
  {
    && (forall c | 0 <= c < |s.calls| :: CallValid(s.calls[c]) && s.calls[c].cmdid < s.hub.nextCmdid)
    && (forall b, c | 0 <= b < c < |s.calls| :: s.calls[b].cmdid < s.calls[c].cmdid)
  }

  ghost predicate CommandsMatchCalls(s: Sys)
  {
    forall a | a in s.hub.log && a.Commanded? ::
      a.call < |s.calls| &&
          a == Commanded(a.call, s.calls[a.call].cmdid, s.calls[a.call].dest, CommandLine(s.calls[a.call]))
  }

  ghost predicate SentWithinTries(s: Sys)
  {
    && (forall c | 0 <= c < |s.calls| :: Sent(s.hub.log, c) <= Tries(s.calls[c]))
    && (forall c | |s.calls| <= c :: Sent(s.hub.log, c) == 0)
  }

  /** Apart from attempt and phase, a call never changes. */
  predicate SameCall(c: Call, c': Call)
  {
    c' == c.(attempt := c'.attempt, phase := c'.phase)
  }

  lemma CallsEvolve(s: Sys, e: Event)
    requires forall c | 0 <= c < |s.calls| :: CallValid(s.calls[c])
    ensures |s.calls| <= |CallsAfter(s, e)| <= |s.calls| + 1
    ensures forall c | 0 <= c < |s.calls| :: SameCall(s.calls[c], CallsAfter(s, e)[c]) && CallValid(CallsAfter(s, e)[c])
    ensures |CallsAfter(s, e)| > |s.calls| ==>
              e.Invoke? && Begin(s.hub, e.moduleId, e.target, e.action) == [CallsAfter(s, e)[|s.calls|]]
  {
    forall c | 0 <= c < |s.calls|
      ensures SameCall(s.calls[c], CallsAfter(s, e)[c]) && CallValid(CallsAfter(s, e)[c])
    {
      var ins := InputFor(s, e, c);
      if ins != [] { StepBurnsFuel(s.calls[c], ins[0]); }
    }
  }

  lemma OnlyInvokeIssuesIds(s: Sys, e: Event)
    ensures Next(s, e).hub.nextCmdid == s.hub.nextCmdid + (|CallsAfter(s, e)| - |s.calls|)
  {
  }

  lemma {:induction false} StepKeepsOrder(s: Sys, e: Event)
    requires CallsInOrder(s)
    ensures CallsInOrder(Next(s, e))
  {
    CallsEvolve(s, e);
    OnlyInvokeIssuesIds(s, e);
  }

  /** In every run, ids are distinct and grow in the order the calls were issued. */
  lemma {:induction false} IdsGrow(es: seq<Event>)
    ensures CallsInOrder(Exec(INIT_SYS, es))
  {
    if es != [] {
      IdsGrow(es[..|es| - 1]);
      StepKeepsOrder(Exec(INIT_SYS, es[..|es| - 1]), es[|es| - 1]);
    }
  }

  lemma {:induction false} SentOfOne(log: seq<Act>, a: Act, c: nat)
    ensures Sent(log + [a], c) == Sent(log, c) + if a.Commanded? && a.call == c then 1 else 0
  {
    assert (log + [a])[..|log|] == log;
  }

  lemma {:induction false} SentIgnoresOthers(log: seq<Act>, acts: seq<Act>, c: nat)
    requires forall a | a in acts :: !a.Commanded?
    ensures Sent(log + acts, c) == Sent(log, c)
    decreases |acts|
  {
    if acts == [] {
      assert log + acts == log;
    } else {
      assert acts[0] in acts;
      assert log + acts == (log + [acts[0]]) + acts[1..];
      SentOfOne(log, acts[0], c);
      SentIgnoresOthers(log + [acts[0]], acts[1..], c);
    }
  }

  /** What the hub adds to its log on its own is never a command of a call. */
  lemma NotOfCalls(h: Hub, i: Input)
    requires !i.Transmit?
    ensures forall a | a in ActsOf(h, i) :: !a.Commanded?
  {
    if i.Tick? { SweepOnlyAlerts(h.doors, i.now); }
  }

  lemma {:induction false} StepMatchesCalls(s: Sys, e: Event)
    requires CallsInOrder(s) && CommandsMatchCalls(s)
    ensures CommandsMatchCalls(Next(s, e))
  {
    CallsEvolve(s, e);
    var s', ins := Next(s, e), HubInput(s, e);
    if ins != [] {
      StepLogs(s.hub, ins[0]);
      if !ins[0].Transmit? { NotOfCalls(s.hub, ins[0]); }
    }
    forall a | a in s'.hub.log && a.Commanded?
      ensures a.call < |s'.calls|
           && a == Commanded(a.call, s'.calls[a.call].cmdid, s'.calls[a.call].dest, CommandLine(s'.calls[a.call]))
    {
      if a !in s.hub.log {
        assert e.Try? && a == Commanded(e.c, s.calls[e.c].cmdid, s.calls[e.c].dest, CommandLine(s.calls[e.c]));
      }
      assert SameCall(s.calls[a.call], s'.calls[a.call]);
    }
  }

  lemma SentAfter(s: Sys, e: Event, c: nat)
    ensures var ins := HubInput(s, e);
            Sent(Next(s, e).hub.log, c) ==
            Sent(s.hub.log, c) + if ins != [] && ins[0].Transmit? && ins[0].call == c then 1 else 0
  {
    var ins := HubInput(s, e);
    if ins != [] {
      if ins[0].Transmit? {
        SentOfOne(s.hub.log, Commanded(ins[0].call, ins[0].cmdid, ins[0].dst, ins[0].line), c);
      } else {
        StepLogs(s.hub, ins[0]);
        NotOfCalls(s.hub, ins[0]);
        SentIgnoresOthers(s.hub.log, ActsOf(s.hub, ins[0]), c);
      }
    }
  }

  /** A transmission uses up a try; nothing gives one back. */
  lemma TriesAfter(s: Sys, e: Event, c: nat)
    requires c < |s.calls| && CallValid(s.calls[c])
    ensures c < |CallsAfter(s, e)|
    ensures var ins := HubInput(s, e);
            Tries(CallsAfter(s, e)[c]) >=
            Tries(s.calls[c]) + if ins != [] && ins[0].Transmit? && ins[0].call == c then 1 else 0
  {
    assert CallsAfter(s, e)[c] == s.calls[c] || CallsAfter(s, e)[c] == CallAfter(s, e, c);
  }

  lemma {:induction false} StepSendsWithinTries(s: Sys, e: Event)
    requires CallsInOrder(s) && SentWithinTries(s)
    ensures SentWithinTries(Next(s, e))
  {
    CallsEvolve(s, e);
    var calls' := CallsAfter(s, e);
    forall c: nat ensures Sent(Next(s, e).hub.log, c) <= if c < |calls'| then Tries(calls'[c]) else 0 {
      SentAfter(s, e, c);
      if c < |s.calls| { TriesAfter(s, e, c); }
    }
  }

  /** In every run: each call transmits at most three commands, all of them the same line
      with its own id, to the address its module had when the call began. */
  lemma {:induction false} RetriesAreBounded(es: seq<Event>)
    ensures var s := Exec(INIT_SYS, es); CommandsMatchCalls(s) && SentWithinTries(s)
    ensures forall c | 0 <= c < |Exec(INIT_SYS, es).calls| :: Sent(Exec(INIT_SYS, es).hub.log, c) <= 3
  {
    if es != [] {
      var s := Exec(INIT_SYS, es[..|es| - 1]);
      RetriesAreBounded(es[..|es| - 1]);
      IdsGrow(es[..|es| - 1]);
      StepMatchesCalls(s, es[|es| - 1]);
      StepSendsWithinTries(s, es[|es| - 1]);
    }
    IdsGrow(es);
  }

  /** In every run, the state of a call changes at most six times, counting from its
      start, and by then it is over; until then its next try or expired wait changes it. */
  lemma {:induction false} CallsEnd(es: seq<Event>, c: nat)
    ensures c < |Exec(INIT_SYS, es).calls| ==> Moves(INIT_SYS, es, c) + Fuel(Exec(INIT_SYS, es).calls[c]) <= 6
    ensures c >= |Exec(INIT_SYS, es).calls| ==> Moves(INIT_SYS, es, c) == 0
  {
    if es != [] {
      var s, e := Exec(INIT_SYS, es[..|es| - 1]), es[|es| - 1];
      CallsEnd(es[..|es| - 1], c);
      IdsGrow(es[..|es| - 1]);
      CallsEvolve(s, e);
      if c < |s.calls| {
        assert Next(s, e).calls[c] == s.calls[c] || Next(s, e).calls[c] == CallAfter(s, e, c);
        var ins := InputFor(s, e, c);
        if ins != [] { StepBurnsFuel(s.calls[c], ins[0]); }
      }
    }
  }

  // ---------- fresh and stale acknowledgements ----------

  /** The latest FEEDBACK recorded for a row, as the log remembers it. */
  function LastRecorded(log: seq<Act>, row: nat): Feedback
  {
    if log == [] then Feedback(0, "", "", 0)
    else
      var a := log[|log| - 1];
      if a.Recorded? && a.row == row then Feedback(0, a.target, a.action, a.cmdid)
      else LastRecorded(log[..|log| - 1], row)
  }

  /** Each row carries the latest FEEDBACK recorded for it; an unused row has none. */
  ghost predicate RowsMirrorLog(h: Hub)
  {
    forall r | 0 <= r < MAX_DOORS :: Mirrors(h.doors[r], h.log, r)
  }

  lemma {:induction false} LastOfOthers(log: seq<Act>, acts: seq<Act>, row: nat)
    requires forall a | a in acts :: !(a.Recorded? && a.row == row)
    ensures LastRecorded(log + acts, row) == LastRecorded(log, row)
    decreases |acts|
  {
    if acts == [] {
      assert log + acts == log;
    } else {
      var n := |acts| - 1;
      assert (log + acts)[..|log + acts| - 1] == log + acts[..n];
      assert acts[n] in acts;
      LastOfOthers(log, acts[..n], row);
    }
  }

  predicate RecordsFor(h: Hub, i: Input, r: nat)
  {
    var ts := Handled(h, i);
    ts != [] && IsRecorded(ts) && RowFor(h.doors, ts[0]) == r
  }

  /** Only a recorded FEEDBACK for this row changes what the row carries. */
  lemma FeedbackOnlyFromLines(h: Hub, i: Input, r: nat)
    requires r < MAX_DOORS && (!h.doors[r].known ==> h.doors[r].feedback == Feedback(0, "", "", 0))
    ensures !Step(h, i).doors[r].known ==> Step(h, i).doors[r].feedback == Feedback(0, "", "", 0)
    ensures RecordsFor(h, i, r) ==>
              var ts := Handled(h, i);
              && Step(h, i).doors[r].feedback == FeedbackOf(ts, i.t)
              && ActsOf(h, i) == [Recorded(r, Atoi(ts[2]), Trunc(ts[3], 31), Trunc(ts[4], 31))]
    ensures !RecordsFor(h, i, r) ==>
              && Step(h, i).doors[r].feedback == h.doors[r].feedback
              && forall a | a in ActsOf(h, i) :: !(a.Recorded? && a.row == r)
  {
    match i {
      case Datagram(text, src, t) =>
        var ts := Handled(h, i);
        if ts != [] {
          LineFeedback(h.doors, ts, src, t, r);
          assert Step(h, i).doors == DoorsAfter(h.doors, ts, src, t);
        }
      case Tick(now) => SweepOnlyAlerts(h.doors, now);
      case Release(_) =>
      case IssueId =>
      case Transmit(_, _, _, _) =>
    }
  }

  lemma LineFeedback(d: DoorTable, ts: seq<string>, src: Addr, t: int, r: nat)
    requires |ts| >= 2 && r < MAX_DOORS && (!d[r].known ==> d[r].feedback == Feedback(0, "", "", 0))
    ensures var row := DoorsAfter(d, ts, src, t)[r];
            && (!row.known ==> row.feedback == Feedback(0, "", "", 0))
            && (IsRecorded(ts) && RowFor(d, ts[0]) == r ==> row.feedback == FeedbackOf(ts, t))
            && (!(IsRecorded(ts) && RowFor(d, ts[0]) == r) ==> row.feedback == d[r].feedback)
    ensures var acts := LogOf(RowFor(d, ts[0]), ts, src);
            && (IsRecorded(ts) ==>
               acts == [Recorded(RowFor(d, ts[0]), Atoi(ts[2]), Trunc(ts[3], 31), Trunc(ts[4], 31))])
            && (!IsRecorded(ts) ==> forall a | a in acts :: !a.Recorded?)
  {
    if IsRecorded(ts) { assert |ts[1]| == 8; }
  }

  ghost predicate Mirrors(row: DoorRow, log: seq<Act>, r: nat)
  {
    row.feedback.(ms := 0) == LastRecorded(log, r) && (!row.known ==> row.feedback == Feedback(0, "", "", 0))
  }

  lemma LastOfOne(log: seq<Act>, a: Act)
    requires a.Recorded?
    ensures LastRecorded(log + [a], a.row) == Feedback(0, a.target, a.action, a.cmdid)
  {
    assert (log + [a])[..|log|] == log;
  }

  lemma RowMirrors(h: Hub, i: Input, r: nat)
    requires r < MAX_DOORS && Mirrors(h.doors[r], h.log, r)
    ensures Mirrors(Step(h, i).doors[r], h.log + ActsOf(h, i), r)
  {
    FeedbackOnlyFromLines(h, i, r);
    if RecordsFor(h, i, r) {
      RecordMirrors(h, Step(h, i).doors[r], Handled(h, i), i.t, r);
    } else {
      LastOfOthers(h.log, ActsOf(h, i), r);
    }
  }

  lemma RecordMirrors(h: Hub, row: DoorRow, ts: seq<string>, t: int, r: nat)
    requires |ts| >= 5 && row.feedback == FeedbackOf(ts, t)
    requires !row.known ==> row.feedback == Feedback(0, "", "", 0)
    ensures Mirrors(row, h.log + [Recorded(r, Atoi(ts[2]), Trunc(ts[3], 31), Trunc(ts[4], 31))], r)
  {
    LastOfOne(h.log, Recorded(r, Atoi(ts[2]), Trunc(ts[3], 31), Trunc(ts[4], 31)));
  }

  lemma {:induction false} StepMirrors(h: Hub, i: Input)
    requires RowsMirrorLog(h)
    ensures RowsMirrorLog(Step(h, i))
  {
    StepLogs(h, i);
    forall r | 0 <= r < MAX_DOORS ensures Mirrors(Step(h, i).doors[r], Step(h, i).log, r) { RowMirrors(h, i, r); }
  }

  lemma {:induction false} RunMirrors(inputs: seq<Input>)
    ensures RowsMirrorLog(Run(InitHub(), inputs))
  {
    if inputs != [] {
      RunMirrors(inputs[..|inputs| - 1]);
      StepMirrors(Run(InitHub(), inputs[..|inputs| - 1]), inputs[|inputs| - 1]);
    }
  }

  /** A FEEDBACK recorded after the call took its id satisfies it. */
  ghost predicate FreshAck(log: seq<Act>, c: Call)
  {
    exists k, id | c.issuedAt <= k < |log| && id >= c.cmdid :: log[k] == Recorded(c.row, id, c.target, c.action)
  }

  /** What the row carried when the call took its id already satisfies it. */
  predicate StaleAck(log: seq<Act>, c: Call)
  {
    c.issuedAt <= |log| && Accepts(c, LastRecorded(log[..c.issuedAt], c.row))
  }

  lemma {:induction false} FreshOrStale(log: seq<Act>, c: Call)
    requires c.issuedAt <= |log| && Accepts(c, LastRecorded(log, c.row))
    ensures FreshAck(log, c) || StaleAck(log, c)
  {
    if |log| == c.issuedAt {
      assert log[..c.issuedAt] == log;
    } else {
      var n := |log| - 1;
      if log[n].Recorded? && log[n].row == c.row {
        assert log[n] == Recorded(c.row, log[n].cmdid, c.target, c.action);
      } else {
        FreshOrStale(log[..n], c);
        assert log[..n][..c.issuedAt] == log[..c.issuedAt];
      }
    }
  }

  /** Every successful call is accounted for by a fresh or by a stale acknowledgement. */
  ghost predicate SuccessExplained(s: Sys)
  {
    forall c | 0 <= c < |s.calls| ::
      && s.calls[c].issuedAt <= |s.hub.log| && s.calls[c].row < MAX_DOORS
      && (s.calls[c].phase == Done(true) ==> FreshAck(s.hub.log, s.calls[c]) || StaleAck(s.hub.log, s.calls[c]))
  }

  lemma LogGrows(s: Sys, e: Event)
    ensures s.hub.log <= Next(s, e).hub.log
  {
    var ins := HubInput(s, e);
    if ins != [] { StepLogs(s.hub, ins[0]); }
  }

  lemma AckStays(log: seq<Act>, log': seq<Act>, c: Call, c': Call)
    requires log <= log' && SameCall(c, c') && c.issuedAt <= |log|
    ensures FreshAck(log, c) ==> FreshAck(log', c')
    ensures StaleAck(log, c) <==> StaleAck(log', c')
  {
    assert log'[..c.issuedAt] == log[..c.issuedAt];
    if FreshAck(log, c) {
      var k, id :| c.issuedAt <= k < |log| && id >= c.cmdid && log[k] == Recorded(c.row, id, c.target, c.action);
      assert log'[k] == Recorded(c'.row, id, c'.target, c'.action);
    }
  }

  lemma {:induction false} StepExplained(s: Sys, e: Event)
    requires CallsInOrder(s) && SuccessExplained(s) && RowsMirrorLog(s.hub)
    ensures SuccessExplained(Next(s, e))
  {
    CallsEvolve(s, e);
    LogGrows(s, e);
    var s' := Next(s, e);
    forall c | 0 <= c < |s'.calls|
      ensures s'.calls[c].issuedAt <= |s'.hub.log| && s'.calls[c].row < MAX_DOORS
      ensures s'.calls[c].phase == Done(true) ==> FreshAck(s'.hub.log, s'.calls[c]) || StaleAck(s'.hub.log, s'.calls[c])
    {
      if c < |s.calls| {
        assert s'.calls[c] == s.calls[c] || s'.calls[c] == CallAfter(s, e, c);
        if s'.calls[c].phase == Done(true) && s.calls[c].phase != Done(true) {
          FreshOrStale(s.hub.log, s.calls[c]);
        }
        AckStays(s.hub.log, s'.hub.log, s.calls[c], s'.calls[c]);
      }
    }
  }

  /** In every run whatsoever, a call that returned true was satisfied by a FEEDBACK from
      its own row with its own target and action, for this or a later id, recorded after
      the call took its id; or else the row satisfied it already at that moment. */
  lemma {:induction false} SuccessIsExplained(es: seq<Event>)
    ensures SuccessExplained(Exec(INIT_SYS, es))
  {
    if es != [] {
      SuccessIsExplained(es[..|es| - 1]);
      IdsGrow(es[..|es| - 1]);
      var inputs := HubPart(es[..|es| - 1]);
      RunMirrors(inputs);
      StepExplained(Exec(INIT_SYS, es[..|es| - 1]), es[|es| - 1]);
    }
  }

  /** A FEEDBACK was recorded for the call's row since the call took its id. */
  ghost predicate RecordedSince(log: seq<Act>, c: Call)
  {
    exists k | c.issuedAt <= k < |log| :: log[k].Recorded? && log[k].row == c.row
  }

  lemma {:induction false} WithoutRecordsNothingChanges(log: seq<Act>, c: Call)
    requires c.issuedAt <= |log| && !RecordedSince(log, c)
    ensures LastRecorded(log, c.row) == LastRecorded(log[..c.issuedAt], c.row)
  {
    if |log| == c.issuedAt {
      assert log[..c.issuedAt] == log;
    } else {
      var n := |log| - 1;
      assert forall k | 0 <= k < n :: log[..n][k] == log[k];
      WithoutRecordsNothingChanges(log[..n], c);
      assert log[..n][..c.issuedAt] == log[..c.issuedAt];
    }
  }

  lemma {:induction false} LatestIsFresh(log: seq<Act>, c: Call)
    requires c.issuedAt <= |log| && RecordedSince(log, c) && Accepts(c, LastRecorded(log, c.row))
    ensures FreshAck(log, c)
  {
    var n := |log| - 1;
    if log[n].Recorded? && log[n].row == c.row {
      assert log[n] == Recorded(c.row, log[n].cmdid, c.target, c.action);
    } else {
      var j :| c.issuedAt <= j < |log| && log[j].Recorded? && log[j].row == c.row;
      assert log[..n][j] == log[j];
      LatestIsFresh(log[..n], c);
      var k, id :| c.issuedAt <= k < n && id >= c.cmdid && log[..n][k] == Recorded(c.row, id, c.target, c.action);
      assert log[k] == Recorded(c.row, id, c.target, c.action);
    }
  }

  /** The latest record for the row is fresh exactly if there is one since the call began;
      if there is none, the row is as the call found it. */
  lemma FreshOrUnchanged(log: seq<Act>, c: Call)
    requires c.issuedAt <= |log|
    ensures Accepts(c, LastRecorded(log, c.row)) ==> (FreshAck(log, c) <==> RecordedSince(log, c))
    ensures !RecordedSince(log, c) ==> (Accepts(c, LastRecorded(log, c.row)) <==> StaleAck(log, c))
  {
    if RecordedSince(log, c) {
      if Accepts(c, LastRecorded(log, c.row)) { LatestIsFresh(log, c); }
    } else {
      WithoutRecordsNothingChanges(log, c);
    }
  }

  lemma LookDecides(s: Sys, c: nat, timedOut: bool)
    requires c < |s.calls| && s.calls[c].phase == Waiting && s.calls[c].row < MAX_DOORS
    ensures var s' := Next(s, Wake(c, timedOut));
            && c < |s'.calls|
            && (s'.calls[c].phase == Done(true) <==> Accepts(s.calls[c], s.hub.doors[s.calls[c].row].feedback))
  {
    assert Next(s, Wake(c, timedOut)).calls[c] == CallAfter(s, Wake(c, timedOut), c);
  }

  /** The look itself: in every run, a waiting call that looks succeeds exactly if the
      latest FEEDBACK recorded for its row satisfies it. If one was recorded since the call
      took its id, the success is by that one and fresh. If none was, the call succeeds
      exactly if its row satisfied it already when it began, and the success is stale. */
  lemma {:induction false} StaleAckExactly(es: seq<Event>, c: nat, timedOut: bool)
    requires c < |Exec(INIT_SYS, es).calls| && Exec(INIT_SYS, es).calls[c].phase == Waiting
    ensures var s := Exec(INIT_SYS, es);
            var call, s' := s.calls[c], Next(s, Wake(c, timedOut));
            && c < |s'.calls|
            && (s'.calls[c].phase == Done(true) <==> Accepts(call, LastRecorded(s.hub.log, call.row)))
            && (s'.calls[c].phase == Done(true) ==> (FreshAck(s.hub.log, call) <==> RecordedSince(s.hub.log, call)))
            && (!RecordedSince(s.hub.log, call) ==> (s'.calls[c].phase == Done(true) <==> StaleAck(s.hub.log, call)))
  {
    var s := Exec(INIT_SYS, es);
    SuccessIsExplained(es);
    RowCarriesLatest(es, s.calls[c].row);
    LookDecides(s, c, timedOut);
    FreshOrUnchanged(s.hub.log, s.calls[c]);
  }

  lemma RowCarriesLatest(es: seq<Event>, r: nat)
    requires r < MAX_DOORS
    ensures Mirrors(Exec(INIT_SYS, es).hub.doors[r], Exec(INIT_SYS, es).hub.log, r)
  {
    var inputs := HubPart(es);
    RunMirrors(inputs);
  }

  lemma InvokeAndTry(s: Sys, moduleId: string, target: string, action: string)
    requires Begin(s.hub, moduleId, target, action) != []
    ensures var c := |s.calls|;
            var s' := Next(Next(s, Invoke(moduleId, target, action)), Try(c, true, true));
            && |s'.calls| == c + 1 && s'.hub.doors == s.hub.doors
            && s'.calls[c] == Begin(s.hub, moduleId, target, action)[0].(phase := Waiting)
  {
    var c := |s.calls|;
    var s1 := Next(s, Invoke(moduleId, target, action));
    assert s1.calls[c] == Begin(s.hub, moduleId, target, action)[0] && s1.hub.doors == s.hub.doors;
    var s2 := Next(s1, Try(c, true, true));
    assert s2.calls[c] == CallAfter(s1, Try(c, true, true), c);
  }

  /** A call whose first command gets out and which meets no new FEEDBACK succeeds at its
      first look if and only if its module's row already carries that target and action
      under an id not below its own. */
  lemma {:induction false} StaleAtFirstLook(s: Sys, moduleId: string, target: string, action: string, timedOut: bool)
    requires Begin(s.hub, moduleId, target, action) != []
    ensures var c := |s.calls|;
            var s' := Next(Next(Next(s, Invoke(moduleId, target, action)), Try(c, true, true)), Wake(c, timedOut));
            var fb := s.hub.doors[FindDoor(s.hub.doors, moduleId)].feedback;
            c < |s'.calls| &&
            (s'.calls[c].phase == Done(true) <==>
                fb.cmdid >= s.hub.nextCmdid && fb.target == target && fb.action == action)
  {
    var c := |s.calls|;
    InvokeAndTry(s, moduleId, target, action);
    var s2 := Next(Next(s, Invoke(moduleId, target, action)), Try(c, true, true));
    assert Next(s2, Wake(c, timedOut)).calls[c] == CallAfter(s2, Wake(c, timedOut), c);
  }

  // ---------- what a caller can check before the call ----------

  lemma {:induction false} ExecAppend(s: Sys, a: seq<Event>, b: seq<Event>)
    ensures Exec(s, a + b) == Exec(Exec(s, a), b)
  {
    if b == [] {
      assert a + b == a;
    } else {
      assert (a + b)[..|a + b| - 1] == a + b[..|b| - 1];
      ExecAppend(s, a, b[..|b| - 1]);
    }
  }

  lemma {:induction false} ExecStep(s: Sys, es: seq<Event>, e: Event)
    ensures Exec(s, es + [e]) == Next(Exec(s, es), e)
  {
    assert (es + [e])[..|es|] == es;
  }

  ghost predicate AllValid(s: Sys) { forall k | 0 <= k < |s.calls| :: CallValid(s.calls[k]) }

  /** Call `c` stays the call it was, and the log only grows. */
  lemma {:induction false} CallIsCarried(s: Sys, es: seq<Event>, c: nat)
    requires c < |s.calls| && AllValid(s)
    ensures var t := Exec(s, es);
            AllValid(t) && c < |t.calls| && SameCall(s.calls[c], t.calls[c]) && s.hub.log <= t.hub.log
  {
    if es != [] {
      var t, e := Exec(s, es[..|es| - 1]), es[|es| - 1];
      CallIsCarried(s, es[..|es| - 1], c);
      CallsEvolve(t, e);
      LogGrows(t, e);
    }
  }

  /** The module's row would satisfy the call before it is even made. */
  predicate SatisfiedBefore(h: Hub, moduleId: string, target: string, action: string)
    requires FindDoor(h.doors, moduleId) < MAX_DOORS
  {
    var fb := h.doors[FindDoor(h.doors, moduleId)].feedback;
    fb.cmdid >= h.nextCmdid && fb.target == target && fb.action == action
  }

  /** In this run the last call, if it succeeded, did so by a FEEDBACK recorded since. */
  ghost predicate FreshIfSuccessful(s: Sys, c: nat)
  {
    c < |s.calls| && s.calls[c].phase == Done(true) ==> FreshAck(s.hub.log, s.calls[c])
  }

  lemma InvokeBegins(s: Sys, moduleId: string, target: string, action: string)
    requires Begin(s.hub, moduleId, target, action) != []
    ensures var s' := Next(s, Invoke(moduleId, target, action));
            && s'.calls == s.calls + Begin(s.hub, moduleId, target, action)
            && s'.hub.log == s.hub.log && s'.hub.doors == s.hub.doors
  {
  }

  /** An unsatisfied row at the start makes every later success fresh. */
  lemma FreshFromHere(es: seq<Event>, moduleId: string, target: string, action: string, more: seq<Event>)
    requires var h := Exec(INIT_SYS, es).hub;
             Begin(h, moduleId, target, action) != [] && !SatisfiedBefore(h, moduleId, target, action)
    ensures FreshIfSuccessful(Exec(INIT_SYS, es + [Invoke(moduleId, target, action)] + more),
            |Exec(INIT_SYS, es).calls|)
  {
    var s, invoke := Exec(INIT_SYS, es), Invoke(moduleId, target, action);
    var c, call := |s.calls|, Begin(s.hub, moduleId, target, action)[0];
    ExecStep(INIT_SYS, es, invoke);
    ExecAppend(INIT_SYS, es + [invoke], more);
    InvokeBegins(s, moduleId, target, action);
    IdsGrow(es + [invoke]);
    CallIsCarried(Next(s, invoke), more, c);
    SuccessIsExplained(es + [invoke] + more);
    var t := Exec(INIT_SYS, es + [invoke] + more);
    NotSatisfiedNotStale(es, call, t.hub.log, t.calls[c]);
  }

  lemma NotSatisfiedNotStale(es: seq<Event>, call: Call, log: seq<Act>, later: Call)
    requires var s := Exec(INIT_SYS, es);
             && call.row < MAX_DOORS && call.issuedAt == |s.hub.log| && s.hub.log <= log
             && !Accepts(call, s.hub.doors[call.row].feedback)
    requires SameCall(call, later)
    ensures !StaleAck(log, later)
  {
    RowCarriesLatest(es, call.row);
    assert log[..call.issuedAt] == Exec(INIT_SYS, es).hub.log;
  }

  /** A satisfied row lets the call succeed at its first look, with nothing recorded. */
  lemma StaleFromHere(s: Sys, moduleId: string, target: string, action: string, timedOut: bool)
    requires Begin(s.hub, moduleId, target, action) != [] && SatisfiedBefore(s.hub, moduleId, target, action)
    ensures var c := |s.calls|;
            var t := Next(Next(Next(s, Invoke(moduleId, target, action)), Try(c, true, true)), Wake(c, timedOut));
            |t.calls| == c + 1 && t.calls[c].phase == Done(true) && !FreshAck(t.hub.log, t.calls[c])
  {
    var c := |s.calls|;
    StaleAtFirstLook(s, moduleId, target, action, timedOut);
    InvokeAndTry(s, moduleId, target, action);
    var s1 := Next(s, Invoke(moduleId, target, action));
    var s2 := Next(s1, Try(c, true, true));
    assert s2.hub.log == s.hub.log + [Commanded(c, s1.calls[c].cmdid, s1.calls[c].dest, CommandLine(s1.calls[c]))];
    assert Next(s2, Wake(c, timedOut)).calls[c] == CallAfter(s2, Wake(c, timedOut), c);
  }

  lemma ExecThree(es: seq<Event>, a: Event, b: Event, c: Event)
    ensures Exec(INIT_SYS, es + [a] + ([b] + [c])) == Next(Next(Next(Exec(INIT_SYS, es), a), b), c)
  {
    ExecStep(INIT_SYS, es, a);
    ExecStep(INIT_SYS, es + [a], b);
    ExecStep(INIT_SYS, es + [a] + [b], c);
    assert es + [a] + ([b] + [c]) == es + [a] + [b] + [c];
  }

  lemma StaleContinuation(es: seq<Event>, moduleId: string, target: string, action: string) returns (more: seq<Event>)
    requires var h := Exec(INIT_SYS, es).hub;
             Begin(h, moduleId, target, action) != [] && SatisfiedBefore(h, moduleId, target, action)
    ensures !FreshIfSuccessful(Exec(INIT_SYS, es + [Invoke(moduleId, target, action)] + more),
            |Exec(INIT_SYS, es).calls|)
  {
    var s := Exec(INIT_SYS, es);
    var tries, wakes := Try(|s.calls|, true, true), Wake(|s.calls|, false);
    more := [tries] + [wakes];
    StaleFromHere(s, moduleId, target, action, false);
    ExecThree(es, Invoke(moduleId, target, action), tries, wakes);
  }

  /** Whatever happens after the call was made, it does not succeed by an old FEEDBACK. */
  ghost predicate AlwaysFresh(es: seq<Event>, invoke: Event)
  {
    forall more :: FreshIfSuccessful(Exec(INIT_SYS, es + [invoke] + more), |Exec(INIT_SYS, es).calls|)
  }

  /** What a caller can check before the call: every success of it will be fresh, whatever
      happens, if and only if its module's row does not satisfy it now. */
  lemma {:induction false} FreshExactly(es: seq<Event>, moduleId: string, target: string, action: string)
    requires Begin(Exec(INIT_SYS, es).hub, moduleId, target, action) != []
    ensures AlwaysFresh(es, Invoke(moduleId, target, action)) <==>
            !SatisfiedBefore(Exec(INIT_SYS, es).hub, moduleId, target, action)
  {
    if SatisfiedBefore(Exec(INIT_SYS, es).hub, moduleId, target, action) {
      var more := StaleContinuation(es, moduleId, target, action);
    } else {
      forall more
        ensures FreshIfSuccessful(Exec(INIT_SYS, es + [Invoke(moduleId, target, action)] + more),
                |Exec(INIT_SYS, es).calls|)
      {
        FreshFromHere(es, moduleId, target, action, more);
      }
    }
  }

  // ---------- runs in which only issued ids come back ----------

  /** Every FEEDBACK the hub records carries an id below the next one to be issued. */
  predicate Disciplined(es: seq<Event>)
  {
    es == [] ||
    var s, e := Exec(INIT_SYS, es[..|es| - 1]), es[|es| - 1];
    && Disciplined(es[..|es| - 1])
    && (e.HubDoes? ==>
        var ts := Handled(s.hub, e.i);
        ts != [] && IsRecorded(ts) ==> Atoi(ts[2]) < s.hub.nextCmdid)
  }

  ghost predicate RecordedBelow(log: seq<Act>, id: int)
  {
    forall a | a in log && a.Recorded? :: a.cmdid < id
  }

  ghost predicate CallsAreAhead(s: Sys)
  {
    && RecordedBelow(s.hub.log, s.hub.nextCmdid)
    && forall c | 0 <= c < |s.calls| ::
      s.calls[c].issuedAt <= |s.hub.log| && RecordedBelow(s.hub.log[..s.calls[c].issuedAt], s.calls[c].cmdid)
  }

  lemma ActsBelow(h: Hub, i: Input, id: int)
    requires var ts := Handled(h, i); ts != [] && IsRecorded(ts) ==> Atoi(ts[2]) < id
    ensures RecordedBelow(ActsOf(h, i), id)
  {
    match i {
      case Datagram(text, src, t) =>
        var ts := Handled(h, i);
        if ts != [] { LineBelow(RowFor(h.doors, ts[0]), ts, src, id); }
      case Tick(now) => SweepOnlyAlerts(h.doors, now);
      case Release(_) =>
      case IssueId =>
      case Transmit(_, _, _, _) =>
    }
  }

  lemma LineBelow(r: nat, ts: seq<string>, src: Addr, id: int)
    requires |ts| >= 2 && (IsRecorded(ts) ==> Atoi(ts[2]) < id)
    ensures RecordedBelow(LogOf(r, ts, src), id)
  {
  }

  lemma RecordsStayBelow(s: Sys, e: Event)
    requires RecordedBelow(s.hub.log, s.hub.nextCmdid)
    requires e.HubDoes? ==>
               var ts := Handled(s.hub, e.i);
               ts != [] && IsRecorded(ts) ==> Atoi(ts[2]) < s.hub.nextCmdid
    ensures RecordedBelow(Next(s, e).hub.log, s.hub.nextCmdid)
  {
    var ins := HubInput(s, e);
    if ins != [] {
      StepLogs(s.hub, ins[0]);
      ActsBelow(s.hub, ins[0], s.hub.nextCmdid);
    }
  }

  lemma StepStaysAhead(s: Sys, e: Event)
    requires CallsInOrder(s) && CallsAreAhead(s) && RecordedBelow(Next(s, e).hub.log, s.hub.nextCmdid)
    ensures CallsAreAhead(Next(s, e))
  {
    CallsEvolve(s, e);
    OnlyInvokeIssuesIds(s, e);
    LogGrows(s, e);
    var s' := Next(s, e);
    forall c | 0 <= c < |s'.calls|
      ensures s'.calls[c].issuedAt <= |s'.hub.log| &&
              RecordedBelow(s'.hub.log[..s'.calls[c].issuedAt], s'.calls[c].cmdid)
    {
      if c < |s.calls| { assert s'.hub.log[..s.calls[c].issuedAt] == s.hub.log[..s.calls[c].issuedAt]; }
    }
  }

  lemma {:induction false} DisciplinedCallsAreAhead(es: seq<Event>)
    requires Disciplined(es)
    ensures CallsAreAhead(Exec(INIT_SYS, es))
  {
    if es != [] {
      DisciplinedCallsAreAhead(es[..|es| - 1]);
      IdsGrow(es[..|es| - 1]);
      RecordsStayBelow(Exec(INIT_SYS, es[..|es| - 1]), es[|es| - 1]);
      StepStaysAhead(Exec(INIT_SYS, es[..|es| - 1]), es[|es| - 1]);
    }
  }

  lemma {:induction false} LastIsBelow(log: seq<Act>, row: nat, id: int)
    requires RecordedBelow(log, id) && id > 0
    ensures LastRecorded(log, row).cmdid < id
  {
    if log != [] { LastIsBelow(log[..|log| - 1], row, id); }
  }

  /** In such runs every success is fresh. */
  lemma {:induction false} AcknowledgementsAreFresh(es: seq<Event>)
    requires Disciplined(es)
    ensures var s := Exec(INIT_SYS, es);
            forall c | 0 <= c < |s.calls| && s.calls[c].phase == Done(true) :: FreshAck(s.hub.log, s.calls[c])
  {
    var s := Exec(INIT_SYS, es);
    SuccessIsExplained(es);
    DisciplinedCallsAreAhead(es);
    IdsArePositive(es);
    forall c | 0 <= c < |s.calls| && s.calls[c].phase == Done(true) ensures FreshAck(s.hub.log, s.calls[c]) {
      LastIsBelow(s.hub.log[..s.calls[c].issuedAt], s.calls[c].row, s.calls[c].cmdid);
    }
  }

  lemma {:induction false} IdsArePositive(es: seq<Event>)
    ensures var s := Exec(INIT_SYS, es);
            s.hub.nextCmdid == 1 + |s.calls| && forall c | 0 <= c < |s.calls| :: s.calls[c].cmdid > 0
  {
    if es != [] {
      var s, e := Exec(INIT_SYS, es[..|es| - 1]), es[|es| - 1];
      IdsArePositive(es[..|es| - 1]);
      IdsGrow(es[..|es| - 1]);
      CallsEvolve(s, e);
      OnlyInvokeIssuesIds(s, e);
    }
  }
}
