/** The door module's lock: lock, unlock and status commands over the motor and the
    distance sensor, and the FEEDBACK text each of them is answered with. */
module LockController {
  import opened Stepper

  const CLOSED_THRESHOLD_CM := 10
  const LOCKED_DEGREES := 180
  const UNLOCKED_DEGREES := 0

  datatype State = LOCKED | UNLOCKED | OPEN | UNKNOWN

  /** A sensor reading: -1 for an error, else a positive distance. */
  type Distance = d: int | d == -1 || d >= 1 witness 1

  datatype Led = LockSuccess | LockFailure | UnlockSuccess | UnlockFailure | DoorError

  datatype Report = Report(d0Open: bool, d1Locked: bool)

  /** What one command meets: the samples of the averaging loop, the single reading, the
      reading of the final report, and which motor steps succeed. */
  datatype Env = Env(samples: seq<Distance>, reading: Distance, reportReading: Distance, pinsOk: nat -> bool)

  datatype Lock = Lock(position: Position, lastKnown: State)

  /** Where a command leaves the lock, what it answers, and what it shows and reports. */
  datatype Outcome = Outcome(lock: Lock, state: State, leds: seq<Led>, reports: seq<Report>, pulses: seq<Pulse>)

  // ---------- averaging ----------

  function Valid(samples: seq<Distance>): (v: seq<Distance>)
    ensures forall d | d in v :: d >= 1
    ensures |v| <= |samples|
  {
    if samples == [] then []
    else Valid(samples[..|samples| - 1]) + if samples[|samples| - 1] == -1 then [] else [samples[|samples| - 1]]
  }

  function Sum(v: seq<int>): int
  {
    if v == [] then 0 else Sum(v[..|v| - 1]) + v[|v| - 1]
  }

  /** The mean of the valid samples, rounded down; -1 if there are none. */
  function Average(samples: seq<Distance>): int
  {
    var v := Valid(samples);
    if v == [] then -1 else Sum(v) / |v|
  }

  predicate Within(v: seq<int>, low: int, high: int) { forall i | 0 <= i < |v| :: low <= v[i] <= high }

  lemma {:induction false} SumBounds(v: seq<int>, low: int, high: int)
    requires Within(v, low, high)
    ensures low * |v| <= Sum(v) <= high * |v|
  {
    if v != [] {
      var n := |v| - 1;
      SumBounds(v[..n], low, high);
      assert low * (n + 1) == low * n + low && high * (n + 1) == high * n + high;
    }
  }

  lemma Quotient(s: int, n: nat, low: int, high: int)
    requires n > 0
    ensures low * n <= s ==> low <= s / n
    ensures s <= high * n ==> s / n <= high
  {
    var q := s / n;
    assert q * n <= s < q * n + n;
    if q < low { Monotone(q + 1, low, n); }
    if q > high { Monotone(high + 1, q, n); }
  }

  lemma Monotone(a: int, b: int, n: nat)
    requires a <= b
    ensures a * n <= b * n
  {
  }

  /** The average lies between the valid samples. */
  lemma {:induction false} AverageIsBetween(samples: seq<Distance>, low: int, high: int)
    requires Within(Valid(samples), low, high)
    ensures Valid(samples) != [] ==> low <= Average(samples) <= high
  {
    var v := Valid(samples);
    if v != [] {
      SumBounds(v, low, high);
      Quotient(Sum(v), |v|, low, high);
    }
  }

  function Max(v: seq<int>): (m: int)
    ensures forall i | 0 <= i < |v| :: v[i] <= m
  {
    if v == [] then 0 else if v[0] > Max(v[1..]) then v[0] else Max(v[1..])
  }

  /** It is -1 exactly if there are none, and positive otherwise. */
  lemma {:induction false} AverageOrError(samples: seq<Distance>)
    ensures if Valid(samples) == [] then Average(samples) == -1 else Average(samples) >= 1
  {
    var v := Valid(samples);
    assert Within(v, 1, Max(v)) by { forall i | 0 <= i < |v| ensures v[i] >= 1 { assert v[i] in v; } }
    AverageIsBetween(samples, 1, Max(v));
  }

  // ---------- what the average is ----------

  /** How many samples are valid, and their total. */
  function Count(samples: seq<Distance>): nat { |Valid(samples)| }

  function Total(samples: seq<Distance>): int { Sum(Valid(samples)) }

  lemma {:induction false} ValidAppend(a: seq<Distance>, b: seq<Distance>)
    ensures Valid(a + b) == Valid(a) + Valid(b)
  {
    if b == [] {
      assert a + b == a;
    } else {
      assert (a + b)[..|a + b| - 1] == a + b[..|b| - 1];
      ValidAppend(a, b[..|b| - 1]);
    }
  }

  lemma {:induction false} SumAppend(a: seq<int>, b: seq<int>)
    ensures Sum(a + b) == Sum(a) + Sum(b)
  {
    if b == [] {
      assert a + b == a;
    } else {
      assert (a + b)[..|a + b| - 1] == a + b[..|b| - 1];
      SumAppend(a, b[..|b| - 1]);
    }
  }

  /** Count and total are additive; an error adds nothing, a reading adds one and itself. */
  lemma {:induction false} TotalsAdd(a: seq<Distance>, b: seq<Distance>, d: Distance)
    ensures Count(a + b) == Count(a) + Count(b) && Total(a + b) == Total(a) + Total(b)
    ensures d == -1 ==> Count([d]) == 0 && Total([d]) == 0
    ensures d != -1 ==> Count([d]) == 1 && Total([d]) == d
    ensures Count([]) == 0 && Total([]) == 0
  {
    ValidAppend(a, b);
    SumAppend(Valid(a), Valid(b));
    assert [d][..0] == [];
    if d != -1 {
      var one: seq<int> := [d];
      assert one[..0] == [] && Sum(one) == d;
      assert Valid([d]) == one;
    }
  }

  lemma DivisionBounds(t: int, n: nat)
    requires n > 0
    ensures t / n * n <= t < (t / n + 1) * n
  {
  }

  /** The average is the largest whole number that, taken once for each valid sample, does
      not exceed their total; without valid samples it is the error mark. */
  lemma {:induction false} AverageExactly(samples: seq<Distance>)
    ensures var n, t, a := Count(samples), Total(samples), Average(samples);
            if n == 0 then a == -1 else a * n <= t < (a + 1) * n
  {
    var v := Valid(samples);
    if v != [] { DivisionBounds(Sum(v), |v|); }
  }

  function Without(b: seq<Distance>, k: nat): seq<Distance>
    requires k < |b|
  {
    b[..k] + b[k + 1..]
  }

  lemma SameWithout(b: seq<Distance>, k: nat)
    requires k < |b|
    ensures multiset(Without(b, k)) == multiset(b) - multiset{b[k]}
  {
    assert b == b[..k] + [b[k]] + b[k + 1..];
  }

  lemma Parted(b: seq<Distance>, k: nat)
    requires k < |b|
    ensures b == b[..k] + [b[k]] + b[k + 1..]
  {
  }

  lemma TotalsOfParts(a: seq<Distance>, d: Distance, b: seq<Distance>)
    ensures Count(a + [d] + b) == Count([d]) + Count(a + b) && Total(a + [d] + b) == Total([d]) + Total(a + b)
  {
    TotalsAdd(a + [d], b, d);
    TotalsAdd(a, [d], d);
    TotalsAdd(a, b, d);
  }

  lemma TotalsWithout(b: seq<Distance>, k: nat)
    requires k < |b|
    ensures Count(b) == Count([b[k]]) + Count(Without(b, k)) && Total(b) == Total([b[k]]) + Total(Without(b, k))
  {
    Parted(b, k);
    TotalsOfParts(b[..k], b[k], b[k + 1..]);
  }

  lemma {:induction false} TotalsAreOrderless(a: seq<Distance>, b: seq<Distance>)
    requires multiset(a) == multiset(b)
    ensures Count(a) == Count(b) && Total(a) == Total(b)
    decreases |a|
  {
    if a == [] {
      assert |b| == |multiset(b)| == 0;
    } else {
      assert a[0] in multiset(b);
      var k :| 0 <= k < |b| && b[k] == a[0];
      SameWithout(a, 0);
      SameWithout(b, k);
      TotalsWithout(a, 0);
      TotalsWithout(b, k);
      TotalsAreOrderless(Without(a, 0), Without(b, k));
    }
  }

  /** The order of the samples does not matter. */
  lemma {:induction false} AverageIsOrderless(a: seq<Distance>, b: seq<Distance>)
    requires multiset(a) == multiset(b)
    ensures Average(a) == Average(b)
  {
    TotalsAreOrderless(a, b);
  }

  /** One close reading among others does not make an open door look closed. */
  lemma {:induction false} FiveAndThirty()
    ensures Average([5, 30]) == 17
  {
    TotalsAdd([5], [30], 5);
    TotalsAdd([], [], 30);
    assert [5, 30] == [5] + [30];
    AverageExactly([5, 30]);
  }

  lemma OneMoreSample(samples: seq<Distance>, i: nat)
    requires i < |samples|
    ensures var v, w := Valid(samples[..i]), Valid(samples[..i + 1]);
            && |w| == |v| + (if samples[i] == -1 then 0 else 1)
            && Sum(w) == Sum(v) + (if samples[i] == -1 then 0 else samples[i])
  {
    assert samples[..i + 1][..i] == samples[..i];
    var v, w := Valid(samples[..i]), Valid(samples[..i + 1]);
    if samples[i] != -1 {
      assert w == v + [samples[i]];
      assert w[..|v|] == v;
    } else {
      assert w == v;
    }
  }

  // ---------- the commands ----------

  /** The report at the end of every command: skipped when the sensor fails. */
  function Reported(lock: Lock, state: State, env: Env, leds: seq<Led>, pulses: seq<Pulse>): Outcome
  {
    if env.reportReading == -1 then Outcome(lock, state, leds, [], pulses)
    else Outcome(lock.(lastKnown := state), state, leds,
                 [Report(env.reportReading >= CLOSED_THRESHOLD_CM, Degrees(lock.position) == 180)], pulses)
  }

  function Turned(lock: Lock, d: int, env: Env): Lock
  {
    lock.(position := Advance(lock.position, Moved(d, lock.position, env.pinsOk)))
  }

  function TurnPulses(lock: Lock, d: int, env: Env): seq<Pulse>
  {
    Pulses(lock.position, Moved(d, lock.position, env.pinsOk))
  }

  function LockDoor(lock: Lock, state: State, env: Env): Outcome
  {
    var dist := Average(env.samples);
    if Degrees(lock.position) == 180 then Reported(lock, state, env, [], [])
    else if dist >= CLOSED_THRESHOLD_CM then Reported(lock, OPEN, env, [LockFailure], [])
    else if dist == -1 then Reported(lock, UNKNOWN, env, [DoorError], [])
    else
      var ok := Arrives(LOCKED_DEGREES, lock.position, env.pinsOk);
      Reported(Turned(lock, LOCKED_DEGREES, env), if ok then LOCKED else state, env,
               [if ok then LockSuccess else LockFailure], TurnPulses(lock, LOCKED_DEGREES, env))
  }

  function UnlockDoor(lock: Lock, state: State, env: Env): Outcome
  {
    if Degrees(lock.position) == 0 then Reported(lock, state, env, [], [])
    else if lock.lastKnown == LOCKED || Degrees(lock.position) == LOCKED_DEGREES then
      var ok := Arrives(UNLOCKED_DEGREES, lock.position, env.pinsOk);
      Reported(Turned(lock, UNLOCKED_DEGREES, env), if ok then UNLOCKED else state, env,
               [if ok then UnlockSuccess else UnlockFailure], TurnPulses(lock, UNLOCKED_DEGREES, env))
    else if env.reading >= CLOSED_THRESHOLD_CM then Reported(lock, OPEN, env, [UnlockFailure], [])
    else Reported(lock, UNLOCKED, env, [UnlockSuccess], [])
  }

  function DoorStatus(lock: Lock, state: State, env: Env): Outcome
  {
    if Degrees(lock.position) == LOCKED_DEGREES then Reported(lock, LOCKED, env, [], [])
    else if env.reading == -1 then Reported(lock, state, env, [DoorError], [])
    else Reported(lock, if env.reading < CLOSED_THRESHOLD_CM then UNLOCKED else OPEN, env, [], [])
  }

  function StateText(s: State): string
  {
    match s
    case LOCKED => "LOCKED"
    case UNLOCKED => "UNLOCKED"
    case OPEN => "OPEN"
    case UNKNOWN => "UNKNOWN"
  }

  /** What a COMMAND with this action does: every handler starts from UNKNOWN. */
  function Perform(lock: Lock, action: string, env: Env): Outcome
  {
    if action == "LOCK" then LockDoor(lock, UNKNOWN, env)
    else if action == "UNLOCK" then UnlockDoor(lock, UNKNOWN, env)
    else if action == "STATUS" then DoorStatus(lock, UNKNOWN, env)
    else Outcome(lock, UNKNOWN, [], [], [])
  }

  /** The action text of the FEEDBACK. */
  function Answer(lock: Lock, action: string, env: Env): string
  {
    if action == "STATUS" then "STATUS_" + StateText(DoorStatus(lock, UNKNOWN, env).state) else action
  }

  /** The module as it runs. */
  class Controller {
    const motor: Motor
    var lastKnown: State
    ghost var leds: seq<Led>

    ghost function Abs(): Lock
      reads this, motor
    {
      Lock(motor.position, lastKnown)
    }

    /** The controller went through outcome `o` since it was as given. */
    ghost predicate Went(o: Outcome, leds0: seq<Led>, pulses0: seq<Pulse>)
      reads this, motor
    {
      Abs() == o.lock && leds == leds0 + o.leds && motor.pulses == pulses0 + o.pulses
    }

    constructor ()
      ensures Abs() == Lock(0, UNKNOWN) && fresh(motor) && leds == [] && motor.pulses == []
    {
      motor := new Motor();
      lastKnown, leds := UNKNOWN, [];
    }

    method AvgDistanceSample(samples: seq<Distance>) returns (avg: int)
      ensures avg == Average(samples)
    {
      var total: int, count: int := 0, 0;
      for i := 0 to |samples|
        invariant total == Sum(Valid(samples[..i])) && count == |Valid(samples[..i])|
      {
        OneMoreSample(samples, i);
        if samples[i] != -1 {
          total := total + samples[i];
          count := count + 1;
        }
      }
      assert samples[..|samples|] == samples;
      if count == 0 {
        return -1;
      }
      return total / count;
    }

    /** What goes to door_udp_update, if anything does. */
    method ReportState(state: State, distance: Distance) returns (report: seq<Report>)
      modifies this`lastKnown
      ensures lastKnown == if distance == -1 then old(lastKnown) else state
      ensures report ==
              if distance == -1 then [] else [Report(distance >= CLOSED_THRESHOLD_CM, Degrees(motor.position) == 180)]
    {
      if distance == -1 {
        return [];
      }
      var degrees := motor.GetPosition();
      report := [Report(distance >= CLOSED_THRESHOLD_CM, degrees == 180)];
      lastKnown := state;
    }

    method RunLock(state0: State, env: Env) returns (state: State, report: seq<Report>)
      modifies this, motor
      ensures var o := LockDoor(old(Abs()), state0, env);
              state == o.state && report == o.reports && Went(o, old(leds), old(motor.pulses))
    {
      state := state0;
      var dist := AvgDistanceSample(env.samples);
      var degrees := motor.GetPosition();
      if degrees != 180 {
        if dist >= CLOSED_THRESHOLD_CM {
          state := OPEN;
          leds := leds + [LockFailure];
        } else if dist == -1 {
          state := UNKNOWN;
          leds := leds + [DoorError];
        } else if dist < CLOSED_THRESHOLD_CM {
          var ok := motor.Rotate(180, env.pinsOk);
          if ok {
            state := LOCKED;
            leds := leds + [LockSuccess];
          } else {
            leds := leds + [LockFailure];
          }
        }
      }
      report := ReportState(state, env.reportReading);
    }

    method RunUnlock(state0: State, env: Env) returns (state: State, report: seq<Report>)
      modifies this, motor
      ensures var o := UnlockDoor(old(Abs()), state0, env);
              state == o.state && report == o.reports && Went(o, old(leds), old(motor.pulses))
    {
      state := state0;
      var degrees := motor.GetPosition();
      if degrees != 0 {
        var lastWasLocked := lastKnown == LOCKED;
        if lastWasLocked || degrees == LOCKED_DEGREES {
          var ok := motor.Rotate(UNLOCKED_DEGREES, env.pinsOk);
          if ok {
            state := UNLOCKED;
            leds := leds + [UnlockSuccess];
          } else {
            leds := leds + [UnlockFailure];
          }
        } else if env.reading >= CLOSED_THRESHOLD_CM {
          state := OPEN;
          leds := leds + [UnlockFailure];
        } else {
          state := UNLOCKED;
          leds := leds + [UnlockSuccess];
        }
      }
      report := ReportState(state, env.reportReading);
    }

    method RunStatus(state0: State, env: Env) returns (state: State, report: seq<Report>)
      modifies this, motor
      ensures var o := DoorStatus(old(Abs()), state0, env);
              state == o.state && report == o.reports && Went(o, old(leds), old(motor.pulses))
    {
      state := state0;
      var degrees := motor.GetPosition();
      if degrees == LOCKED_DEGREES {
        state := LOCKED;
      } else if env.reading < CLOSED_THRESHOLD_CM && env.reading != -1 {
        state := UNLOCKED;
      } else if env.reading == -1 {
        leds := leds + [DoorError];
      } else {
        state := OPEN;
      }
      report := ReportState(state, env.reportReading);
    }

    /** The handler behind every COMMAND: act, then say what goes into the FEEDBACK. */
    method HandleCommand(action: string, env: Env) returns (answer: string, report: seq<Report>)
      modifies this, motor
      ensures answer == Answer(old(Abs()), action, env)
      ensures var o := Perform(old(Abs()), action, env);
              report == o.reports && Went(o, old(leds), old(motor.pulses))
    {
      answer, report := action, [];
      var state := UNKNOWN;
      if action == "LOCK" {
        state, report := RunLock(UNKNOWN, env);
      } else if action == "UNLOCK" {
        state, report := RunUnlock(UNKNOWN, env);
      } else if action == "STATUS" {
        state, report := RunStatus(UNKNOWN, env);
        answer := "STATUS_" + StateText(state);
      }
    }
  }

  // ---------- safety over whole runs ----------

  datatype Request = Request(action: string, env: Env)

  function AfterAll(lock: Lock, rs: seq<Request>): Lock
  {
    if rs == [] then lock
    else Perform(AfterAll(lock, rs[..|rs| - 1]), rs[|rs| - 1].action, rs[|rs| - 1].env).lock
  }

  /** No pin write fails. */
  ghost predicate Smooth(env: Env) { forall k: nat :: env.pinsOk(k) }

  ghost predicate AllSmooth(rs: seq<Request>) { forall r | r in rs :: Smooth(r.env) }

  predicate AtRest(p: Position) { p == 0 || p == 2048 }

  lemma Targets()
    ensures TargetSteps(0) == 0 && TargetSteps(180) == 2048
    ensures StepsNeeded(0, 0) == 0 && StepsNeeded(180, 0) == 2048 && StepsNeeded(0, 2048) == 2048 &&
            StepsNeeded(180, 2048) == 0
  {
  }

  lemma SmoothTurn(lock: Lock, d: int, env: Env)
    requires Smooth(env) && AtRest(lock.position) && (d == 0 || d == 180)
    ensures Arrives(d, lock.position, env.pinsOk)
    ensures Turned(lock, d, env).position == if d == 0 then 0 else 2048
  {
    Targets();
    var n := StepsNeeded(d, lock.position);
    assert Completed(env.pinsOk, n) == n;
    assert Advance(lock.position, n) == if d == 0 then 0 else 2048;
  }

  lemma PulsesInPhase(from: Position, k: nat)
    requires AtRest(from)
    ensures forall p | p in Pulses(from, k) :: p.pattern == p.position % 8
  {
    if k > 0 { CoilPhase(from, k); }
  }

  /** One command on a motor at rest: it is at rest again; it leaves 0 only for a LOCK
      whose average is valid and below 10, and 2048 only for an UNLOCK; and the coils
      match the position at every step. */
  lemma {:induction false} CommandIsSafe(lock: Lock, action: string, env: Env)
    requires AtRest(lock.position) && Smooth(env)
    ensures var o := Perform(lock, action, env);
            && AtRest(o.lock.position)
            && (lock.position == 0 ==>
                 (o.lock.position == 2048 <==> action == "LOCK" && 1 <= Average(env.samples) < 10))
            && (lock.position == 2048 ==> (o.lock.position == 0 <==> action == "UNLOCK"))
            && forall p | p in o.pulses :: p.pattern == p.position % 8
  {
    LockedBand(lock.position);
    SmoothTurn(lock, LOCKED_DEGREES, env);
    SmoothTurn(lock, UNLOCKED_DEGREES, env);
    PulsesInPhase(lock.position, Moved(LOCKED_DEGREES, lock.position, env.pinsOk));
    PulsesInPhase(lock.position, Moved(UNLOCKED_DEGREES, lock.position, env.pinsOk));
    AverageOrError(env.samples);
    assert "LOCK" != "UNLOCK" && "LOCK" != "STATUS" && "UNLOCK"[0] != "STATUS"[0];
  }

  /** In every run of commands without a pin failure the motor rests at 0 or 2048 after
      each, and each obeys CommandIsSafe. */
  lemma {:induction false} RunsAreSafe(lock: Lock, rs: seq<Request>)
    requires AtRest(lock.position) && AllSmooth(rs)
    ensures AtRest(AfterAll(lock, rs).position)
    ensures rs != [] ==>
              var before, last := AfterAll(lock, rs[..|rs| - 1]), rs[|rs| - 1];
              && (before.position == 0 && AfterAll(lock, rs).position == 2048 ==>
                   last.action == "LOCK" && 1 <= Average(last.env.samples) < 10)
              && (before.position == 2048 && AfterAll(lock, rs).position == 0 ==> last.action == "UNLOCK")
              && forall p | p in Perform(before, last.action, last.env).pulses :: p.pattern == p.position % 8
  {
    if rs != [] {
      RunsAreSafe(lock, rs[..|rs| - 1]);
      assert rs[|rs| - 1] in rs;
      CommandIsSafe(AfterAll(lock, rs[..|rs| - 1]), rs[|rs| - 1].action, rs[|rs| - 1].env);
    }
  }

  /** In every state, after pin failures too: STATUS is answered with STATUS_LOCKED
      exactly when the motor stands on one of the positions 2048 to 2059. */
  lemma {:induction false} StatusLockedExactly(lock: Lock, env: Env)
    ensures Answer(lock, "STATUS", env) == "STATUS_LOCKED" <==> 2048 <= lock.position <= 2059
  {
    LockedBand(lock.position);
    var s := DoorStatus(lock, UNKNOWN, env).state;
    if s == LOCKED {
      assert Answer(lock, "STATUS", env) == "STATUS_LOCKED";
    } else {
      assert |StateText(s)| != 6;
      assert |"STATUS_" + StateText(s)| == 7 + |StateText(s)| && |"STATUS_LOCKED"| == 13;
    }
  }

  /** What a STATUS answers and what it reports to the hub agree on the lock. */
  lemma {:induction false} AnswerAgreesWithReport(lock: Lock, env: Env)
    ensures forall r | r in DoorStatus(lock, UNKNOWN, env).reports ::
              r.d1Locked <==> Answer(lock, "STATUS", env) == "STATUS_LOCKED"
  {
    StatusLockedExactly(lock, env);
    LockedBand(lock.position);
  }

  /** Fewer steps than needed stop before the target, on one side of it or the other. */
  lemma StopsBefore(from: Position, target: Position, k: nat)
    requires from <= target ==> k < target - from
    requires from > target ==> k < target - from + STEPS_PER_REV
    ensures from <= target ==> from <= Advance(from, k) < target
    ensures from > target ==> Advance(from, k) >= from || Advance(from, k) < target
  {
    if from + k < STEPS_PER_REV {
      assert Advance(from, k) == from + k;
    } else {
      assert Advance(from, k) == from + k - STEPS_PER_REV;
    }
  }

  lemma StepsToGo(d: int, from: Position)
    requires d == 0 || d == 180
    ensures var target := if d == 0 then 0 else 2048;
            StepsNeeded(d, from) == if from <= target then target - from else target - from + STEPS_PER_REV
  {
    assert TargetSteps(0) == 0 && TargetSteps(180) == 2048;
  }

  /** A rotation that does not arrive leaves the motor on none of the positions that read
      as its target, provided it began on none of them. */
  lemma ShortStopMisses(d: int, from: Position, pinsOk: nat -> bool)
    requires (d == 0 || d == 180) && Degrees(from) != d && !Arrives(d, from, pinsOk)
    ensures Degrees(Advance(from, Moved(d, from, pinsOk))) != d
  {
    var target, k := if d == 0 then 0 else 2048, Moved(d, from, pinsOk);
    StepsToGo(d, from);
    StopsBefore(from, target, k);
    LockedBand(from);
    LockedBand(Advance(from, k));
  }

  /** The turn of a command: it ends on its target exactly if every pin could be set. */
  lemma TurnObeys(d: int, from: Position, pinsOk: nat -> bool)
    requires (d == 0 || d == 180) && Degrees(from) != d
    ensures Degrees(Advance(from, Moved(d, from, pinsOk))) == d <==> Arrives(d, from, pinsOk)
  {
    if Arrives(d, from, pinsOk) {
      RotationLands(d, from, pinsOk);
      ReadBack(d);
    } else {
      ShortStopMisses(d, from, pinsOk);
    }
  }

  /** A LOCK is always answered with LOCK. In every state and whatever fails, the door is
      locked afterwards exactly if it was before, or if the averaged sample was valid and
      below 10 and the motor could take every step. */
  lemma {:induction false} LockIsObeyedExactly(lock: Lock, env: Env)
    ensures Answer(lock, "LOCK", env) == "LOCK"
    ensures Degrees(Perform(lock, "LOCK", env).lock.position) == 180 <==>
            || 2048 <= lock.position <= 2059
            || (1 <= Average(env.samples) < CLOSED_THRESHOLD_CM && Arrives(LOCKED_DEGREES, lock.position, env.pinsOk))
  {
    assert "LOCK" != "STATUS";
    LockedBand(lock.position);
    AverageOrError(env.samples);
    if Degrees(lock.position) != 180 { TurnObeys(LOCKED_DEGREES, lock.position, env.pinsOk); }
  }

  /** An UNLOCK is always answered with UNLOCK. The door is unlocked afterwards exactly if
      it was before, or if the door was last known or is read as locked and the motor could
      take every step. */
  lemma {:induction false} UnlockIsObeyedExactly(lock: Lock, env: Env)
    ensures Answer(lock, "UNLOCK", env) == "UNLOCK"
    ensures Degrees(Perform(lock, "UNLOCK", env).lock.position) == 0 <==>
            || lock.position <= 11
            || ((lock.lastKnown == LOCKED || 2048 <= lock.position <= 2059) &&
                Arrives(UNLOCKED_DEGREES, lock.position, env.pinsOk))
  {
    assert "UNLOCK"[0] != "STATUS"[0] && "UNLOCK" != "LOCK";
    LockedBand(lock.position);
    if Degrees(lock.position) != 0 { TurnObeys(UNLOCKED_DEGREES, lock.position, env.pinsOk); }
  }

  /** After a rotation that stopped short, UNLOCK may claim the door is unlocked without
      moving the motor. This is exactly when. */
  lemma {:induction false} UnlocksWithoutMovingExactly(lock: Lock, env: Env)
    ensures var o := UnlockDoor(lock, UNKNOWN, env);
            o.state == UNLOCKED && o.lock.position == lock.position <==>
              && lock.lastKnown != LOCKED && lock.position > 11 && !(2048 <= lock.position <= 2059)
              && env.reading < 10
  {
    LockedBand(lock.position);
    if lock.position > 11 && Arrives(UNLOCKED_DEGREES, lock.position, env.pinsOk) {
      RotationLands(UNLOCKED_DEGREES, lock.position, env.pinsOk);
    }
  }

  /** It happens from the start: a LOCK on a closed door stops after 1000 steps; the UNLOCK
      after it turns nothing, yet ends UNLOCKED with the success light, at 87 degrees. */
  lemma {:induction false} UnlocksWithoutMoving(lockEnv: Env, unlockEnv: Env)
    requires lockEnv.samples == [5] && lockEnv.reportReading == 5 && unlockEnv.reading == 5
    requires forall k: nat :: lockEnv.pinsOk(k) <==> k < 1000
    ensures var short := Perform(Lock(0, UNKNOWN), "LOCK", lockEnv);
            var claimed := Perform(short.lock, "UNLOCK", unlockEnv);
            && short.lock.position == claimed.lock.position == 1000
            && claimed.state == UNLOCKED && claimed.leds == [UnlockSuccess]
            && Degrees(claimed.lock.position) == 87
  {
    Targets();
    var k := Completed(lockEnv.pinsOk, 2048);
    assert k == 1000 by { assert !lockEnv.pinsOk(1000); }
    assert Valid([5]) == [5] by { assert [5][..0] == []; }
    assert Average(lockEnv.samples) == 5 by { assert [5][..0] == []; }
    var short := LockDoor(Lock(0, UNKNOWN), UNKNOWN, lockEnv);
    assert short.lock.position == 1000 && short.lock.lastKnown == UNKNOWN;
    assert "LOCK" != "UNLOCK";
  }

  // ---------- what each command says and shows ----------

  /** STATUS in full: the step position comes first, then the single reading. */
  lemma {:induction false} StatusExactly(lock: Lock, env: Env)
    ensures var a := Answer(lock, "STATUS", env);
            if 2048 <= lock.position <= 2059 then a == "STATUS_LOCKED"
            else if env.reading == -1 then a == "STATUS_UNKNOWN"
            else if env.reading < 10 then a == "STATUS_UNLOCKED"
            else a == "STATUS_OPEN"
  {
    LockedBand(lock.position);
    assert "STATUS_" + "LOCKED" == "STATUS_LOCKED" && "STATUS_" + "UNLOCKED" == "STATUS_UNLOCKED";
    assert "STATUS_" + "OPEN" == "STATUS_OPEN" && "STATUS_" + "UNKNOWN" == "STATUS_UNKNOWN";
  }

  /** STATUS moves nothing, and what it answers is what it remembers, if it reports. */
  lemma {:induction false} StatusIsRemembered(lock: Lock, env: Env)
    ensures var o := Perform(lock, "STATUS", env);
            && o.lock.position == lock.position
            && (env.reportReading == -1 ==> o.lock.lastKnown == lock.lastKnown)
            && (env.reportReading != -1 ==>
                 && (o.lock.lastKnown == LOCKED <==> Answer(lock, "STATUS", env) == "STATUS_LOCKED")
                 && (o.lock.lastKnown == UNLOCKED <==> Answer(lock, "STATUS", env) == "STATUS_UNLOCKED")
                 && (o.lock.lastKnown == OPEN <==> Answer(lock, "STATUS", env) == "STATUS_OPEN")
                 && (o.lock.lastKnown == UNKNOWN <==> Answer(lock, "STATUS", env) == "STATUS_UNKNOWN"))
  {
    StatusExactly(lock, env);
    LockedBand(lock.position);
    assert |"STATUS_LOCKED"| == 13 && |"STATUS_UNLOCKED"| == 15 && |"STATUS_OPEN"| == 11 && |"STATUS_UNKNOWN"| == 14;
    assert "STATUS"[0] == 'S' && "LOCK"[0] == 'L' && "UNLOCK"[0] == 'U';
  }

  /** Every command ends with a report unless the sensor fails then: door open from 10 on,
      locked by where the motor stands at the end. */
  lemma {:induction false} CommandsReport(lock: Lock, action: string, env: Env)
    ensures var o := Perform(lock, action, env);
            if action != "LOCK" && action != "UNLOCK" && action != "STATUS" then
              o.reports == [] && o.lock == lock && o.leds == [] && o.pulses == [] && Answer(lock, action, env) == action
            else if env.reportReading == -1 then o.reports == [] && o.lock.lastKnown == lock.lastKnown
            else
              && |o.reports| == 1 && o.lock.lastKnown == o.state
              && (o.reports[0].d0Open <==> env.reportReading >= 10)
              && (o.reports[0].d1Locked <==> 2048 <= o.lock.position <= 2059)
  {
    LockedBand(Perform(lock, action, env).lock.position);
  }

  /** What LOCK shows and remembers: nothing if the motor reads 180 already; failure and
      OPEN on an open door; the error light on a failed sensor; else success or failure as
      the motor arrives or not. */
  lemma {:induction false} LockShows(lock: Lock, env: Env)
    ensures var o := Perform(lock, "LOCK", env);
            if 2048 <= lock.position <= 2059 then o.leds == [] && o.state == UNKNOWN
            else if Average(env.samples) >= 10 then o.leds == [LockFailure] && o.state == OPEN
            else if Average(env.samples) == -1 then o.leds == [DoorError] && o.state == UNKNOWN
            else if 2048 <= o.lock.position <= 2059 then o.leds == [LockSuccess] && o.state == LOCKED
            else o.leds == [LockFailure] && o.state == UNKNOWN
  {
    LockedBand(lock.position);
    LockedBand(Perform(lock, "LOCK", env).lock.position);
    AverageOrError(env.samples);
    if Degrees(lock.position) != 180 { TurnObeys(LOCKED_DEGREES, lock.position, env.pinsOk); }
  }

  /** What UNLOCK shows and remembers, likewise. */
  lemma {:induction false} UnlockShows(lock: Lock, env: Env)
    ensures var o := Perform(lock, "UNLOCK", env);
            if lock.position <= 11 then o.leds == [] && o.state == UNKNOWN
            else if lock.lastKnown == LOCKED || 2048 <= lock.position <= 2059 then
              if o.lock.position <= 11 then o.leds == [UnlockSuccess] && o.state == UNLOCKED
              else o.leds == [UnlockFailure] && o.state == UNKNOWN
            else if env.reading >= 10 then o.leds == [UnlockFailure] && o.state == OPEN
            else o.leds == [UnlockSuccess] && o.state == UNLOCKED
  {
    assert "UNLOCK" != "LOCK" by { assert |"UNLOCK"| == 6 && |"LOCK"| == 4; }
    LockedBand(lock.position);
    LockedBand(Perform(lock, "UNLOCK", env).lock.position);
    if Degrees(lock.position) != 0 { TurnObeys(UNLOCKED_DEGREES, lock.position, env.pinsOk); }
  }
}
