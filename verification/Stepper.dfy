/** The stepper motor: a position in half-steps that only moves forward, modulo one
    revolution of 4096, and may stop short when a pin cannot be written. */
module Stepper {

  const STEPS_PER_REV := 4096

  /** One coil pattern set, by its index in the half-step sequence, and the position the
      motor had at that moment. */
  datatype Pulse = Pulse(pattern: nat, position: nat)

  type Position = p: nat | p < STEPS_PER_REV

  predicate ValidDegrees(d: int) { 0 <= d <= 360 }

  function TargetSteps(d: int): nat
    requires ValidDegrees(d)
  {
    (d * STEPS_PER_REV + 180) / 360
  }

  function StepsNeeded(d: int, from: Position): nat
    requires ValidDegrees(d)
  {
    (TargetSteps(d) - from + STEPS_PER_REV) % STEPS_PER_REV
  }

  function Degrees(p: Position): nat { p * 360 / STEPS_PER_REV }

  function Advance(from: Position, steps: nat): Position { (from + steps) % STEPS_PER_REV }

  /** Steps completed before the first pin failure among the first `n` tries. */
  function Completed(pinsOk: nat -> bool, n: nat): (k: nat)
    ensures k <= n && (forall i: nat | i < k :: pinsOk(i)) && (k < n ==> !pinsOk(k))
  {
    if n == 0 then 0
    else
      var k := Completed(pinsOk, n - 1);
      if k < n - 1 then k else if pinsOk(n - 1) then n else n - 1
  }

  /** The patterns of the first `k` steps: the sequence starts over with every rotation. */
  function Pulses(from: Position, k: nat): (ps: seq<Pulse>)
    ensures |ps| == k
  {
    seq(k, i requires 0 <= i < k => Pulse(i % 8, Advance(from, i)))
  }

  lemma OneMoreStep(from: Position, k: nat)
    ensures Pulses(from, k + 1) == Pulses(from, k) + [Pulse(k % 8, Advance(from, k))]
    ensures Advance(from, k + 1) == (Advance(from, k) + 1) % STEPS_PER_REV
    ensures (k + 1) % 8 == (k % 8 + 1) % 8
  {
  }

  function Moved(d: int, from: Position, pinsOk: nat -> bool): nat
  {
    if ValidDegrees(d) then Completed(pinsOk, StepsNeeded(d, from)) else 0
  }

  function Arrives(d: int, from: Position, pinsOk: nat -> bool): bool
  {
    ValidDegrees(d) && Moved(d, from, pinsOk) == StepsNeeded(d, from)
  }

  class Motor {
    var position: Position
    ghost var pulses: seq<Pulse>

    constructor ()
      ensures position == 0 && pulses == []
    {
      position, pulses := 0, [];
    }

    /** The count is cleared once the pins are exported, before they are first set. */
    method Init(exported: bool, pinsOk: bool) returns (ok: bool)
      modifies this`position
      ensures ok == (exported && pinsOk) && position == if exported then 0 else old(position)
    {
      if !exported {
        return false;
      }
      position := 0;
      return pinsOk;
    }

    method ResetPosition(pinsOk: bool) returns (ok: bool)
      modifies this`position
      ensures ok == pinsOk && position == if pinsOk then 0 else old(position)
    {
      if !pinsOk {
        return false;
      }
      position := 0;
      return true;
    }

    /** `pinsOk(k)` says whether the pins of the k-th step of this rotation can be set. */
    method Rotate(d: int, pinsOk: nat -> bool) returns (ok: bool)
      modifies this
      ensures ok == Arrives(d, old(position), pinsOk)
      ensures position == Advance(old(position), Moved(d, old(position), pinsOk))
      ensures pulses == old(pulses) + Pulses(old(position), Moved(d, old(position), pinsOk))
    {
      if d < 0 || d > 360 {
        return false;
      }
      var target := (d * STEPS_PER_REV + 180) / 360;
      var stepsNeeded := (target - position + STEPS_PER_REV) % STEPS_PER_REV;
      assert stepsNeeded == StepsNeeded(d, position);
      var step, index := 0, 0;
      while step < stepsNeeded
        invariant 0 <= step <= stepsNeeded && index == step % 8
        invariant forall i: nat | i < step :: pinsOk(i)
        invariant position == Advance(old(position), step)
        invariant pulses == old(pulses) + Pulses(old(position), step)
      {
        if !pinsOk(step) {
          return false;
        }
        OneMoreStep(old(position), step);
        pulses := pulses + [Pulse(index, position)];
        index := (index + 1) % 8;
        step := step + 1;
        position := (position + 1) % STEPS_PER_REV;
      }
      return true;
    }

    method GetPosition() returns (d: nat)
      ensures d == Degrees(position)
    {
      d := position * 360 / STEPS_PER_REV;
    }
  }

  // ---------- no drift ----------

  lemma ForwardTo(target: nat, from: Position)
    requires target <= STEPS_PER_REV
    ensures (from + (target - from + STEPS_PER_REV) % STEPS_PER_REV) % STEPS_PER_REV == target % STEPS_PER_REV
  {
    var need := target - from + STEPS_PER_REV;
    if need < STEPS_PER_REV {
      assert need % STEPS_PER_REV == need;
      assert from + need == target + STEPS_PER_REV;
    } else if need < 2 * STEPS_PER_REV {
      assert need % STEPS_PER_REV == need - STEPS_PER_REV;
    }
  }

  /** A successful rotation ends at the rounded target, wherever it began. */
  lemma {:induction false} RotationLands(d: int, from: Position, pinsOk: nat -> bool)
    requires Arrives(d, from, pinsOk)
    ensures Advance(from, Moved(d, from, pinsOk)) == TargetSteps(d) % STEPS_PER_REV
  {
    ForwardTo(TargetSteps(d), from);
  }

  /** A request to rotate, and which of its steps succeed. */
  datatype Turn = Turn(d: int, pinsOk: nat -> bool)

  function After(from: Position, turns: seq<Turn>): Position
  {
    if turns == [] then from
    else
      var p := After(from, turns[..|turns| - 1]);
      var t := turns[|turns| - 1];
      Advance(p, Moved(t.d, p, t.pinsOk))
  }

  function TotalSteps(from: Position, turns: seq<Turn>): nat
  {
    if turns == [] then 0
    else
      var before := turns[..|turns| - 1];
      var t := turns[|turns| - 1];
      TotalSteps(from, before) + Moved(t.d, After(from, before), t.pinsOk)
  }

  /** After any history of rotations, cut short or not: the position is the start plus
      every step completed, and if the last one succeeded, its own target exactly. */
  lemma {:induction false} NoDrift(from: Position, turns: seq<Turn>)
    ensures After(from, turns) == Advance(from, TotalSteps(from, turns))
    ensures turns != [] ==>
              var t := turns[|turns| - 1];
              Arrives(t.d, After(from, turns[..|turns| - 1]), t.pinsOk) ==>
                After(from, turns) == TargetSteps(t.d) % STEPS_PER_REV
  {
    if turns != [] {
      var before, t := turns[..|turns| - 1], turns[|turns| - 1];
      NoDrift(from, before);
      var p := After(from, before);
      if Arrives(t.d, p, t.pinsOk) { RotationLands(t.d, p, t.pinsOk); }
      AdvanceTwice(from, TotalSteps(from, before), Moved(t.d, p, t.pinsOk));
    }
  }

  lemma AdvanceTwice(from: Position, a: nat, b: nat)
    ensures Advance(Advance(from, a), b) == Advance(from, a + b)
  {
  }

  /** Reading the position back: a full turn reads 0, and any other target reads itself
      or one degree less, itself exactly when the rounding up was not too far. */
  lemma {:induction false} ReadBack(d: int)
    requires ValidDegrees(d)
    ensures var p := TargetSteps(d) % STEPS_PER_REV;
            && Degrees(p) == (if d == 360 then 0 else if (d * STEPS_PER_REV + 180) % 360 <= 180 then d else d - 1)
            && (d == 0 || d == 180 ==> Degrees(p) == d)
  {
    var n := d * STEPS_PER_REV + 180;
    var p, r := n / 360, n % 360;
    assert p * 360 == d * STEPS_PER_REV + (180 - r);
    if d < 360 {
      assert p < STEPS_PER_REV;
      if r <= 180 {
        assert d * STEPS_PER_REV <= p * 360 < (d + 1) * STEPS_PER_REV;
      } else {
        assert (d - 1) * STEPS_PER_REV <= p * 360 < d * STEPS_PER_REV;
      }
    }
  }

  /** The motor reads 180 on exactly these twelve positions. */
  lemma {:induction false} LockedBand(p: Position)
    ensures Degrees(p) == 180 <==> 2048 <= p <= 2059
    ensures Degrees(p) == 0 <==> p <= 11
  {
  }

  /** Because the pattern index starts over with every rotation, the coils match the
      position at every step of a rotation exactly if it starts on a multiple of 8. */
  lemma {:induction false} CoilPhase(from: Position, k: nat)
    requires k > 0
    ensures (forall i | 0 <= i < k :: Pulses(from, k)[i].pattern == Pulses(from, k)[i].position % 8) <==> from % 8 == 0
  {
    if from % 8 == 0 {
      forall i | 0 <= i < k ensures Pulses(from, k)[i].pattern == Pulses(from, k)[i].position % 8 {
        PhaseAt(from, i);
      }
    } else {
      assert Pulses(from, k)[0].pattern == 0 && Pulses(from, k)[0].position == from;
    }
  }

  lemma PhaseAt(from: Position, i: nat)
    requires from % 8 == 0
    ensures Advance(from, i) % 8 == i % 8
  {
    var q, r := (from + i) / STEPS_PER_REV, (from + i) % STEPS_PER_REV;
    assert from + i == 8 * (512 * q) + r;
  }
}
