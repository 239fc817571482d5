/** The hub's event history: a ring of 256 slots that keeps the newest events. */
module HistoryRing {
  import opened HubModel

  const NO_EVENT := Event(0, "", "")

  function Kept(n: nat): nat { if n < MAX_HISTORY then n else MAX_HISTORY }

  /** The events a ring still holds after all of `log` was added. */
  function Retained(log: seq<Event>): seq<Event>
  {
    log[|log| - Kept(|log|)..]
  }

  /** What a reader who asks for `max` events gets: the oldest retained ones. */
  function Readable(log: seq<Event>, max: int): seq<Event>
  {
    var kept := Retained(log);
    if max <= 0 then [] else if max < |kept| then kept[..max] else kept
  }

  /** The most recent events that fit into `n` places. */
  function Newest(log: seq<Event>, n: nat): seq<Event>
    requires n <= |log|
  {
    log[|log| - n..]
  }

  predicate AllDifferent(log: seq<Event>)
  {
    forall i, j | 0 <= i < j < |log| :: log[i] != log[j]
  }

  /** What is read, place by place: the events from the 256th newest on, or from the very
      first if there were no more, one after the other. */
  lemma {:induction false} ReadsFromOldest(log: seq<Event>, max: int, i: nat)
    requires i < |Readable(log, max)|
    ensures var first := if |log| <= 256 then 0 else |log| - 256;
            first + i < |log| && Readable(log, max)[i] == log[first + i]
  {
    assert Retained(log)[i] == log[|log| - Kept(|log|) + i];
  }

  lemma PlaceByPlace(log: seq<Event>, max: int, r: seq<Event>)
    requires r == Readable(log, max)
    ensures |r| == if max <= 0 then 0 else if max < Kept(|log|) then max else Kept(|log|)
    ensures forall i | 0 <= i < |r| :: r[i] == log[|log| - Kept(|log|) + i]
  {
    forall i | 0 <= i < |r| ensures r[i] == log[|log| - Kept(|log|) + i] { ReadsFromOldest(log, max, i); }
  }

  /** A reader between the extremes gets nothing of the newest event. */
  lemma NewestIsOut(log: seq<Event>, max: int)
    requires AllDifferent(log) && 0 < max < Kept(|log|)
    ensures log[|log| - 1] !in Readable(log, max) && Readable(log, max) != Newest(log, max)
  {
    var r, last := Readable(log, max), |log| - 1;
    PlaceByPlace(log, max, r);
    forall i | 0 <= i < |r| ensures r[i] != log[last] { assert |log| - Kept(|log|) + i < last; }
    assert Newest(log, max)[max - 1] == log[last];
  }

  /** The promise of the most recent events is kept exactly for a reader who asks for
      nothing, or for at least as many as the ring retains. Every reader in between gets
      as many events as fit, but never the newest. */
  lemma {:induction false} NewestExactly(log: seq<Event>, max: int)
    requires AllDifferent(log)
    ensures var r := Readable(log, max);
            && |r| == (if max <= 0 then 0 else if max < Kept(|log|) then max else Kept(|log|))
            && (r == Newest(log, |r|) <==> max <= 0 || max >= Kept(|log|))
            && (0 < max < Kept(|log|) ==> log[|log| - 1] !in r)
  {
    PlaceByPlace(log, max, Readable(log, max));
    if 0 < max < Kept(|log|) { NewestIsOut(log, max); }
  }

  /** The slot that holds the k-th event ever added. */
  function Slot(k: nat): (i: nat)
    ensures i < MAX_HISTORY
  {
    k % MAX_HISTORY
  }

  lemma SlotsDiffer(n: nat)
    ensures forall k | 0 <= k < n < k + MAX_HISTORY :: Slot(k) != Slot(n)
  {
    forall k | 0 <= k < n < k + MAX_HISTORY ensures Slot(k) != Slot(n) {
      var q, r := n / MAX_HISTORY, n % MAX_HISTORY;
      if k < MAX_HISTORY * q { assert k / MAX_HISTORY == q - 1; } else { assert k / MAX_HISTORY == q; }
    }
  }

  lemma SlotIs(k: nat, q: nat, r: nat)
    requires k == MAX_HISTORY * q + r && r < MAX_HISTORY
    ensures Slot(k) == r
  {
  }

  lemma NextSlot(n: nat, i: nat)
    ensures Slot(n + i) == (Slot(n) + i) % MAX_HISTORY
  {
    var q, r := n / MAX_HISTORY, n % MAX_HISTORY;
    var p, t := (r + i) / MAX_HISTORY, (r + i) % MAX_HISTORY;
    SlotIs(n + i, q + p, t);
  }

  lemma SlotBefore(n: nat, c: nat)
    requires c <= n && c <= MAX_HISTORY
    ensures Slot(n - c) == (Slot(n) - c + MAX_HISTORY) % MAX_HISTORY
  {
  }

  class Ring {
    const slots: array<Event>
    var head: nat
    var count: nat
    ghost var log: seq<Event>  // every event ever added

    ghost predicate Valid()
      reads this, slots
    {
      && slots.Length == MAX_HISTORY
      && head == Slot(|log|)
      && count == Kept(|log|)
      && forall k | |log| - count <= k < |log| :: slots[Slot(k)] == log[k]
    }

    constructor ()
      ensures Valid() && log == [] && fresh(slots)
    {
      slots := new Event[MAX_HISTORY](_ => NO_EVENT);
      head, count, log := 0, 0, [];
    }

    method Add(e: Event)
      requires Valid()
      modifies this, slots
      ensures Valid() && log == old(log) + [e]
    {
      SlotsDiffer(|log|);
      NextSlot(|log|, 1);
      slots[head] := e;
      head := (head + 1) % MAX_HISTORY;
      if count < MAX_HISTORY {
        count := count + 1;
      }
      log := log + [e];
    }

    lemma ReadsSlots(first: nat, i: nat)
      requires Valid() && first == |log| - count && i < count
      ensures slots[(Slot(first) + i) % MAX_HISTORY] == log[first + i]
    {
      NextSlot(first, i);
    }

    /** Copies into `out` from the oldest retained event on, as many as are asked for or
        retained, and leaves the rest of the buffer alone. */
    method Get(out: array<Event>, max: int) returns (n: nat)
      requires Valid() && out != slots && max <= out.Length
      modifies out
      ensures n == if max <= 0 then 0 else if max < Kept(|log|) then max else Kept(|log|)
      ensures n <= out.Length && out[..n] == Readable(log, max)
      ensures forall i | 0 <= i < n :: out[i] == log[|log| - Kept(|log|) + i]
      ensures out[n..] == old(out[n..])
    {
      n := CopyReadable(out, max);
      PlaceByPlace(log, max, out[..n]);
      assert forall i | 0 <= i < n :: out[i] == out[..n][i];
    }

    method CopyReadable(out: array<Event>, max: int) returns (n: nat)
      requires Valid() && out != slots && max <= out.Length
      modifies out
      ensures n <= out.Length && out[..n] == Readable(log, max) && out[n..] == old(out[n..])
    {
      if max <= 0 {
        return 0;
      }
      n := if count < max then count else max;
      var start := (head - count + MAX_HISTORY) % MAX_HISTORY;
      SlotBefore(|log|, count);
      RetainedInSlots(start);
      Copy(out, start, n, Retained(log));
    }

    lemma RetainedInSlots(start: nat)
      requires Valid() && start == Slot(|log| - count)
      ensures |Retained(log)| == count
      ensures forall i | 0 <= i < count :: slots[(start + i) % MAX_HISTORY] == Retained(log)[i]
    {
      forall i | 0 <= i < count ensures slots[(start + i) % MAX_HISTORY] == Retained(log)[i] {
        ReadsSlots(|log| - count, i);
      }
    }

    method Copy(out: array<Event>, start: nat, n: nat, ghost kept: seq<Event>)
      requires slots.Length == MAX_HISTORY && out != slots && n <= out.Length && n <= |kept|
      requires forall i | 0 <= i < n :: slots[(start + i) % MAX_HISTORY] == kept[i]
      modifies out
      ensures out[..n] == kept[..n] && out[n..] == old(out[n..])
    {
      for i := 0 to n
        invariant out[..i] == kept[..i] && out[n..] == old(out[n..])
      {
        out[i] := slots[(start + i) % MAX_HISTORY];
        assert out[..i + 1] == out[..i] + [kept[i]];
      }
    }
  }
}
