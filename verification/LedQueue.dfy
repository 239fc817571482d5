/** The LED worker's task queue: a ring of 32 slots holding at most 31 tasks, where a new
    task pushes the oldest one out of a full queue. */
module LedQueue {
  import opened Sequences

  const SIZE := 32

  /** The tasks between head and tail, oldest first. */
  function Between<T>(s: seq<T>, head: nat, tail: nat): seq<T>
    requires head < |s| && tail < |s|
  {
    if head <= tail then s[head..tail] else s[head..] + s[..tail]
  }

  /** A queue after one more task: its last 31. */
  function Enqueued<T>(q: seq<T>, t: T): (r: seq<T>)
    ensures r == if |q| < SIZE - 1 then q + [t] else q[1..] + [t]
  {
    var all := q + [t];
    if |all| < SIZE then all else all[1..]
  }

  lemma PushBetween<T>(s: seq<T>, head: nat, tail: nat, t: T)
    requires |s| == SIZE && head < SIZE && tail < SIZE && (tail + 1) % SIZE != head
    ensures Between(s[tail := t], head, (tail + 1) % SIZE) == Between(s, head, tail) + [t]
    ensures |Between(s, head, tail)| < SIZE - 1
  {
  }

  lemma PopBetween<T>(s: seq<T>, head: nat, tail: nat)
    requires |s| == SIZE && head < SIZE && tail < SIZE && head != tail
    ensures Between(s, head, tail) == [s[head]] + Between(s, (head + 1) % SIZE, tail)
  {
    if head < tail { PopStraight(s, head, tail); } else { PopAround(s, head, tail); }
  }

  lemma PopStraight<T>(s: seq<T>, head: nat, tail: nat)
    requires |s| == SIZE && head < tail < SIZE
    ensures Between(s, head, tail) == [s[head]] + Between(s, (head + 1) % SIZE, tail)
  {
    assert (head + 1) % SIZE == head + 1;
  }

  lemma PopAround<T>(s: seq<T>, head: nat, tail: nat)
    requires |s| == SIZE && tail < head < SIZE
    ensures Between(s, head, tail) == [s[head]] + Between(s, (head + 1) % SIZE, tail)
  {
    assert s[head..] == [s[head]] + s[head + 1..];
    Associate([s[head]], s[head + 1..], s[..tail]);
    if head + 1 < SIZE {
      assert (head + 1) % SIZE == head + 1;
    } else {
      assert (head + 1) % SIZE == 0;
      assert s[head + 1..] + s[..tail] == s[0..tail];
    }
  }

  // ---------- the steps ----------

  /** Tasks are numbered as they are enqueued; `done` and `dropped` list the numbers of
      those executed and discarded, `executed` the tasks handed over. */
  datatype State<T> = State(queue: seq<T>, enqueued: seq<T>, executed: seq<T>, done: seq<nat>, dropped: seq<nat>)

  datatype Event<T> = Enqueue(t: T) | Execute

  /** The number of the oldest task still queued. */
  function First<T>(s: State<T>): nat
  {
    if |s.queue| <= |s.enqueued| then |s.enqueued| - |s.queue| else 0
  }

  function Step<T>(s: State<T>, e: Event<T>): State<T>
  {
    match e
    case Enqueue(t) =>
      s.(queue := Enqueued(s.queue, t), enqueued := s.enqueued + [t],
         dropped := if |s.queue| < SIZE - 1 then s.dropped else s.dropped + [First(s)])
    case Execute =>
      if s.queue == [] then s
      else s.(queue := s.queue[1..], executed := s.executed + [s.queue[0]], done := s.done + [First(s)])
  }

  function Run<T>(es: seq<Event<T>>): State<T>
  {
    if es == [] then State([], [], [], [], []) else Step(Run(es[..|es| - 1]), es[|es| - 1])
  }

  // ---------- the program ----------

  class Queue<T(0)> {
    const slots: array<T>
    var head: nat  // next to pop
    var tail: nat  // next to push
    ghost var executed: seq<T>
    ghost var enqueued: seq<T>
    ghost var done: seq<nat>
    ghost var dropped: seq<nat>

    ghost predicate Valid()
      reads this
    {
      slots.Length == SIZE && head < SIZE && tail < SIZE
    }

    ghost function Tasks(): seq<T>
      requires Valid()
      reads this, slots
    {
      Between(slots[..], head, tail)
    }

    ghost function Abs(): State<T>
      requires Valid()
      reads this, slots
    {
      State(Tasks(), enqueued, executed, done, dropped)
    }

    constructor ()
      ensures Valid() && Abs() == Run<T>([]) && executed == [] && fresh(slots)
    {
      slots := new T[SIZE];
      head, tail, executed := 0, 0, [];
      enqueued, done, dropped := [], [], [];
    }

    method Push(t: T) returns (ok: bool)
      requires Valid()
      modifies this`tail, slots
      ensures Valid() && ok == (|old(Tasks())| < SIZE - 1)
      ensures Tasks() == old(Tasks()) + if ok then [t] else []
    {
      var next := (tail + 1) % SIZE;
      if next == head {
        return false;
      }
      PushBetween(slots[..], head, tail, t);
      slots[tail] := t;
      tail := next;
      return true;
    }

    method Pop() returns (ok: bool, t: T)
      requires Valid()
      modifies this`head
      ensures Valid() && ok == (old(Tasks()) != [])
      ensures ok ==> old(Tasks()) == [t] + Tasks()
      ensures !ok ==> Tasks() == old(Tasks())
    {
      t := slots[head];
      if head == tail {
        return false, t;
      }
      PopBetween(slots[..], head, tail);
      head := (head + 1) % SIZE;
      return true, t;
    }

    method DropOldest()
      requires Valid() && Tasks() != []
      modifies this`head
      ensures Valid() && Tasks() == old(Tasks())[1..]
    {
      PopBetween(slots[..], head, tail);
      head := (head + 1) % SIZE;
    }

    lemma AtMost31()
      requires Valid()
      ensures |Tasks()| < SIZE
    {
    }

    /** Every LED_enqueue function: on a full queue the oldest task is discarded, and the
        second push cannot fail. */
    method PushOrDrop(t: T) returns (ghost full: bool)
      requires Valid()
      modifies this`head, this`tail, slots
      ensures Valid() && Tasks() == Enqueued(old(Tasks()), t) && full == (|old(Tasks())| == SIZE - 1)
    {
      AtMost31();
      var ok := Push(t);
      full := !ok;
      if !ok {
        DropOldest();
        ok := Push(t);
        assert ok;
      }
    }

    method Enqueue(t: T)
      requires Valid()
      modifies this`head, this`tail, this`enqueued, this`dropped, slots
      ensures Valid() && Tasks() == Enqueued(old(Tasks()), t) && Abs() == Step(old(Abs()), Event.Enqueue(t))
    {
      ghost var first := First(Abs());
      AtMost31();
      ghost var full := PushOrDrop(t);
      if full {
        dropped := dropped + [first];
      }
      enqueued := enqueued + [t];
    }

    /** One turn of the worker, in any state: it executes the oldest task, or waits, or
        ends once shutdown has been asked for and nothing is left. */
    method WorkerTurn(running: bool) returns (more: bool)
      requires Valid()
      modifies this`head, this`executed, this`done
      ensures Valid() && Abs() == Step(old(Abs()), Execute)
      ensures more == (running || old(Tasks()) != [])
      ensures executed == old(executed) + if old(Tasks()) == [] then [] else [old(Tasks())[0]]
    {
      if head == tail {
        return running;
      }
      ghost var first := First(Abs());
      var ok, t := Pop();
      executed := executed + [t];
      done := done + [first];
      return true;
    }

    /** The worker once shutdown has been asked for: it executes what is left, in order,
        and only then ends. */
    method WorkOff()
      requires Valid()
      modifies this`head, this`executed, this`done
      ensures Valid() && Tasks() == [] && executed == old(executed) + old(Tasks())
    {
      ghost var all := executed + Tasks();
      var more := true;
      while more
        invariant Valid() && executed + Tasks() == all && (!more ==> Tasks() == [])
        decreases |Tasks()|, more
      {
        ghost var was, queued := executed, Tasks();
        more := WorkerTurn(false);
        if queued != [] { HandOver(was, queued); }
      }
    }

    lemma HandOver(executed: seq<T>, tasks: seq<T>)
      requires tasks != []
      ensures (executed + [tasks[0]]) + tasks[1..] == executed + tasks
    {
    }

    /** One event, by whichever thread. */
    method Perform(e: Event<T>)
      requires Valid()
      modifies this, slots
      ensures Valid() && Abs() == Step(old(Abs()), e)
    {
      match e {
        case Enqueue(t) => Enqueue(t);
        case Execute => var _ := WorkerTurn(true);
      }
    }
  }

  lemma OneMoreEvent<T>(es: seq<Event<T>>, k: nat)
    requires k < |es|
    ensures Run(es[..k + 1]) == Step(Run(es[..k]), es[k])
  {
    assert es[..k + 1][..k] == es[..k];
  }

  /** The queue driven through any interleaving of tasks and turns of the worker. */
  method Play<T(0)>(es: seq<Event<T>>) returns (q: Queue<T>)
    ensures q.Valid() && q.Abs() == Run(es)
  {
    q := new Queue<T>();
    for k := 0 to |es|
      invariant fresh(q) && fresh(q.slots) && q.Valid() && q.Abs() == Run(es[..k])
    {
      OneMoreEvent(es, k);
      q.Perform(es[k]);
    }
    assert es[..|es|] == es;
  }

  // ---------- what holds of every run ----------

  predicate Rising(s: seq<nat>, below: nat)
  {
    (forall i, j | 0 <= i < j < |s| :: s[i] < s[j]) && (forall i | 0 <= i < |s| :: s[i] < below)
  }

  /** The numbers name the tasks handed over, one by one. */
  predicate Names<T(==)>(enqueued: seq<T>, done: seq<nat>, executed: seq<T>)
  {
    |done| == |executed| && forall i | 0 <= i < |done| :: done[i] < |enqueued| && enqueued[done[i]] == executed[i]
  }

  lemma OneMoreName<T>(enqueued: seq<T>, done: seq<nat>, executed: seq<T>, n: nat)
    requires Names(enqueued, done, executed) && n < |enqueued|
    ensures Names(enqueued, done + [n], executed + [enqueued[n]])
  {
  }

  lemma NamesStay<T>(enqueued: seq<T>, done: seq<nat>, executed: seq<T>, t: T)
    requires Names(enqueued, done, executed)
    ensures Names(enqueued + [t], done, executed)
  {
  }

  /** Every task enqueued so far was executed, was dropped, or is queued, and only one of
      these; each happened in the order of the enqueuing. */
  ghost predicate Accounted<T>(s: State<T>)
  {
    && |s.queue| <= |s.enqueued| && |s.queue| < SIZE
    && s.queue == s.enqueued[First(s)..]
    && Rising(s.done, First(s)) && Rising(s.dropped, First(s))
    && (forall k | 0 <= k < First(s) :: (k in s.done) != (k in s.dropped))
    && Names(s.enqueued, s.done, s.executed)
  }

  lemma OneMoreNumber(s: seq<nat>, n: nat)
    requires Rising(s, n)
    ensures Rising(s + [n], n + 1) && forall k :: k in s + [n] <==> k in s || k == n
  {
  }

  lemma {:induction false} DropAccounts<T>(s: State<T>, t: T)
    requires Accounted(s)
    ensures Accounted(Step(s, Enqueue(t)))
  {
    NamesStay(s.enqueued, s.done, s.executed, t);
    if |s.queue| == SIZE - 1 { OneMoreNumber(s.dropped, First(s)); }
  }

  lemma {:induction false} ExecuteAccounts<T>(s: State<T>)
    requires Accounted(s)
    ensures Accounted(Step(s, Execute))
  {
    if s.queue != [] {
      OneMoreNumber(s.done, First(s));
      OneMoreName(s.enqueued, s.done, s.executed, First(s));
    }
  }

  lemma {:induction false} StepAccounts<T>(s: State<T>, e: Event<T>)
    requires Accounted(s)
    ensures Accounted(Step(s, e))
  {
    match e {
      case Enqueue(t) => DropAccounts(s, t);
      case Execute => ExecuteAccounts(s);
    }
  }

  /** In every run: the queue is the tail end of what was enqueued, at most 31 tasks long,
      and executed tasks form a subsequence of those enqueued, in order. */
  lemma {:induction false} RunsAccount<T>(es: seq<Event<T>>)
    ensures Accounted(Run(es))
  {
    if es != [] {
      RunsAccount(es[..|es| - 1]);
      StepAccounts(Run(es[..|es| - 1]), es[|es| - 1]);
    }
  }

  /** A task is only ever dropped when 31 younger ones, the new one included, take its
      place: right after, exactly those are queued. */
  lemma {:induction false} DropsOnlyWhenFull<T>(s: State<T>, t: T)
    requires Accounted(s)
    ensures var s' := Step(s, Enqueue(t));
            s'.dropped != s.dropped <==> |s.queue| == 31
    ensures var s' := Step(s, Enqueue(t));
            s'.dropped != s.dropped ==> s'.queue == s'.enqueued[s'.dropped[|s'.dropped| - 1] + 1..] && |s'.queue| == 31
  {
    if |s.queue| == 31 { assert |s.dropped + [First(s)]| == |s.dropped| + 1; }
  }
}
