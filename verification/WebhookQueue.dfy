/** The webhook sender's queue: a linked list with head and tail pointers, filled by any
    thread and emptied by one worker, and the shutdown that lets the worker finish. */
module WebhookQueue {

  class Node {
    const msg: string
    var next: Node?

    constructor (msg: string)
      ensures this.msg == msg && next == null
    {
      this.msg, next := msg, null;
    }
  }

  function Texts(nodes: seq<Node>): (ts: seq<string>)
    ensures |ts| == |nodes|
  {
    seq(|nodes|, i requires 0 <= i < |nodes| => nodes[i].msg)
  }

  function At(nodes: seq<Node>, i: nat): Node? { if i < |nodes| then nodes[i] else null }

  datatype Got = Blocked | Ended | Message(msg: string)

  // ---------- the steps ----------

  /** `entered` lists every message ever enqueued; `due` counts those that were in before
      shutdown cleared `running`. A caller of hub_webhook_send looks at `running` first
      and enqueues in a second step; `admitted` holds those in between. */
  datatype State = State(running: bool, queue: seq<string>, entered: seq<string>, sent: seq<string>,
                         admitted: multiset<string>, due: nat, workerDone: bool, drained: bool)

  const START := State(true, [], [], [], multiset{}, 0, false, false)

  datatype Event = Ask(msg: string)     // hub_webhook_send finds running set
                 | Enter(msg: string)   // and enqueues
                 | Work                 // one turn of the worker's loop
                 | Stop                 // shutdown clears running
                 | Drain                // shutdown, once the worker is joined

  function Step(s: State, e: Event): State
  {
    match e
    case Ask(msg) => if s.running then s.(admitted := s.admitted + multiset{msg}) else s
    case Enter(msg) =>
      if msg in s.admitted
      then s.(admitted := s.admitted - multiset{msg}, queue := s.queue + [msg], entered := s.entered + [msg]) else s
    case Work =>
      if s.workerDone then s
      else if s.queue != [] then s.(sent := s.sent + [s.queue[0]], queue := s.queue[1..])
      else if s.running then s
      else s.(workerDone := true)
    case Stop => if s.running then s.(running := false, due := |s.entered|) else s
    case Drain => if s.workerDone && !s.drained then s.(queue := [], drained := true) else s
  }

  function Run(es: seq<Event>): State
  {
    if es == [] then START else Step(Run(es[..|es| - 1]), es[|es| - 1])
  }

  /** What a turn of the worker comes to. */
  lemma WorkTakes(s: State, s': State, msg: string, rest: seq<string>)
    requires !s.workerDone && s.queue != [] && msg == s.queue[0] && rest == s.queue[1..]
    requires s' == s.(sent := s.sent + [msg], queue := rest)
    ensures s' == Step(s, Work)
  {
  }

  lemma WorkRests(s: State, s': State)
    requires !s.workerDone && s.queue == [] && s' == s.(workerDone := !s.running)
    ensures s' == Step(s, Work)
  {
  }

  lemma EnterIs(s: State, s': State, msg: string)
    requires msg in s.admitted
    requires s' == s.(admitted := s.admitted - multiset{msg}, queue := s.queue + [msg], entered := s.entered + [msg])
    ensures s' == Step(s, Enter(msg))
  {
  }

  /** The step can happen: an admitted caller enqueues, the worker has not ended, the
      worker is joined before the drain. Every other step changes nothing. */
  predicate Possible(s: State, e: Event)
  {
    match e
    case Enter(msg) => msg in s.admitted
    case Work => !s.workerDone
    case Drain => s.workerDone && !s.drained
    case _ => true
  }

  // ---------- the program ----------

  class Queue {
    var head: Node?
    var tail: Node?
    var running: bool
    ghost var nodes: seq<Node>   // the list, spelled out
    ghost var sent: seq<string>  // what the worker handed to the sender
    ghost var entered: seq<string>
    ghost var admitted: multiset<string>
    ghost var due: nat
    ghost var workerDone: bool
    ghost var drained: bool

    ghost predicate Valid()
      reads this`head, this`tail, this`nodes, nodes
    {
      && (forall i, j | 0 <= i < j < |nodes| :: nodes[i] != nodes[j])
      && (forall i | 0 <= i < |nodes| :: nodes[i].next == At(nodes, i + 1))
      && head == At(nodes, 0)
      && tail == (if nodes == [] then null else nodes[|nodes| - 1])
    }

    ghost function Contents(): seq<string>
      reads this`nodes
    {
      Texts(nodes)
    }

    ghost function Abs(): State
      reads this
    {
      State(running, Contents(), entered, sent, admitted, due, workerDone, drained)
    }

    constructor ()
      ensures Valid() && Abs() == START.(running := false)
    {
      head, tail, running, nodes, sent := null, null, false, [], [];
      entered, admitted, due, workerDone, drained := [], multiset{}, 0, false, false;
    }

    /** hub_webhook_init: the worker is about to begin. */
    method Start()
      requires Valid()
      modifies this`running
      ensures Valid() && Abs() == old(Abs()).(running := true)
    {
      running := true;
    }

    method Enqueue(s: string)
      requires Valid()
      modifies this`head, this`tail, this`nodes, nodes
      ensures Valid() && Contents() == old(Contents()) + [s]
      ensures forall n | n in nodes && n !in old(nodes) :: fresh(n)
    {
      var n := new Node(s);
      if tail != null {
        tail.next := n;
      } else {
        head := n;
      }
      tail := n;
      nodes := nodes + [n];
    }

    /** One look at the queue: a message, the end, or nothing to do but wait. */
    method Dequeue() returns (r: Got)
      requires Valid()
      modifies this`head, this`tail, this`nodes
      ensures Valid()
      ensures old(Contents()) == [] ==> Contents() == [] && r == if running then Blocked else Ended
      ensures old(Contents()) != [] ==> r == Message(old(Contents())[0]) && Contents() == old(Contents())[1..]
      ensures nodes == if old(nodes) == [] then [] else old(nodes)[1..]
    {
      if head == null {
        return if running then Blocked else Ended;
      }
      var msg := TakeFirst();
      return Message(msg);
    }

    method TakeFirst() returns (msg: string)
      requires Valid() && nodes != []
      modifies this`head, this`tail, this`nodes
      ensures Valid() && nodes == old(nodes)[1..]
      ensures msg == old(Contents())[0] && Contents() == old(Contents())[1..]
    {
      var n := head;
      TextsOfRest(nodes);
      head := n.next;
      if head == null {
        tail := null;
      }
      assert forall i: nat :: At(nodes[1..], i) == At(nodes, i + 1);
      nodes := nodes[1..];
      return n.msg;
    }

    lemma TextsOfRest(nodes: seq<Node>)
      requires nodes != []
      ensures Texts(nodes[1..]) == Texts(nodes)[1..]
    {
    }

    /** One turn of the worker's loop, in any state: it takes a message and hands it over,
        or has to wait, or ends. */
    method WorkOne() returns (more: bool)
      requires Valid() && !workerDone
      modifies this`head, this`tail, this`nodes, this`sent, this`workerDone
      ensures Valid() && Abs() == Step(old(Abs()), Work)
      ensures more == !workerDone
      ensures nodes == if old(nodes) == [] then [] else old(nodes)[1..]
    {
      ghost var s := Abs();
      var r := Dequeue();
      ghost var t := Abs();
      assert t == s.(queue := t.queue);
      more := r != Ended;
      if r.Message? {
        sent := sent + [r.msg];
        WorkTakes(s, Abs(), r.msg, t.queue);
      } else {
        if r == Ended {
          workerDone := true;
        }
        WorkRests(s, Abs());
      }
    }

    /** The worker after `running` was cleared: it hands over what is queued and ends. */
    method WorkOff()
      requires Valid() && !running && !workerDone
      modifies this`head, this`tail, this`nodes, this`sent, this`workerDone
      ensures Valid() && Abs() == old(Abs()).(queue := [], sent := old(sent) + old(Contents()), workerDone := true)
      ensures workerDone && sent == old(sent) + old(Contents())
    {
      ghost var all := sent + Contents();
      var more := true;
      while more
        invariant Valid() && more == !workerDone && sent + Contents() == all && (!more ==> Contents() == [])
        decreases |nodes|, more
      {
        ghost var was, queued := sent, Contents();
        more := WorkOne();
        if queued != [] { HandOver(was, queued, queued[0], Contents()); }
      }
    }

    lemma HandOver(sent: seq<string>, before: seq<string>, msg: string, after: seq<string>)
      requires before != [] && msg == before[0] && after == before[1..]
      ensures sent + before == (sent + [msg]) + after
    {
    }

    /** What shutdown does after the worker is joined: whatever is left is thrown away. */
    method Discard()
      requires Valid()
      modifies this`head, this`tail, this`nodes
      ensures Valid() && Contents() == [] && sent == old(sent)
    {
      var n := head;
      ghost var i := 0;
      while n != null
        invariant 0 <= i <= |nodes| && n == if i < |nodes| then nodes[i] else null
        decreases |nodes| - i
      {
        n := n.next;
        i := i + 1;
      }
      head, tail := null, null;
      nodes := [];
    }

    /** The last step of shutdown. */
    method DrainRest()
      requires Valid() && workerDone && !drained
      modifies this`head, this`tail, this`nodes, this`drained
      ensures Valid() && Abs() == Step(old(Abs()), Drain) && Contents() == []
    {
      Discard();
      drained := true;
    }

    /** The first critical section of hub_webhook_send: is the queue still open? */
    method AskFor(msg: string) returns (ok: bool)
      requires Valid()
      modifies this`admitted
      ensures Valid() && ok == running && Abs() == Step(old(Abs()), Ask(msg))
    {
      if !running {
        return false;
      }
      admitted := admitted + multiset{msg};
      return true;
    }

    /** The second: by now the queue may be closed, drained even. */
    method EnterFor(msg: string)
      requires Valid() && msg in admitted
      modifies this`head, this`tail, this`nodes, this`admitted, this`entered, nodes
      ensures Valid() && Abs() == Step(old(Abs()), Enter(msg))
      ensures forall n | n in nodes && n !in old(nodes) :: fresh(n)
    {
      ghost var s := Abs();
      Enqueue(msg);
      admitted := admitted - multiset{msg};
      entered := entered + [msg];
      EnterIs(s, Abs(), msg);
    }

    /** hub_webhook_send when nothing comes between its two critical sections. */
    method Send(msg: string)
      requires Valid()
      modifies this`head, this`tail, this`nodes, this`admitted, this`entered, nodes
      ensures Valid() && Abs() == if old(running) then Step(Step(old(Abs()), Ask(msg)), Enter(msg)) else old(Abs())
      ensures Contents() == old(Contents()) + if running then [msg] else []
    {
      var ok := AskFor(msg);
      if ok {
        EnterFor(msg);
      }
    }

    /** Shutdown clears `running`. */
    method StopRunning()
      requires Valid()
      modifies this`running, this`due
      ensures Valid() && !running && Abs() == Step(old(Abs()), Stop)
    {
      due := if running then |entered| else due;
      running := false;
    }

    /** Any of these, by whichever thread. */
    method Perform(e: Event)
      requires Valid() && Possible(Abs(), e)
      modifies this, nodes
      ensures Valid() && Abs() == Step(old(Abs()), e)
      ensures forall n | n in nodes && n !in old(nodes) :: fresh(n)
    {
      match e {
        case Ask(msg) => var _ := AskFor(msg);
        case Enter(msg) => EnterFor(msg);
        case Work => var _ := WorkOne();
        case Stop => StopRunning();
        case Drain => DrainRest();
      }
    }

    /** Shutdown when nobody else is enqueuing. */
    method Shutdown()
      requires Valid() && !workerDone && !drained
      modifies this
      ensures Valid() && !running && Contents() == [] && sent == old(sent) + old(Contents())
    {
      StopRunning();
      WorkOff();
      DrainRest();
    }
  }

  lemma OneMoreEvent(es: seq<Event>, k: nat)
    requires k < |es|
    ensures Run(es[..k + 1]) == Step(Run(es[..k]), es[k])
  {
    assert es[..k + 1][..k] == es[..k];
  }

  predicate AllPossible(es: seq<Event>) { forall k | 0 <= k < |es| :: Possible(Run(es[..k]), es[k]) }

  /** The queue driven through any interleaving of senders, worker and shutdown: it ends in
      the state of that run, and so has sent all that the theorems below say. */
  method Play(es: seq<Event>) returns (q: Queue)
    requires AllPossible(es)
    ensures fresh(q) && q.Valid() && q.Abs() == Run(es)
  {
    q := new Queue();
    q.Start();
    for k := 0 to |es|
      invariant q.Valid() && fresh(q) && (forall n | n in q.nodes :: fresh(n))
      invariant q.Abs() == Run(es[..k])
    {
      OneMoreEvent(es, k);
      assert forall i | 0 <= i < |q.nodes| :: q.nodes[i] in q.nodes;
      q.Perform(es[k]);
    }
    assert es[..|es|] == es;
  }

  // ---------- what holds of every run ----------

  ghost predicate Inv(s: State)
  {
    && s.sent <= s.entered
    && (!s.drained ==> s.entered == s.sent + s.queue)
    && (s.running ==> !s.workerDone)
    && (s.drained ==> s.workerDone)
    && (!s.running ==> s.due <= |s.entered|)
    && (s.workerDone ==> s.due <= |s.sent|)
  }

  lemma {:induction false} StepKeepsInv(s: State, e: Event)
    requires Inv(s)
    ensures Inv(Step(s, e)) && s.sent <= Step(s, e).sent && s.entered <= Step(s, e).entered
  {
    if e == Work && !s.workerDone && s.queue != [] {
      assert s.sent + s.queue == (s.sent + [s.queue[0]]) + s.queue[1..];
    }
  }

  /** In every run: what was sent is a prefix of what was enqueued, so in order and each
      message once; and when the worker has ended, before it is joined, every message
      enqueued before shutdown cleared `running` is among what was sent. */
  lemma {:induction false} EverythingDueIsSent(es: seq<Event>)
    ensures var s := Run(es);
            && Inv(s) && s.sent <= s.entered
            && (s.workerDone ==> s.entered[..s.due] <= s.sent)
  {
    if es != [] {
      EverythingDueIsSent(es[..|es| - 1]);
      StepKeepsInv(Run(es[..|es| - 1]), es[|es| - 1]);
    }
  }

  /** A message is lost exactly when it enters after the worker has ended: until then all
      that entered and was not sent is still queued, and from then on nothing is sent. */
  lemma {:induction false} OnlyLatecomersAreLost(es: seq<Event>, e: Event)
    ensures var s, s' := Run(es), Step(Run(es), e);
            && (!s.workerDone ==> s.entered == s.sent + s.queue)
            && (s.workerDone ==> s'.sent == s.sent)
            && (s'.workerDone && !s.workerDone ==> s'.sent == s'.entered)
  {
    EverythingDueIsSent(es);
  }

  /** Messages that are in, or may still get in. */
  function Reach(s: State): nat { |s.entered| + |s.admitted| }

  lemma NoneComesIn(s: State, e: Event)
    requires !s.running
    ensures !Step(s, e).running && Reach(Step(s, e)) <= Reach(s)
  {
  }

  lemma RunOn(es: seq<Event>, more: seq<Event>)
    requires more != []
    ensures Run(es + more) == Step(Run(es + more[..|more| - 1]), more[|more| - 1])
  {
    var n := |more| - 1;
    assert (es + more)[..|es + more| - 1] == es + more[..n];
  }

  /** Once shutdown has cleared `running`, it stays cleared, and no more messages get in than
      had been admitted by then. */
  lemma {:induction false} ClosedToNewcomers(es: seq<Event>, more: seq<Event>)
    requires !Run(es).running
    ensures !Run(es + more).running
    ensures Reach(Run(es + more)) <= Reach(Run(es))
    decreases |more|
  {
    if more == [] {
      assert es + more == es;
    } else {
      ClosedToNewcomers(es, more[..|more| - 1]);
      RunOn(es, more);
      NoneComesIn(Run(es + more[..|more| - 1]), more[|more| - 1]);
    }
  }
}
