/** The hub's table of client commands waiting for a FEEDBACK: 128 slots, where cmdid 0
    marks a free one, and the oldest command makes room when none is free. */
module Pending {
  import opened Text

  const MAX_PENDING := 128
  const ID_LEN := 15  // characters kept of a module id (16-byte fields)

  datatype Addr = Addr(ip: nat, port: nat)

  datatype PendingCmd = PendingCmd(cmdid: int, clientAddr: Addr, moduleId: string, issuedMs: int)

  const FREE_SLOT := PendingCmd(0, Addr(0, 0), "", 0)

  type PendingTable = p: seq<PendingCmd> | |p| == MAX_PENDING witness seq(MAX_PENDING, _ => FREE_SLOT)

  predicate Live(e: PendingCmd) { e.cmdid != 0 }

  function FirstFree(p: seq<PendingCmd>): (k: nat)
    ensures k <= |p|
    ensures k < |p| ==> !Live(p[k])
    ensures forall i | 0 <= i < k :: Live(p[i])
  {
    if p == [] || !Live(p[0]) then 0 else 1 + FirstFree(p[1..])
  }

  /** The first slot with the least issue time. */
  function Oldest(p: seq<PendingCmd>): (k: nat)
    requires p != []
    ensures k < |p|
    ensures forall i | 0 <= i < k :: p[k].issuedMs < p[i].issuedMs
    ensures forall i | k <= i < |p| :: p[k].issuedMs <= p[i].issuedMs
  {
    if |p| == 1 then 0
    else
      var k := Oldest(p[..|p| - 1]);
      if p[|p| - 1].issuedMs < p[k].issuedMs then |p| - 1 else k
  }

  function SlotFor(p: PendingTable): (k: nat)
    ensures k < MAX_PENDING
  {
    var free := FirstFree(p);
    if free < |p| then free else Oldest(p)
  }

  function Register(p: PendingTable, cmdid: int, moduleId: string, client: Addr, t: int): PendingTable
  {
    p[SlotFor(p) := PendingCmd(cmdid, client, Trunc(moduleId, ID_LEN), t)]
  }

  predicate Matches(e: PendingCmd, moduleId: string, cmdid: int)
  {
    e.cmdid == cmdid && e.moduleId == moduleId
  }

  function FindMatch(p: seq<PendingCmd>, moduleId: string, cmdid: int): (k: nat)
    ensures k <= |p|
    ensures k < |p| ==> Matches(p[k], moduleId, cmdid)
    ensures forall i | 0 <= i < k :: !Matches(p[i], moduleId, cmdid)
  {
    if p == [] || Matches(p[0], moduleId, cmdid) then 0 else 1 + FindMatch(p[1..], moduleId, cmdid)
  }

  /** Frees the first slot that matches, if there is one. */
  function Clear(p: PendingTable, moduleId: string, cmdid: int): PendingTable
  {
    var k := FindMatch(p, moduleId, cmdid);
    if k < |p| then p[k := p[k].(cmdid := 0)] else p
  }

  // ---------- who is evicted ----------

  /** A registration overwrites a live command exactly when no slot is free and that
      command is the first of those with the least issue time. */
  lemma {:induction false} EvictsOnlyTheOldest(p: PendingTable, k: nat)
    requires k < MAX_PENDING && Live(p[k])
    ensures SlotFor(p) == k <==>
            && (forall i | 0 <= i < MAX_PENDING :: Live(p[i]) && p[k].issuedMs <= p[i].issuedMs)
            && (forall i | 0 <= i < k :: p[k].issuedMs < p[i].issuedMs)
  {
    var free := FirstFree(p);
    if free == MAX_PENDING {
      var o := Oldest(p);
      assert p[o].issuedMs <= p[k].issuedMs;
    } else {
      assert !Live(p[free]);
    }
  }

  /** While a slot is free nothing is overwritten: the first free one is taken. */
  lemma {:induction false} TakesFirstFree(p: PendingTable, k: nat)
    requires k < MAX_PENDING && exists i | 0 <= i < MAX_PENDING :: !Live(p[i])
    ensures SlotFor(p) == k <==> !Live(p[k]) && forall i | 0 <= i < k :: Live(p[i])
  {
    var i :| 0 <= i < MAX_PENDING && !Live(p[i]);
    assert FirstFree(p) <= i;
  }

  // ---------- how long a command survives ----------

  datatype Op = Reg(cmdid: int, moduleId: string, client: Addr, t: int) | Clr(moduleId: string, cmdid: int)

  function Apply(p: PendingTable, op: Op): PendingTable
  {
    match op
    case Reg(cmdid, moduleId, client, t) => Register(p, cmdid, moduleId, client, t)
    case Clr(moduleId, cmdid) => Clear(p, moduleId, cmdid)
  }

  function ApplyAll(p: PendingTable, ops: seq<Op>): PendingTable
    decreases |ops|
  {
    if ops == [] then p else ApplyAll(Apply(p, ops[0]), ops[1..])
  }

  function Registrations(ops: seq<Op>): nat
  {
    if ops == [] then 0 else (if ops[0].Reg? then 1 else 0) + Registrations(ops[1..])
  }

  /** The clock does not run backwards: no registration happens before time `t`. */
  predicate NotBefore(ops: seq<Op>, t: int)
  {
    forall op | op in ops && op.Reg? :: t <= op.t
  }

  /** No operation asks for this command's own slot back. */
  predicate LeavesAlone(ops: seq<Op>, e: PendingCmd)
  {
    forall op | op in ops && op.Clr? :: !Matches(e, op.moduleId, op.cmdid)
  }

  predicate NoOlder(e: PendingCmd, t: int)
  {
    Live(e) && t <= e.issuedMs
  }

  /** How many live commands were issued at time `t` or later. */
  function Juniors(p: seq<PendingCmd>, t: int): (n: nat)
    ensures n <= |p|
    ensures n == |p| <==> forall i | 0 <= i < |p| :: NoOlder(p[i], t)
  {
    if p == [] then 0 else (if NoOlder(p[0], t) then 1 else 0) + Juniors(p[1..], t)
  }

  lemma {:induction false} JuniorsAfterUpdate(p: seq<PendingCmd>, k: nat, e: PendingCmd, t: int)
    requires k < |p|
    ensures Juniors(p[k := e], t) ==
            Juniors(p, t) + (if NoOlder(e, t) then 1 else 0) - (if NoOlder(p[k], t) then 1 else 0)
  {
    var q := p[k := e];
    if k == 0 {
      assert q[1..] == p[1..];
    } else {
      assert q[1..] == p[1..][k - 1 := e];
      JuniorsAfterUpdate(p[1..], k - 1, e, t);
    }
  }

  /** A command stays in its slot as long as the registrations still to come, together
      with the live commands no older than itself (it counts as one), fit the table. */
  lemma {:induction false} Survives(p: PendingTable, k: nat, ops: seq<Op>)
    requires k < MAX_PENDING && Live(p[k])
    requires NotBefore(ops, p[k].issuedMs) && LeavesAlone(ops, p[k])
    requires Juniors(p, p[k].issuedMs) + Registrations(ops) <= MAX_PENDING
    ensures ApplyAll(p, ops)[k] == p[k]
    decreases |ops|
  {
    if ops != [] {
      var op, t := ops[0], p[k].issuedMs;
      assert op in ops;
      var q := Apply(p, op);
      match op {
        case Reg(cmdid, moduleId, client, at) =>
          var s := SlotFor(p);
          assert s != k by {
            EvictsOnlyTheOldest(p, k);
            assert Juniors(p, t) < MAX_PENDING;
          }
          JuniorsAfterUpdate(p, s, q[s], t);
        case Clr(moduleId, cmdid) =>
          var m := FindMatch(p, moduleId, cmdid);
          if m < |p| { JuniorsAfterUpdate(p, m, q[m], t); }
      }
      Survives(q, k, ops[1..]);
    }
  }

  /** A command registered later than everything in the table outlives the next 127
      registrations, whatever else is freed meanwhile. */
  lemma {:induction false} SurvivesNext127(p: PendingTable, e: PendingCmd, ops: seq<Op>)
    requires Live(e) && |e.moduleId| <= ID_LEN
    requires forall i | 0 <= i < MAX_PENDING :: p[i].issuedMs < e.issuedMs
    requires NotBefore(ops, e.issuedMs) && LeavesAlone(ops, e) && Registrations(ops) <= 127
    ensures ApplyAll(Register(p, e.cmdid, e.moduleId, e.clientAddr, e.issuedMs), ops)[SlotFor(p)] == e
  {
    NoJuniors(p, e.issuedMs);
    JuniorsAfterUpdate(p, SlotFor(p), e, e.issuedMs);
    Survives(p[SlotFor(p) := e], SlotFor(p), ops);
  }

  lemma {:induction false} NoJuniors(p: seq<PendingCmd>, t: int)
    requires forall i | 0 <= i < |p| :: p[i].issuedMs < t
    ensures Juniors(p, t) == 0
  {
    if p != [] { NoJuniors(p[1..], t); }
  }

  /** 127 is the most that can be promised: once its juniors fill every other slot, the
      next registration overwrites the command. */
  lemma {:induction false} The128thEvicts(p: PendingTable, k: nat, e: PendingCmd)
    requires k < MAX_PENDING && Juniors(p, p[k].issuedMs) == MAX_PENDING
    requires forall i | 0 <= i < MAX_PENDING && i != k :: p[i].issuedMs != p[k].issuedMs
    ensures Register(p, e.cmdid, e.moduleId, e.clientAddr, e.issuedMs)[k] == e.(moduleId := Trunc(e.moduleId, ID_LEN))
  {
    assert NoOlder(p[k], p[k].issuedMs);
    EvictsOnlyTheOldest(p, k);
  }
}
