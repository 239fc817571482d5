/** The receiver thread: the loop that drains a socket, handles each datagram, and sweeps,
    while other threads take ids and transmit commands whenever it is not in the mutex. It
    goes through exactly the runs of HubRuns, so their theorems are its own. */
module HubThread {
  import opened Text
  import opened Pending
  import opened HubModel
  import opened HubRuns
  import opened HubServer

  /** A step of another thread, in the middle of hub_udp_send_command. */
  datatype Other = TakesId(moduleId: string)
                 | Transmits(call: nat, cmdid: int, dst: Addr, line: string)

  /** A datagram, when it is handled, whether what it makes due can be sent, and what other
      threads do before it is handled and before its due datagram goes out. */
  datatype Packet = Packet(text: string, src: Addr, t: int, netOk: bool, before: seq<Other>, between: seq<Other>)

  /** One turn of the loop: what select found waiting, perhaps nothing, and the clock of
      the sweep that ends the turn. */
  datatype Turn = Turn(packets: seq<Packet>, beforeSweep: seq<Other>, now: int)

  function InputsOfPackets(ps: seq<Packet>): seq<Input>
  {
    if ps == [] then []
    else
      var p := ps[|ps| - 1];
      InputsOfPackets(ps[..|ps| - 1]) + [Datagram(p.text, p.src, p.t), Release(p.netOk)]
  }

  /** What the thread itself does in these turns. */
  function InputsOf(turns: seq<Turn>): seq<Input>
  {
    if turns == [] then []
    else InputsOf(turns[..|turns| - 1]) + InputsOfPackets(turns[|turns| - 1].packets) + [Tick(turns[|turns| - 1].now)]
  }

  /** Packets are handled one after the other, each to the end, and a turn ends with its
      sweep. */
  lemma {:induction false} PacketsInOrder(ps: seq<Packet>, k: nat)
    requires k < |ps|
    ensures |InputsOfPackets(ps)| == 2 * |ps|
    ensures InputsOfPackets(ps)[2 * k] == Datagram(ps[k].text, ps[k].src, ps[k].t)
    ensures InputsOfPackets(ps)[2 * k + 1] == Release(ps[k].netOk)
  {
    var n := |ps| - 1;
    if k < n {
      PacketsInOrder(ps[..n], k);
    } else if n > 0 {
      PacketsInOrder(ps[..n], 0);
    }
  }

  lemma Regroup(a: seq<Input>, b: seq<Input>, c: seq<Input>, d: seq<Input>)
    ensures (a + b) + c + d == a + (b + c + d)
  {
  }

  /** Turns come one after the other. */
  lemma {:induction false} TurnsInOrder(a: seq<Turn>, b: seq<Turn>)
    ensures InputsOf(a + b) == InputsOf(a) + InputsOf(b)
    decreases |b|
  {
    if b == [] {
      assert a + b == a;
    } else {
      var n := |b| - 1;
      assert (a + b)[..|a + b| - 1] == a + b[..n];
      TurnsInOrder(a, b[..n]);
      Regroup(InputsOf(a), InputsOf(b[..n]), InputsOfPackets(b[n].packets), [Tick(b[n].now)]);
    }
  }

  lemma OneTurnEndsWithSweep(t: Turn)
    ensures InputsOf([t]) == InputsOfPackets(t.packets) + [Tick(t.now)]
  {
    assert [t][..0] == [];
    assert [] + InputsOfPackets(t.packets) == InputsOfPackets(t.packets);
  }

  /** From `from`, these inputs lead to `to`, and the receiver's own among them are `own`. */
  ghost predicate Leads(from: Hub, inputs: seq<Input>, to: Hub, own: seq<Input>)
  {
    Run(from, inputs) == to && OwnInputs(inputs) == own
  }

  lemma LeadsOn(from: Hub, a: seq<Input>, mid: Hub, ownA: seq<Input>, b: seq<Input>, to: Hub, ownB: seq<Input>)
    requires Leads(from, a, mid, ownA) && Leads(mid, b, to, ownB)
    ensures Leads(from, a + b, to, ownA + ownB)
  {
    RunAppend(from, a, b);
    OwnAppend(a, b);
  }

  lemma LeadsOneOn(from: Hub, a: seq<Input>, mid: Hub, own: seq<Input>, i: Input)
    requires Leads(from, a, mid, own)
    ensures Leads(from, a + [i], Step(mid, i), if OfOthers(i) then own else own + [i])
  {
    RunStep(from, a, i);
    OwnAppend(a, [i]);
    OwnOfOne(i);
    assert own + [] == own;
  }

  /** What other threads do while the receiver is not in the mutex. */
  method LetOthers(s: Server, os: seq<Other>) returns (ghost inputs: seq<Input>)
    requires s.Valid()
    modifies s
    ensures s.Valid() && s.due == old(s.due) && Leads(old(s.Abs()), inputs, s.Abs(), [])
  {
    ghost var h := s.Abs();
    inputs := [];
    for k := 0 to |os|
      invariant s.Valid() && s.due == old(s.due) && Leads(h, inputs, s.Abs(), [])
    {
      ghost var i := LetOther(s, os[k]);
      if i != [] {
        LeadsOneOn(h, inputs, Run(h, inputs), [], i[0]);
        inputs := inputs + i;
      }
    }
  }

  method LetOther(s: Server, o: Other) returns (ghost i: seq<Input>)
    requires s.Valid()
    modifies s
    ensures s.Valid() && s.due == old(s.due)
    ensures i == [] ==> s.Abs() == old(s.Abs())
    ensures i != [] ==> i == [i[0]] && OfOthers(i[0]) && s.Abs() == Step(old(s.Abs()), i[0])
  {
    match o {
      case TakesId(moduleId) =>
        var row, _, _ := s.TakeCommandId(moduleId);
        i := if row < MAX_DOORS then [IssueId] else [];
      case Transmits(call, cmdid, dst, line) =>
        s.Transmit(call, cmdid, dst, line);
        i := [HubRuns.Transmit(call, cmdid, dst, line)];
    }
  }

  lemma PacketLeads(h: Hub, a: seq<Input>, h1: Hub, d: Input, b: seq<Input>, h2: Hub, r: Input)
    requires Leads(h, a, h1, []) && Leads(Step(h1, d), b, h2, []) && !OfOthers(d) && !OfOthers(r)
    ensures Leads(h, a + [d] + b + [r], Step(h2, r), [d, r])
  {
    LeadsOneOn(h, a, h1, [], d);
    LeadsOn(h, a + [d], Step(h1, d), [] + [d], b, h2, []);
    LeadsOneOn(h, a + [d] + b, h2, [] + [d] + [], r);
    assert [] + [d] + [] + [r] == [d, r];
  }

  /** One datagram, with what happens around it. */
  method TakePacket(s: Server, p: Packet) returns (ghost inputs: seq<Input>)
    requires s.Valid() && s.due == Nothing
    modifies s, s.doors, s.endpoints, s.pending, s.ring, s.ring.slots
    ensures s.Valid() && s.due == Nothing
    ensures Leads(old(s.Abs()), inputs, s.Abs(), [Datagram(p.text, p.src, p.t), Release(p.netOk)])
  {
    ghost var a := LetOthers(s, p.before);
    ghost var h1 := s.Abs();
    s.HandleLine(p.text, p.src, p.t);
    ghost var b := LetOthers(s, p.between);
    ghost var h2 := s.Abs();
    s.SendDue(p.netOk);
    ghost var d, r := Datagram(p.text, p.src, p.t), Release(p.netOk);
    PacketLeads(old(s.Abs()), a, h1, d, b, h2, r);
    inputs := a + [d] + b + [r];
  }

  method DrainSocket(s: Server, ps: seq<Packet>) returns (ghost inputs: seq<Input>)
    requires s.Valid() && s.due == Nothing
    modifies s, s.doors, s.endpoints, s.pending, s.ring, s.ring.slots
    ensures s.Valid() && s.due == Nothing && Leads(old(s.Abs()), inputs, s.Abs(), InputsOfPackets(ps))
  {
    ghost var h := s.Abs();
    inputs := [];
    for k := 0 to |ps|
      invariant s.Valid() && s.due == Nothing && Leads(h, inputs, s.Abs(), InputsOfPackets(ps[..k]))
    {
      ghost var mid := s.Abs();
      ghost var more := TakePacket(s, ps[k]);
      LeadsOn(h, inputs, mid, InputsOfPackets(ps[..k]), more, s.Abs(),
              [Datagram(ps[k].text, ps[k].src, ps[k].t), Release(ps[k].netOk)]);
      inputs := inputs + more;
      assert ps[..k + 1][..k] == ps[..k];
    }
    assert ps[..|ps|] == ps;
  }

  lemma TurnLeads(h: Hub, a: seq<Input>, h1: Hub, own: seq<Input>, b: seq<Input>, h2: Hub, tick: Input)
    requires Leads(h, a, h1, own) && Leads(h1, b, h2, []) && !OfOthers(tick)
    ensures Leads(h, a + b + [tick], Step(h2, tick), own + [tick])
  {
    LeadsOn(h, a, h1, own, b, h2, []);
    assert own + [] == own;
    LeadsOneOn(h, a + b, h2, own, tick);
  }

  /** One turn of the loop. */
  method TakeTurn(s: Server, turn: Turn) returns (ghost inputs: seq<Input>)
    requires s.Valid() && s.due == Nothing
    modifies s, s.doors, s.endpoints, s.pending, s.ring, s.ring.slots
    ensures s.Valid() && s.due == Nothing
    ensures Leads(old(s.Abs()), inputs, s.Abs(), InputsOfPackets(turn.packets) + [Tick(turn.now)])
  {
    ghost var a := DrainSocket(s, turn.packets);
    ghost var h1 := s.Abs();
    ghost var b := LetOthers(s, turn.beforeSweep);
    ghost var h2 := s.Abs();
    s.CheckOfflineModules(turn.now);
    TurnLeads(old(s.Abs()), a, h1, InputsOfPackets(turn.packets), b, h2, Tick(turn.now));
    inputs := a + b + [Tick(turn.now)];
  }

  /** The thread from one hub state on, for as many turns as it makes. */
  method UdpThread(s: Server, turns: seq<Turn>) returns (ghost inputs: seq<Input>)
    requires s.Valid() && s.due == Nothing
    modifies s, s.doors, s.endpoints, s.pending, s.ring, s.ring.slots
    ensures s.Valid() && s.due == Nothing && Leads(old(s.Abs()), inputs, s.Abs(), InputsOf(turns))
  {
    ghost var h := s.Abs();
    inputs := [];
    for k := 0 to |turns|
      invariant s.Valid() && s.due == Nothing && Leads(h, inputs, s.Abs(), InputsOf(turns[..k]))
    {
      ghost var mid := s.Abs();
      ghost var more := TakeTurn(s, turns[k]);
      LeadsOn(h, inputs, mid, InputsOf(turns[..k]), more, s.Abs(),
              InputsOfPackets(turns[k].packets) + [Tick(turns[k].now)]);
      inputs := inputs + more;
      OneMoreTurn(turns, k);
    }
    assert turns[..|turns|] == turns;
  }

  lemma OneMoreTurn(turns: seq<Turn>, k: nat)
    requires k < |turns|
    ensures InputsOf(turns[..k + 1]) ==
            InputsOf(turns[..k]) + (InputsOfPackets(turns[k].packets) + [Tick(turns[k].now)])
  {
    assert turns[..k + 1][..k] == turns[..k];
  }

  /** A hub started afresh and left to run, and what holds of its tables and of everything
      it sent when it stops: the theorems of HubRuns, read off the running program. */
  method ServeFromStart(turns: seq<Turn>) returns (s: Server, ghost inputs: seq<Input>)
    ensures s.Valid() && Leads(InitHub(), inputs, s.Abs(), InputsOf(turns))
    ensures forall row | 0 <= row < MAX_DOORS :: Alternate(Flips(s.log, row))
    ensures ShortIds(InputsOf(turns)) ==> Routed(s.doors[..], s.endpoints[..s.numEndpoints])
    ensures forall m, c, dst, line | Relayed(m, c, dst, line) in s.log && c != 0 :: Accepted(m, c, dst) in s.log
  {
    s := new Server();
    inputs := UdpThread(s, turns);
    forall row | 0 <= row < MAX_DOORS ensures Alternate(Flips(s.log, row)) { AlertsAlternate(inputs, row); }
    ShortIdsOfOwn(inputs);
    if ShortIds(inputs) { RoutingTablesAgree(inputs); }
    forall m, c, dst, line | Relayed(m, c, dst, line) in s.log && c != 0 ensures Accepted(m, c, dst) in s.log {
      RelaysAreConserved(inputs, m, c, iset{dst});
    }
  }
}
