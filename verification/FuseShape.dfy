/** The fused view pin by pin (faultflow/scan/wbr_view.py): which cells and ports go,
    which stay, and what each wrapper cell leaves behind. */
module FuseShape {
  import opened Netlist
  import opened ScanView
  import opened ScanChecks
  import opened Fuse

  ghost predicate OnPin(c: Cell, p: Pin, n: nat) { p in c.conns && Net(n) in c.conns[p] }

  ghost predicate TiedAt(c: Cell, p: Pin) { p in c.conns && (c.conns[p] == [Lit(false)] || c.conns[p] == [Lit(true)]) }

  // An output wrapper cell goes, and an input one unless its core side is a constant.
  ghost predicate Goes(c: Cell) { c.kind.WbcOut? || (c.kind.WbcIn? && !TiedAt(c, To)) }

  // The nets cut loose with a cell: its system side, and the chain nets of a shiftable
  // cell or of an output cell that wraps a constant.
  ghost predicate CutWith(c: Cell, n: nat)
  {
    || (c.kind.WbcIn? && OnPin(c, From, n))
    || (c.kind.WbcOut? && OnPin(c, To, n))
    || ((c.kind == WbcIn(true) || c.kind == WbcOut(true) || (c.kind.WbcOut? && TiedAt(c, From)))
        && (OnPin(c, CTI, n) || OnPin(c, SE, n) || OnPin(c, CTO, n)))
  }

  // One bit is a net, the rest are constants.
  ghost predicate SoleNet(bits: seq<Bit>, n: nat)
  {
    exists i :: SoleAt(bits, n, i)
  }

  ghost predicate SoleAt(bits: seq<Bit>, n: nat, i: int)
  {
    0 <= i < |bits| && bits[i] == Net(n) && forall k :: 0 <= k < |bits| && k != i ==> bits[k].Lit?
  }

  ghost predicate PortGoes(m: Module, port: Port)
  {
    exists n, x :: SoleNet(port.bits, n) && x in m.cells && Goes(m.cells[x]) && CutWith(m.cells[x], n)
  }

  // What a core input or output turns into.
  ghost predicate BecomesInput(m: Module, x: Name, v: Module)
    requires x in m.cells
  {
    To in m.cells[x].conns && exists n :: m.cells[x].conns[To] == [Net(n)] && InputAt(m, x, v, n)
  }

  ghost predicate InputAt(m: Module, x: Name, v: Module, n: nat)
  {
    if PortGoes(m, Port(Input, [Net(n)])) then Made(Wbi, x) !in v.ports
    else Made(Wbi, x) in v.ports && v.ports[Made(Wbi, x)] == Port(Input, [Net(n)])
  }

  ghost predicate BecomesOutput(m: Module, x: Name, v: Module)
    requires x in m.cells
  {
    From in m.cells[x].conns && exists n, o :: m.cells[x].conns[From] == [Net(n)] && ObservedAt(x, v, n, o)
  }

  ghost predicate ObservedAt(x: Name, v: Module, n: nat, o: nat)
  {
    && Made(WbObserve, x) in v.cells && v.cells[Made(WbObserve, x)] == Cell(Buf, {Y}, map[A := [Net(n)], Y := [Net(o)]])
    && Made(Wbo, x) in v.ports && v.ports[Made(Wbo, x)] == Port(Output, [Net(o)])
  }

  ghost predicate FusedAs(m: Module, v: Module)
  {
    && (forall x :: x in m.cells ==> if Goes(m.cells[x]) then x !in v.cells else x in v.cells && v.cells[x] == m.cells[x])
    && (forall name :: name in m.ports ==>
          if PortGoes(m, m.ports[name]) then name !in v.ports else name in v.ports && v.ports[name] == m.ports[name])
    && (forall x :: x in m.cells && m.cells[x].kind.WbcIn? && !TiedAt(m.cells[x], To) ==> BecomesInput(m, x, v))
    && (forall x :: x in m.cells && m.cells[x].kind.WbcOut? && !TiedAt(m.cells[x], From) ==> BecomesOutput(m, x, v))
  }

  lemma TiedIs(c: Cell, p: Pin)
    ensures ConstantAt(c, p) <==> TiedAt(c, p)
  {
    if ConstantAt(c, p) {
      assert c.conns[p] == [c.conns[p][0]];
    }
  }

  lemma GoesIs(c: Cell)
    ensures Leaves(c) <==> Goes(c)
  {
    TiedIs(c, To);
    TiedIs(c, From);
    hide ConstantAt, TiedAt;
  }

  lemma CutIs(c: Cell, n: nat)
    requires Leaves(c)
    ensures n in Decoupled(c) <==> CutWith(c, n)
  {
    TiedIs(c, From);
    hide ConstantAt, TiedAt, Ints;
  }

  lemma SoleFront(front: seq<Bit>, last: Bit, n: nat)
    requires last.Lit?
    ensures SoleNet(front + [last], n) <==> SoleNet(front, n)
  {
    var bits := front + [last];
    if i :| SoleAt(front, n, i) {
      assert SoleAt(bits, n, i);
    }
    if i :| SoleAt(bits, n, i) {
      assert forall k :: 0 <= k < |front| ==> bits[k] == front[k];
      assert SoleAt(front, n, i);
    }
  }

  lemma SoleLast(front: seq<Bit>, last: Bit, n: nat)
    requires last.Net?
    ensures SoleNet(front + [last], n) <==> last == Net(n) && forall i :: 0 <= i < |front| ==> front[i].Lit?
  {
    var bits := front + [last];
    assert bits[|front|] == last && forall k :: 0 <= k < |front| ==> bits[k] == front[k];
    if last == Net(n) && forall i :: 0 <= i < |front| ==> front[i].Lit? {
      assert SoleAt(bits, n, |front|);
    }
  }

  lemma {:induction false} SoleIs(bits: seq<Bit>, n: nat)
    ensures Ints(bits) == [n] <==> SoleNet(bits, n)
  {
    if bits != [] {
      var front, last := bits[..|bits| - 1], bits[|bits| - 1];
      assert bits == front + [last];
      SoleIs(front, n);
      NoNets(front);
      hide SoleNet;
      if last.Net? {
        SoleLast(front, last, n);
        assert Ints(bits) == Ints(front) + [last.id];
        assert Ints(front) == [] ==> Ints(bits) == [last.id];
        assert |Ints(bits)| == |Ints(front)| + 1;
      } else {
        SoleFront(front, last, n);
        assert Ints(bits) == Ints(front);
      }
    }
  }

  lemma {:induction false} NoNets(bits: seq<Bit>)
    ensures Ints(bits) == [] <==> forall i :: 0 <= i < |bits| ==> bits[i].Lit?
  {
    if bits != [] {
      NoNets(bits[..|bits| - 1]);
    }
  }

  lemma PortIs(m: Module, port: Port)
    ensures DroppedPort(m, port) <==> PortGoes(m, port)
  {
    forall x, n: nat | x in m.cells ensures Leaves(m.cells[x]) && n in Decoupled(m.cells[x]) <==> Goes(m.cells[x]) && CutWith(m.cells[x], n) {
      GoesIs(m.cells[x]);
      if Leaves(m.cells[x]) {
        CutIs(m.cells[x], n);
      }
    }
    hide Leaves, Decoupled, Goes, CutWith, SoleNet, Ints;
    if DroppedPort(m, port) {
      var n := Ints(port.bits)[0];
      SoleIs(port.bits, n);
      assert Ints(port.bits) == [n];
    }
    if n, x :| SoleNet(port.bits, n) && x in m.cells && Goes(m.cells[x]) && CutWith(m.cells[x], n) {
      SoleIs(port.bits, n);
      assert n in Decoupled(m.cells[x]);
    }
  }

  lemma InputShape(m: Module, obs: map<Name, nat>, next: nat, v: Module, x: Name)
    requires FuseReady(m, next) && Fused(m, obs, v) && x in m.cells && m.cells[x].kind.WbcIn? && !TiedAt(m.cells[x], To)
    ensures BecomesInput(m, x, v)
  {
    TiedIs(m.cells[x], To);
    assert CorePinsFormed(m.cells[x]);
    var n := CoreNet(m.cells[x]);
    assert m.cells[x].conns[To] == [Net(n)];
    PortIs(m, Port(Input, [Net(n)]));
    assert NewPort(m, obs, Made(Wbi, x), Port(Input, [Net(n)]));
    hide FusedCells, DroppedPort, PortGoes, Below, CoreNet, TiedAt;
    assert Made(Wbi, x) in v.ports ==> NewPort(m, obs, Made(Wbi, x), v.ports[Made(Wbi, x)]);
    assert InputAt(m, x, v, n);
  }

  lemma OutputShape(m: Module, obs: map<Name, nat>, next: nat, next': nat, v: Module, x: Name)
    requires FuseReady(m, next) && Observes(m, obs, next, next') && Fused(m, obs, v)
    requires x in m.cells && m.cells[x].kind.WbcOut? && !TiedAt(m.cells[x], From)
    ensures BecomesOutput(m, x, v)
  {
    TiedIs(m.cells[x], From);
    assert x in obs;
    var n := CoreNet(m.cells[x]);
    assert m.cells[x].conns[From] == [Net(n)];
    ObservePort(m, v, obs, next, next', x);
    hide FusedPorts, DroppedPort, PortGoes, Below, CoreNet, TiedAt;
    assert ObservedAt(x, v, n, obs[x]);
  }

  /** The fused view has exactly the cells, ports and taps that the wrapper cells leave. */
  lemma FusedShape(m: Module, obs: map<Name, nat>, next: nat, next': nat, v: Module)
    requires FuseReady(m, next) && Observes(m, obs, next, next') && Fused(m, obs, v)
    ensures FusedAs(m, v)
  {
    forall x | x in m.cells ensures if Goes(m.cells[x]) then x !in v.cells else x in v.cells && v.cells[x] == m.cells[x] {
      CellShape(m, obs, next, v, x);
    }
    forall name | name in m.ports
      ensures if PortGoes(m, m.ports[name]) then name !in v.ports else name in v.ports && v.ports[name] == m.ports[name]
    {
      PortShape(m, obs, next, v, name);
    }
    hide Goes, PortGoes, FuseReady, Observes, Fused, BecomesInput, BecomesOutput, TiedAt;
    forall x | x in m.cells && m.cells[x].kind.WbcIn? && !TiedAt(m.cells[x], To) ensures BecomesInput(m, x, v) {
      InputShape(m, obs, next, v, x);
    }
    forall x | x in m.cells && m.cells[x].kind.WbcOut? && !TiedAt(m.cells[x], From) ensures BecomesOutput(m, x, v) {
      OutputShape(m, obs, next, next', v, x);
    }
  }

  lemma CellShape(m: Module, obs: map<Name, nat>, next: nat, v: Module, x: Name)
    requires FuseReady(m, next) && Fused(m, obs, v) && x in m.cells
    ensures if Goes(m.cells[x]) then x !in v.cells else x in v.cells && v.cells[x] == m.cells[x]
  {
    GoesIs(m.cells[x]);
    hide FusedPorts, Leaves, Goes, Below, CoreNet;
  }

  lemma PortShape(m: Module, obs: map<Name, nat>, next: nat, v: Module, name: Name)
    requires FuseReady(m, next) && Fused(m, obs, v) && name in m.ports
    ensures if PortGoes(m, m.ports[name]) then name !in v.ports else name in v.ports && v.ports[name] == m.ports[name]
  {
    PortIs(m, m.ports[name]);
    hide FusedCells, DroppedPort, PortGoes, Below, CoreNet;
  }
}
