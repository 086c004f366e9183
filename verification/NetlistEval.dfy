/** An acyclic netlist with one driver per net has exactly one settled valuation. */
module NetlistEval {
  import opened Netlist

  datatype Site = PortBit(name: Name, i: nat) | CellPin(inst: Name, p: Pin, i: nat)

  ghost predicate Drives(m: Module, s: Site, n: nat)
  {
    match s
    case PortBit(name, i) =>
      name in m.ports && m.ports[name].dir.Input? && i < |m.ports[name].bits| && m.ports[name].bits[i] == Net(n)
    case CellPin(inst, p, i) =>
      inst in m.cells && p in m.cells[inst].conns && p in m.cells[inst].outs
      && i < |m.cells[inst].conns[p]| && m.cells[inst].conns[p][i] == Net(n)
  }

  ghost predicate Driven(m: Module, n: nat) { exists s :: Drives(m, s, n) }

  ghost predicate SingleDriver(m: Module)
  {
    forall s, t, n :: Drives(m, s, n) && Drives(m, t, n) ==> s == t
  }

  // The pins an output follows without a clock edge in between.
  predicate Follows(c: Cell, p: Pin)
  {
    match c.kind
    case Flop(_, _) => p == CTRL
    case Scan(_) => p == CTRL || p == SE
    case WbcIn(_) => p == From && p !in c.outs
    case WbcOut(_) => p == From && p !in c.outs
    case _ => p !in c.outs
  }

  ghost predicate FollowsNet(c: Cell, n: nat)
  {
    exists p :: p in c.conns && Follows(c, p) && Net(n) in c.conns[p]
  }

  // Logic, async controls included, has a rank that rises along every path.
  ghost predicate Ranked(m: Module, rank: nat -> nat)
  {
    forall inst, p, i, k ::
      inst in m.cells && p in m.cells[inst].conns && p in m.cells[inst].outs
      && 0 <= i < |m.cells[inst].conns[p]| && m.cells[inst].conns[p][i].Net?
      && FollowsNet(m.cells[inst], k)
      ==> rank(k) < rank(m.cells[inst].conns[p][i].id)
  }

  // Every net at a cell has a driver.
  ghost predicate Fed(m: Module)
  {
    forall inst, p, i :: inst in m.cells && p in m.cells[inst].conns && 0 <= i < |m.cells[inst].conns[p]|
                         && m.cells[inst].conns[p][i].Net?
                         ==> Driven(m, m.cells[inst].conns[p][i].id)
  }

  // Every net read by a cell or shown at an output has a driver.
  ghost predicate Closed(m: Module)
  {
    && Fed(m)
    && (forall name, i :: name in m.ports && 0 <= i < |m.ports[name].bits| && m.ports[name].bits[i].Net?
                          ==> Driven(m, m.ports[name].bits[i].id))
  }

  ghost predicate Acyclic(m: Module, rank: nat -> nat)
  {
    SingleDriver(m) && Ranked(m, rank) && Closed(m)
  }

  lemma FollowedPin(c: Cell, q: Pin, v: Valuation, w: Valuation)
    requires forall n: nat :: FollowsNet(c, n) ==> v(n) == w(n)
    requires q in c.conns && Follows(c, q)
    ensures BitsVal(v, c.conns[q]) == BitsVal(w, c.conns[q]) && PinVal(v, c, q) == PinVal(w, c, q)
  {
    forall j | 0 <= j < |c.conns[q]| ensures BitVal(v, c.conns[q][j]) == BitVal(w, c.conns[q][j]) {
      if c.conns[q][j].Net? {
        assert FollowsNet(c, c.conns[q][j].id);
      }
    }
  }

  // An output depends only on the nets its cell follows.
  lemma OutValAgree(lib: Library, c: Cell, p: Pin, i: nat, s: bool, v: Valuation, w: Valuation)
    requires forall n: nat :: FollowsNet(c, n) ==> v(n) == w(n)
    ensures OutVal(lib, c, p, i, s, v) == OutVal(lib, c, p, i, s, w)
  {
    forall q | q in c.conns && Follows(c, q)
      ensures BitsVal(v, c.conns[q]) == BitsVal(w, c.conns[q]) && PinVal(v, c, q) == PinVal(w, c, q)
    {
      FollowedPin(c, q, v, w);
    }
    hide FollowsNet;
    hide BitsVal;
    if c.kind.Lib? {
      assert Ins(v, c) == Ins(w, c);
    }
  }

  // The value of a net, by recursion on its rank; an undriven net is 0.
  ghost function Eval(lib: Library, m: Module, f: Fault, env: Inputs, st: State, rank: nat -> nat, n: nat): bool
    decreases rank(n)
  {
    if f.Stuck? && f.net == n then f.value
    else if Driven(m, n) then
      var s :| Drives(m, s, n);
      match s
      case PortBit(name, i) => env(name, i)
      case CellPin(inst, p, i) =>
        OutVal(lib, m.cells[inst], p, i, st(inst),
               (k: nat) => if rank(k) < rank(n) then Eval(lib, m, f, env, st, rank, k) else false)
    else false
  }

  ghost function Evaluated(lib: Library, m: Module, f: Fault, env: Inputs, st: State, rank: nat -> nat): Valuation
  {
    (n: nat) => Eval(lib, m, f, env, st, rank, n)
  }

  lemma EvalCell(lib: Library, m: Module, f: Fault, env: Inputs, st: State, rank: nat -> nat,
                 inst: Name, p: Pin, i: nat, n: nat)
    requires SingleDriver(m) && Ranked(m, rank)
    requires Drives(m, CellPin(inst, p, i), n) && Free(f, n)
    ensures Eval(lib, m, f, env, st, rank, n)
         == OutVal(lib, m.cells[inst], p, i, st(inst), Evaluated(lib, m, f, env, st, rank))
  {
    var c := m.cells[inst];
    var below := (k: nat) => if rank(k) < rank(n) then Eval(lib, m, f, env, st, rank, k) else false;
    assert Driven(m, n);
    forall k: nat | FollowsNet(c, k) ensures below(k) == Evaluated(lib, m, f, env, st, rank)(k) {
      assert rank(k) < rank(c.conns[p][i].id);
    }
    OutValAgree(lib, c, p, i, st(inst), below, Evaluated(lib, m, f, env, st, rank));
    assert forall s :: Drives(m, s, n) ==> s == CellPin(inst, p, i);
  }

  lemma EvalPort(lib: Library, m: Module, f: Fault, env: Inputs, st: State, rank: nat -> nat,
                 name: Name, i: nat, n: nat)
    requires SingleDriver(m) && Drives(m, PortBit(name, i), n) && Free(f, n)
    ensures Eval(lib, m, f, env, st, rank, n) == env(name, i)
  {
    assert Driven(m, n);
    assert forall s :: Drives(m, s, n) ==> s == PortBit(name, i);
  }

  lemma EvaluatedSettles(lib: Library, m: Module, f: Fault, env: Inputs, st: State, rank: nat -> nat)
    requires SingleDriver(m) && Ranked(m, rank)
    ensures Settled(lib, m, f, env, st, Evaluated(lib, m, f, env, st, rank))
  {
    var v := Evaluated(lib, m, f, env, st, rank);
    forall name | name in m.ports ensures PortOk(f, env, name, m.ports[name], v) {
      var port := m.ports[name];
      if port.dir.Input? {
        forall i | 0 <= i < |port.bits| && port.bits[i].Net? && Free(f, port.bits[i].id)
          ensures v(port.bits[i].id) == env(name, i)
        {
          EvalPort(lib, m, f, env, st, rank, name, i, port.bits[i].id);
        }
      }
    }
    forall inst | inst in m.cells ensures CellOk(lib, f, m.cells[inst], st(inst), v) {
      var c := m.cells[inst];
      forall p, i | p in c.conns && p in c.outs && 0 <= i < |c.conns[p]| && c.conns[p][i].Net?
                    && Free(f, c.conns[p][i].id)
        ensures v(c.conns[p][i].id) == OutVal(lib, c, p, i, st(inst), v)
      {
        EvalCell(lib, m, f, env, st, rank, inst, p, i, c.conns[p][i].id);
      }
    }
  }

  // Any two settled valuations agree on every driven net.
  lemma {:induction false} SettledUnique(lib: Library, m: Module, f: Fault, env: Inputs, st: State, rank: nat -> nat,
                      v: Valuation, w: Valuation, n: nat)
    requires Ranked(m, rank) && Fed(m) && Driven(m, n)
    requires Settled(lib, m, f, env, st, v) && Settled(lib, m, f, env, st, w)
    ensures v(n) == w(n)
    decreases rank(n)
  {
    if Free(f, n) {
      var s :| Drives(m, s, n);
      match s
      case PortBit(name, i) =>
        assert PortOk(f, env, name, m.ports[name], v) && PortOk(f, env, name, m.ports[name], w);
      case CellPin(inst, p, i) =>
        var c := m.cells[inst];
        assert CellOk(lib, f, c, st(inst), v) && CellOk(lib, f, c, st(inst), w);
        forall k: nat | FollowsNet(c, k) ensures v(k) == w(k) {
          assert rank(k) < rank(c.conns[p][i].id);
          SettledUnique(lib, m, f, env, st, rank, v, w, k);
        }
        OutValAgree(lib, c, p, i, st(inst), v, w);
    }
  }

  lemma PortCarries(lib: Library, g: Module, f: Fault, env: Inputs, st: State, v: Valuation, name: Name, n: nat)
    requires Settled(lib, g, f, env, st, v) && name in g.ports && g.ports[name] == Port(Input, [Net(n)]) && Free(f, n)
    ensures v(n) == env(name, 0)
  {
    assert PortOk(f, env, name, g.ports[name], v);
    assert g.ports[name].bits[0] == Net(n);
  }

  /* ---- a floating net takes any value ---- */

  // The valuation that has the floating net h at c.
  ghost function Floated(lib: Library, m: Module, env: Inputs, st: State, rank: nat -> nat, h: nat, c: bool): Valuation
  {
    Evaluated(lib, m, Stuck(h, c), env, st, rank)
  }

  lemma FloatsFree(lib: Library, m: Module, env: Inputs, st: State, rank: nat -> nat, h: nat, c: bool)
    requires SingleDriver(m) && Ranked(m, rank) && !Driven(m, h)
    ensures Floated(lib, m, env, st, rank, h, c)(h) == c && Settled(lib, m, NoFault, env, st, Floated(lib, m, env, st, rank, h, c))
  {
    var u, f := Floated(lib, m, env, st, rank, h, c), Stuck(h, c);
    EvaluatedSettles(lib, m, f, env, st, rank);
    hide Evaluated, Ranked, SingleDriver;
    forall name | name in m.ports ensures PortOk(NoFault, env, name, m.ports[name], u) {
      assert PortOk(f, env, name, m.ports[name], u);
      assert forall i: nat :: i < |m.ports[name].bits| && m.ports[name].dir.Input? && m.ports[name].bits[i] == Net(h) ==> Drives(m, PortBit(name, i), h);
    }
    forall x | x in m.cells ensures CellOk(lib, NoFault, m.cells[x], st(x), u) {
      var cell := m.cells[x];
      assert CellOk(lib, f, cell, st(x), u);
      assert forall p, i: nat :: p in cell.conns && p in cell.outs && i < |cell.conns[p]| && cell.conns[p][i] == Net(h) ==> Drives(m, CellPin(x, p, i), h);
    }
  }
}
