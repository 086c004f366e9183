/** When dropping dangling ports keeps the view's meaning
    (faultflow/scan/atpg_view.py _drop_dangling_scan_ports): the pass looks at cells
    only, so an input forwarded straight to an output loses its driver. */
module ViewExact {
  import opened Netlist
  import opened NetlistEval
  import opened ScanView
  import opened ViewMeaning
  import opened ViewDrop
  import opened ViewFinish

  /* ---- the pass alone ---- */

  // Every settled valuation without the dangling ports is one of the module, as
  // far as the ports that are not listed show.
  ghost predicate DropKeeps(m: Module, names: set<Name>)
  {
    forall lib: Library, f: Fault, env: Inputs, st: State, v: Valuation ::
      Settled(lib, DropDangling(m, names), f, env, st, v) ==> DropMatched(lib, m, names, f, env, st, v)
  }

  ghost predicate DropMatched(lib: Library, m: Module, names: set<Name>, f: Fault, env: Inputs, st: State, v: Valuation)
  {
    exists w: Valuation ::
      Settled(lib, m, f, env, st, w) && forall name :: name in m.ports && name !in names ==> BitsVal(w, m.ports[name].bits) == BitsVal(v, m.ports[name].bits)
  }

  lemma SafeKeeps(m: Module, names: set<Name>)
    requires DropSafe(m, names)
    ensures DropKeeps(m, names)
  {
    forall lib: Library, f: Fault, env: Inputs, st: State, v: Valuation | Settled(lib, DropDangling(m, names), f, env, st, v)
      ensures DropMatched(lib, m, names, f, env, st, v)
    {
      var w := Restored(m, names, f, env, v);
      DropBack(lib, m, names, f, env, st, v);
      forall name | name in m.ports && name !in names ensures BitsVal(w, m.ports[name].bits) == BitsVal(v, m.ports[name].bits) {
        RestoredPort(m, names, f, env, v, name);
      }
    }
  }

  function Toggled(v: Valuation, n: nat): Valuation { (k: nat) => if k == n then !v(k) else v(k) }

  // A net on no cell and on no input may take either value.
  lemma ToggleSettles(lib: Library, m: Module, env: Inputs, st: State, v: Valuation, n: nat)
    requires Settled(lib, m, NoFault, env, st, v) && !UsedByCells(m, n)
    requires forall name :: name in m.ports && m.ports[name].dir.Input? ==> Net(n) !in m.ports[name].bits
    ensures Settled(lib, m, NoFault, env, st, Toggled(v, n))
  {
    var w := Toggled(v, n);
    forall x | x in m.cells ensures CellOk(lib, NoFault, m.cells[x], st(x), w) {
      var c := m.cells[x];
      assert AgreeOn(c, v, w) by {
        forall p, i | p in c.conns && 0 <= i < |c.conns[p]| ensures BitVal(v, c.conns[p][i]) == BitVal(w, c.conns[p][i]) {
          assert Net(n) !in c.conns[p];
        }
      }
      CellOkAgree(lib, NoFault, c, st(x), v, w);
    }
    forall name | name in m.ports ensures PortOk(NoFault, env, name, m.ports[name], w) {
      assert PortOk(NoFault, env, name, m.ports[name], v);
    }
  }

  // With one driver per net, a dropped input's net is on no other input.
  lemma OnlyInput(m: Module, names: set<Name>, name: Name, other: Name, n: nat)
    requires SingleDriver(m) && DroppedNet(m, names, name, n) && other in m.ports && m.ports[other].dir.Input? && Net(n) in m.ports[other].bits
    ensures other == name
  {
    var i :| 0 <= i < |m.ports[other].bits| && m.ports[other].bits[i] == Net(n);
    assert Drives(m, PortBit(name, 0), n) && Drives(m, PortBit(other, i), n);
  }

  lemma DropLoses(m: Module, names: set<Name>, rank: nat -> nat, name: Name, other: Name, n: nat)
    requires SingleDriver(m) && Ranked(m, rank)
    requires DroppedNet(m, names, name, n) && other in m.ports && other !in names && Net(n) in m.ports[other].bits
    ensures !DropKeeps(m, names)
  {
    var lib: Library, env: Inputs, st: State := (t, p, i, ins) => false, (x, i) => false, x => false;
    var v := Evaluated(lib, m, NoFault, env, st, rank);
    var d := DropDangling(m, names);
    EvaluatedSettles(lib, m, NoFault, env, st, rank);
    DropForth(lib, m, names, NoFault, env, st, v);
    forall x | x in d.ports && d.ports[x].dir.Input? ensures Net(n) !in d.ports[x].bits {
      if Net(n) in d.ports[x].bits {
        OnlyInput(m, names, name, x, n);
      }
    }
    ToggleSettles(lib, d, env, st, v, n);
    var u := Toggled(v, n);
    assert m.ports[name] == Port(Input, [Net(n)]);
    PortCarries(lib, m, NoFault, env, st, v, name, n);
    var k :| 0 <= k < |m.ports[other].bits| && m.ports[other].bits[k] == Net(n);
    assert BitsVal(u, m.ports[other].bits)[k] == u(n);
    forall w: Valuation | Settled(lib, m, NoFault, env, st, w) ensures BitsVal(w, m.ports[other].bits) != BitsVal(u, m.ports[other].bits) {
      PortCarries(lib, m, NoFault, env, st, w, name, n);
      assert BitsVal(w, m.ports[other].bits)[k] == w(n);
    }
    hide Settled;
    assert !DropMatched(lib, m, names, NoFault, env, st, u);
  }

  /** Dropping the dangling ports keeps the settled valuations exactly when no
      dropped input's net is on a port that stays. The other direction always holds
      (DropForth). */
  lemma DropExact(m: Module, names: set<Name>, rank: nat -> nat)
    requires SingleDriver(m) && Ranked(m, rank)
    ensures DropKeeps(m, names) <==>
              forall name, other, n: nat :: DroppedNet(m, names, name, n) && other in m.ports && Net(n) in m.ports[other].bits ==> other in names
  {
    hide DropKeeps, DropSafe, SingleDriver, Ranked;
    if name, other, n: nat :| DroppedNet(m, names, name, n) && other in m.ports && Net(n) in m.ports[other].bits && other !in names {
      DropLoses(m, names, rank, name, other, n);
    } else {
      assert DropSafe(m, names) by { SafeWhen(m, names); }
      SafeKeeps(m, names);
    }
  }

  lemma SafeWhen(m: Module, names: set<Name>)
    requires SingleDriver(m)
    requires forall name, other, n: nat :: DroppedNet(m, names, name, n) && other in m.ports && Net(n) in m.ports[other].bits ==> other in names
    ensures DropSafe(m, names)
  {
    forall name, other, n: nat | DroppedNet(m, names, name, n) && other in m.ports && other != name && Net(n) in m.ports[other].bits
      ensures other in names && m.ports[other].dir.Output?
    {
      if m.ports[other].dir.Input? {
        OnlyInput(m, names, name, other, n);
      }
    }
  }

  /* ---- the whole view ---- */

  ghost predicate ViewMatched(lib: Library, s: Setup, p: Finish, f: Fault, env: Inputs, st: State, v: Valuation)
  {
    exists w: Valuation ::
      Settled(lib, s.g, f, env, st, w) && Mirrors(s.g, w, ReducedView(s, p), v, Elems(s.order), st, s.keep + p.drop)
  }

  // Every settled view, fault or no fault, is one the netlist explains.
  ghost predicate ViewKeeps(s: Setup, p: Finish)
  {
    forall lib: Library, f: Fault, env: Inputs, st: State, v: Valuation ::
      FaultBelow(f, s.next) && Free(f, s.se) && Loaded(s, env, st) && !env(p.sePort, 0)
      && Settled(lib, ReducedView(s, p), ViewFault(s, f), env, st, v)
      ==> ViewMatched(lib, s, p, f, env, st, v)
  }

  lemma NoForwardKeeps(s: Setup, p: Finish)
    requires FinishReady(s, p) && s.se < s.next && NoForward(s, p.drop)
    ensures ViewKeeps(s, p)
  {
    hide FinishReady, NoForward, ReducedView, Settled, Mirrors, ViewFault, Loaded;
    forall lib: Library, f: Fault, env: Inputs, st: State, v: Valuation |
      FaultBelow(f, s.next) && Free(f, s.se) && Loaded(s, env, st) && !env(p.sePort, 0)
      && Settled(lib, ReducedView(s, p), ViewFault(s, f), env, st, v)
      ensures ViewMatched(lib, s, p, f, env, st, v)
    {
      var w := ViewBack(lib, s, p, f, env, st, v);
    }
  }

  // A settled state of the cut netlist whose forwarded net may take either value.
  lemma CutLoose(lib: Library, s: Setup, p: Finish, rank: nat -> nat, env: Inputs, st: State, name: Name, other: Name, n: nat) returns (u: Valuation)
    requires FinishReady(s, p) && s.se < s.next && SingleDriver(s.g) && Ranked(s.g, rank)
    requires Forwarded(s.g, Elems(s.order), p.drop, name, other, n) && Loaded(s, env, st) && !env(p.sePort, 0)
    ensures Settled(lib, Dropped(s, p).m, NoFault, env, st, u) && u(n) == !env(name, 0)
    ensures PortsHold(s.g, s.At(|s.order|).m, n) && (other !in p.drop ==> other in Dropped(s, p).m.ports && Dropped(s, p).m.ports[other] == s.At(|s.order|).m.ports[other])
  {
    var k, m := |s.order|, s.At(|s.order|).m;
    ForwardForeign(s, p, name, other, n);
    UsedAfterCuts(s, n);
    HeldPort(s.g, m, n, name);
    var w := Evaluated(lib, s.g, NoFault, env, st, rank);
    EvaluatedSettles(lib, s.g, NoFault, env, st, rank);
    assert s.order[..k] == s.order;
    var t := LowerCut(lib, s, p, env, st, w);
    hide FinishReady, CutAll, Setup.At, Settled, Ranked, Evaluated, UsedByCells, StillRead, Loaded;
    DropForth(lib, m, p.drop, NoFault, env, st, t);
    assert Dangling(m, p.drop, name) && DroppedNet(m, p.drop, name, n);
    forall x | x in Dropped(s, p).m.ports && Dropped(s, p).m.ports[x].dir.Input? ensures Net(n) !in Dropped(s, p).m.ports[x].bits {
      if Net(n) in m.ports[x].bits {
        HeldBack(s.g, m, n, x);
        InputAlone(s.g, name, x, n);
      }
    }
    assert t(n) == env(name, 0) by { PortCarries(lib, m, NoFault, env, st, t, name, n); }
    DroppedUses(m, p.drop, n);
    ToggleSettles(lib, Dropped(s, p).m, env, st, t, n);
    u := Toggled(t, n);
  }

  lemma DroppedUses(m: Module, names: set<Name>, n: nat)
    ensures UsedByCells(DropDangling(m, names), n) <==> UsedByCells(m, n)
  {}

  lemma InputAlone(m: Module, name: Name, other: Name, n: nat)
    requires SingleDriver(m) && name in m.ports && m.ports[name] == Port(Input, [Net(n)])
    requires other in m.ports && m.ports[other].dir.Input? && Net(n) in m.ports[other].bits
    ensures other == name
  {
    var i :| 0 <= i < |m.ports[other].bits| && m.ports[other].bits[i] == Net(n);
    assert Drives(m, PortBit(name, 0), n) && Drives(m, PortBit(other, i), n);
  }

  lemma ForwardForeign(s: Setup, p: Finish, name: Name, other: Name, n: nat)
    requires FinishReady(s, p) && Forwarded(s.g, Elems(s.order), p.drop, name, other, n)
    ensures Foreign(s, n)
  {
    assert BitsBelow(s.g.ports[name].bits, s.next) && s.g.ports[name].bits[0] == Net(n);
    assert Net(n) in s.g.ports[name].bits;
    assert forall inst :: inst in s.order ==> inst in Elems(s.order);
  }

  lemma LowerCut(lib: Library, s: Setup, p: Finish, env: Inputs, st: State, w: Valuation) returns (t: Valuation)
    requires FinishReady(s, p) && s.se < s.next && Loaded(s, env, st) && !env(p.sePort, 0)
    requires Settled(lib, s.g, NoFault, env, st, w)
    ensures Settled(lib, s.At(|s.order|).m, NoFault, env, st, t)
  {
    hide CutAll, Settled, Mirrors, PortsOk, MovedFault;
    EnableLow(lib, s.g, NoFault, env, st, w, p, s.se, Elems(s.order));
    t := CutForthAll(lib, s, NoFault, env, st, w, |s.order|);
    NoFaultStays(s, |s.order|);
  }

  lemma ForwardLoses(s: Setup, p: Finish, rank: nat -> nat, name: Name, other: Name, n: nat)
    requires FinishReady(s, p) && s.se < s.next && SingleDriver(s.g) && Ranked(s.g, rank) && s.keep <= p.drop
    requires Forwarded(s.g, Elems(s.order), p.drop, name, other, n)
    ensures !ViewKeeps(s, p)
  {
    var lib: Library, env: Inputs, st: State := (t, q, i, ins) => false, (x, i) => false, x => false;
    assert Loaded(s, env, st);
    assert other !in p.drop by { StaysOut(s.g, Elems(s.order), p.drop, name, other, n); }
    assert FaultBelow(NoFault, s.next) && Free(NoFault, s.se);
    hide FinishReady, SingleDriver, Ranked, Loaded, ReducedView, Dropped, ViewFault, CutAll, Setup.At, Settled, Forwarded, PortsHold, FaultBelow, Free, BitsVal, ViewMatched;
    var u := CutLoose(lib, s, p, rank, env, st, name, other, n);
    var v := LooseView(lib, s, p, env, st, u, other);
    NotMatched(lib, s, p, env, st, u, v, ReducedView(s, p), Dropped(s, p).m.ports[other].bits, name, other, n);
  }

  // With one driver per net, what a dropped input is forwarded to is an output.
  lemma StaysOut(g: Module, cut: set<Name>, drop: set<Name>, name: Name, other: Name, n: nat)
    requires SingleDriver(g) && Forwarded(g, cut, drop, name, other, n)
    ensures other !in drop
  {
    if g.ports[other].dir.Input? {
      InputAlone(g, name, other, n);
    }
  }

  lemma LooseView(lib: Library, s: Setup, p: Finish, env: Inputs, st: State, u: Valuation, other: Name) returns (v: Valuation)
    requires FinishReady(s, p) && Settled(lib, Dropped(s, p).m, NoFault, env, st, u) && other in Dropped(s, p).m.ports
    ensures Settled(lib, ReducedView(s, p), ViewFault(s, NoFault), env, st, v)
    ensures other in ReducedView(s, p).ports && BitsVal(v, ReducedView(s, p).ports[other].bits) == BitsVal(u, Dropped(s, p).m.ports[other].bits)
  {
    CleanReady(s, p);
    NoFaultStays(s, |s.order|);
    hide FinishReady, Settled, BitsVal, Dropped, BranchReady;
    v := BranchForthAll(lib, s, p, NoFault, env, st, u, |s.order|);
    assert s.order[..|s.order|] == s.order;
  }

  lemma CleanReady(s: Setup, p: Finish)
    requires FinishReady(s, p)
    ensures Distinct(s.order) && BranchReady(Dropped(s, p), NoFault, Elems(s.order), p.drives)
  {
    DroppedReady(s, p, NoFault);
    NoFaultStays(s, |s.order|);
    hide BranchReady, Dropped, Setup.At;
  }

  lemma NotMatched(lib: Library, s: Setup, p: Finish, env: Inputs, st: State, u: Valuation, v: Valuation,
                   view: Module, shown: seq<Bit>, name: Name, other: Name, n: nat)
    requires view == ReducedView(s, p) && Forwarded(s.g, Elems(s.order), p.drop, name, other, n) && other !in p.drop + s.keep
    requires other in s.At(|s.order|).m.ports && PortsHold(s.g, s.At(|s.order|).m, n) && shown == s.At(|s.order|).m.ports[other].bits
    requires other in view.ports && BitsVal(v, view.ports[other].bits) == BitsVal(u, shown) && u(n) == !env(name, 0)
    ensures !ViewMatched(lib, s, p, NoFault, env, st, v)
  {
    hide ReducedView, Setup.At;
    var k :| 0 <= k < |s.g.ports[other].bits| && s.g.ports[other].bits[k] == Net(n);
    assert shown[k] == Net(n);
    assert BitsVal(u, shown)[k] == u(n);
    forall w: Valuation | Settled(lib, s.g, NoFault, env, st, w)
      ensures BitsVal(w, s.g.ports[other].bits) != BitsVal(u, shown)
    {
      PortCarries(lib, s.g, NoFault, env, st, w, name, n);
      assert BitsVal(w, s.g.ports[other].bits)[k] == w(n);
    }
    hide Settled;
    assert forall w: Valuation :: Mirrors(s.g, w, view, v, Elems(s.order), st, s.keep + p.drop) ==> ShowsPort(s.g, w, view, v, other);
  }

  /** The reduced view of a singly driven, acyclic netlist is explained by the
      netlist exactly when no droppable input that the view no longer reads is
      forwarded to a port that stays. */
  lemma ViewExactly(s: Setup, p: Finish, rank: nat -> nat)
    requires FinishReady(s, p) && s.se < s.next && SingleDriver(s.g) && Ranked(s.g, rank) && s.keep <= p.drop
    ensures ViewKeeps(s, p) <==> NoForward(s, p.drop)
  {
    hide FinishReady, SingleDriver, Ranked, ViewKeeps, Forwarded;
    if name, other, n: nat :| Forwarded(s.g, Elems(s.order), p.drop, name, other, n) {
      ForwardLoses(s, p, rank, name, other, n);
    } else {
      NoForwardKeeps(s, p);
    }
  }

  /* ---- a clock that is also an output ---- */

  const CLOCK: Name := Text("clk")

  const CLOCK_OUT: Name := Text("clk_out")

  const FORWARDED: Module := Module(map[CLOCK := Port(Input, [Net(0)]), CLOCK_OUT := Port(Output, [Net(0)])], map[])

  /** A clock port forwarded to an output is dropped, and the output that stays
      settles at 0 while the netlist holds it at the clock's value. */
  lemma ClockForwarded(lib: Library, st: State)
    ensures var env: Inputs := (x, i) => true;
            var d := DropDangling(FORWARDED, {CLOCK});
            && CLOCK !in d.ports && CLOCK_OUT in d.ports && Settled(lib, d, NoFault, env, st, (n: nat) => false)
            && forall w: Valuation :: Settled(lib, FORWARDED, NoFault, env, st, w) ==> BitsVal(w, FORWARDED.ports[CLOCK_OUT].bits) == [true]
  {
    var env: Inputs := (x, i) => true;
    assert CLOCK != CLOCK_OUT;
    assert Dangling(FORWARDED, {CLOCK}, CLOCK);
    forall w: Valuation | Settled(lib, FORWARDED, NoFault, env, st, w) ensures BitsVal(w, FORWARDED.ports[CLOCK_OUT].bits) == [true] {
      PortCarries(lib, FORWARDED, NoFault, env, st, w, CLOCK, 0);
    }
  }
}
