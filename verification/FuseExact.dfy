/** When INTEST fusion keeps the core's meaning (faultflow/scan/wbr_view.py): exactly
    when core and system meet only through wrapper cells. */
module FuseExact {
  import opened Netlist
  import opened NetlistEval
  import opened ScanView
  import opened ScanChecks
  import opened Fuse

  // An acyclic wrapped netlist and its fused view.
  ghost predicate FusedFrom(m: Module, m': Module, obs: map<Name, nat>, next: nat, next': nat, rank: nat -> nat)
  {
    FuseReady(m, next) && Wrapped(m) && Observes(m, obs, next, next') && Fused(m, obs, m') && Acyclic(m, rank)
  }

  /* ---- drivers of the fused view ---- */

  // The site of the unfused netlist that drives what a site of the fused view does.
  ghost function Origin(m: Module, s: Site): Site
  {
    match s
    case PortBit(name, i) => if name in m.ports || !name.Made? then s else CellPin(name.base, To, i)
    case CellPin(x, p, i) => s
  }

  lemma DriverOrigin(m: Module, m': Module, obs: map<Name, nat>, next: nat, next': nat, rank: nat -> nat, s: Site, n: nat)
    requires FusedFrom(m, m', obs, next, next', rank) && Drives(m', s, n) && n < next
    ensures Drives(m, Origin(m, s), n) && !Losing(m, Origin(m, s))
  {
    hide Below, DroppedPort, WbcForm, Acyclic, Ints;
    match s
    case PortBit(name, i) => PortOrigin(m, m', obs, next, name, i, n);
    case CellPin(x, p, i) => KeptOrBuffer(m, m', obs, next, next', x, p, i, n);
  }

  lemma PortOrigin(m: Module, m': Module, obs: map<Name, nat>, next: nat, name: Name, i: nat, n: nat)
    requires FuseReady(m, next) && Wrapped(m) && Fused(m, obs, m') && Drives(m', PortBit(name, i), n)
    ensures Drives(m, Origin(m, PortBit(name, i)), n) && !Losing(m, Origin(m, PortBit(name, i)))
  {
    hide Below, DroppedPort, WbcForm, Ints;
    if name !in m.ports {
      assert NewPort(m, obs, name, m'.ports[name]);
      InputSite(m, name.base);
    }
  }

  lemma InputSite(m: Module, x: Name)
    requires Wrapped(m) && x in m.cells && IsInput(m.cells[x]) && CorePinsFormed(m.cells[x])
    ensures Drives(m, CellPin(x, To, 0), CoreNet(m.cells[x]))
  {
    assert WbcForm(m.cells[x]);
  }

  // A cell of the fused view is one that stays, or an observe buffer.
  lemma KeptOrBuffer(m: Module, m': Module, obs: map<Name, nat>, next: nat, next': nat, x: Name, p: Pin, i: nat, n: nat)
    requires Observes(m, obs, next, next') && Fused(m, obs, m') && Drives(m', CellPin(x, p, i), n)
    ensures || (x in m.cells && !Leaves(m.cells[x]) && m'.cells[x] == m.cells[x])
            || (x.Made? && x.base in obs && CellPin(x, p, i) == CellPin(Made(WbObserve, x.base), Y, 0) && n == obs[x.base] >= next)
  {
    hide FusedPorts;
  }

  lemma DrivesBelow(m: Module, next: nat, s: Site, n: nat)
    requires Below(m, next) && Drives(m, s, n)
    ensures n < next
  {
    match s
    case PortBit(name, i) => assert BitsBelow(m.ports[name].bits, next);
    case CellPin(x, p, i) => assert CellBelow(m.cells[x], next) && BitsBelow(m.cells[x].conns[p], next);
  }

  lemma FreshDriver(m: Module, m': Module, obs: map<Name, nat>, next: nat, next': nat, rank: nat -> nat, s: Site, n: nat)
    requires FusedFrom(m, m', obs, next, next', rank) && Drives(m', s, n) && n >= next
    ensures s.CellPin? && s.inst.Made? && s.inst.base in obs && obs[s.inst.base] == n && s == CellPin(Made(WbObserve, s.inst.base), Y, 0)
  {
    hide Fused, Wrapped, Acyclic, Below;
    match s
    case PortBit(name, i) =>
      PortOrigin(m, m', obs, next, name, i, n);
      DrivesBelow(m, next, Origin(m, s), n);
    case CellPin(x, p, i) =>
      KeptOrBuffer(m, m', obs, next, next', x, p, i, n);
      assert Drives(m, s, n) ==> n < next by {
        if Drives(m, s, n) {
          DrivesBelow(m, next, s, n);
        }
      }
  }

  lemma FusedSingle(m: Module, m': Module, obs: map<Name, nat>, next: nat, next': nat, rank: nat -> nat)
    requires FusedFrom(m, m', obs, next, next', rank)
    ensures SingleDriver(m')
  {
    forall s, t, n | Drives(m', s, n) && Drives(m', t, n) ensures s == t {
      OneFusedDriver(m, m', obs, next, next', rank, s, t, n);
    }
  }

  lemma OneFusedDriver(m: Module, m': Module, obs: map<Name, nat>, next: nat, next': nat, rank: nat -> nat, s: Site, t: Site, n: nat)
    requires FusedFrom(m, m', obs, next, next', rank) && Drives(m', s, n) && Drives(m', t, n)
    ensures s == t
  {
    if n < next {
      DriverOrigin(m, m', obs, next, next', rank, s, n);
      DriverOrigin(m, m', obs, next, next', rank, t, n);
      OneSite(m, Origin(m, s), Origin(m, t), n);
      SameOrigin(m, m', obs, s, t, n);
    } else {
      FreshDriver(m, m', obs, next, next', rank, s, n);
      FreshDriver(m, m', obs, next, next', rank, t, n);
    }
  }

  lemma SameOrigin(m: Module, m': Module, obs: map<Name, nat>, s: Site, t: Site, n: nat)
    requires Fused(m, obs, m') && Drives(m', s, n) && Drives(m', t, n) && Origin(m, s) == Origin(m, t)
    ensures s == t
  {
    hide DroppedPort, CoreNet, CorePinsFormed;
  }

  ghost function FusedRank(m: Module, obs: map<Name, nat>, rank: nat -> nat): nat -> nat
  {
    (n: nat) => ObserveRank(m, obs, rank, n)
  }

  ghost function ObserveRank(m: Module, obs: map<Name, nat>, rank: nat -> nat, n: nat): nat
  {
    if exists x :: x in obs && obs[x] == n then
      var x :| x in obs && obs[x] == n;
      if x in m.cells && IsOutput(m.cells[x]) && CorePinsFormed(m.cells[x]) then rank(CoreNet(m.cells[x])) + 1 else 0
    else rank(n)
  }

  lemma FusedRanked(m: Module, m': Module, obs: map<Name, nat>, next: nat, next': nat, rank: nat -> nat)
    requires FusedFrom(m, m', obs, next, next', rank)
    ensures Ranked(m', FusedRank(m, obs, rank))
  {
    var rank' := FusedRank(m, obs, rank);
    forall x, p, i, k | x in m'.cells && p in m'.cells[x].conns && p in m'.cells[x].outs
                        && 0 <= i < |m'.cells[x].conns[p]| && m'.cells[x].conns[p][i].Net? && FollowsNet(m'.cells[x], k)
      ensures rank'(k) < rank'(m'.cells[x].conns[p][i].id)
    {
      CellRanked(m, m', obs, next, next', rank, x, p, i, k);
    }
  }

  lemma OldRank(m: Module, obs: map<Name, nat>, next: nat, next': nat, rank: nat -> nat, n: nat)
    requires Observes(m, obs, next, next') && n < next
    ensures FusedRank(m, obs, rank)(n) == rank(n)
  {}

  lemma CellRanked(m: Module, m': Module, obs: map<Name, nat>, next: nat, next': nat, rank: nat -> nat, x: Name, p: Pin, i: nat, k: nat)
    requires FusedFrom(m, m', obs, next, next', rank)
    requires x in m'.cells && p in m'.cells[x].conns && p in m'.cells[x].outs && i < |m'.cells[x].conns[p]|
    requires m'.cells[x].conns[p][i].Net? && FollowsNet(m'.cells[x], k)
    ensures FusedRank(m, obs, rank)(k) < FusedRank(m, obs, rank)(m'.cells[x].conns[p][i].id)
  {
    var c, n := m'.cells[x], m'.cells[x].conns[p][i].id;
    hide FusedRank, Fused, Ranked, Closed, SingleDriver, Wrapped;
    if x in m.cells && !Leaves(m.cells[x]) {
      KeptIs(m, m', obs, x);
      FollowsBelow(c, next, k);
      assert BitsBelow(c.conns[p], next);
      OldRank(m, obs, next, next', rank, k);
      OldRank(m, obs, next, next', rank, n);
      KeptRanked(m, rank, x, p, i, k);
    } else {
      BufferRanked(m, m', obs, next, next', rank, x, p, i, k);
    }
  }

  lemma KeptIs(m: Module, m': Module, obs: map<Name, nat>, x: Name)
    requires Fused(m, obs, m') && x in m.cells && !Leaves(m.cells[x])
    ensures x in m'.cells && m'.cells[x] == m.cells[x]
  {}

  lemma FollowsBelow(c: Cell, next: nat, k: nat)
    requires CellBelow(c, next) && FollowsNet(c, k)
    ensures k < next
  {
    var q :| q in c.conns && Follows(c, q) && Net(k) in c.conns[q];
    assert BitsBelow(c.conns[q], next);
  }

  lemma KeptRanked(m: Module, rank: nat -> nat, x: Name, p: Pin, i: nat, k: nat)
    requires Ranked(m, rank) && x in m.cells && p in m.cells[x].conns && p in m.cells[x].outs && i < |m.cells[x].conns[p]|
    requires m.cells[x].conns[p][i].Net? && FollowsNet(m.cells[x], k)
    ensures rank(k) < rank(m.cells[x].conns[p][i].id)
  {}

  lemma BufferRanked(m: Module, m': Module, obs: map<Name, nat>, next: nat, next': nat, rank: nat -> nat, x: Name, p: Pin, i: nat, k: nat)
    requires FusedFrom(m, m', obs, next, next', rank) && x in m'.cells && !(x in m.cells && !Leaves(m.cells[x]))
    requires p in m'.cells[x].conns && p in m'.cells[x].outs && i < |m'.cells[x].conns[p]| && m'.cells[x].conns[p][i].Net?
    requires FollowsNet(m'.cells[x], k)
    ensures FusedRank(m, obs, rank)(k) < FusedRank(m, obs, rank)(m'.cells[x].conns[p][i].id)
  {
    hide Acyclic, Below, WbcForm, FusedPorts;
    var y := x.base;
    assert x.Made? && x.tag.WbObserve? && y in obs;
    var core := CoreNet(m.cells[y]);
    assert m'.cells[x] == BufCell(Net(core), obs[y]);
    assert k == core;
    assert CellBelow(m.cells[y], next) by { CellsBelow(m, next, y); }
    CoreBelow(m.cells[y], next);
    OldRank(m, obs, next, next', rank, core);
    assert forall z :: z in obs && obs[z] == obs[y] ==> z == y;
  }

  lemma CellsBelow(m: Module, next: nat, x: Name)
    requires Below(m, next) && x in m.cells
    ensures CellBelow(m.cells[x], next)
  {}

  // A net keeps its driver unless it is lost, or is a core input whose port goes.
  lemma StillDriven(m: Module, m': Module, obs: map<Name, nat>, next: nat, next': nat, rank: nat -> nat, n: nat)
    requires FusedFrom(m, m', obs, next, next', rank) && Separate(m) && Driven(m, n) && !Lost(m, n)
    ensures Driven(m', n)
  {
    hide Below, Separate, DroppedPort, WbcForm, Lost;
    var s :| Drives(m, s, n);
    LostDriver(m, s, n);
    match s
    case PortBit(name, i) => assert Drives(m', s, n);
    case CellPin(x, p, i) =>
      if Leaves(m.cells[x]) {
        assert WbcForm(m.cells[x]);
        InputPort(m, m', obs, next, x, p, i, n);
      } else {
        assert Drives(m', s, n);
      }
  }

  lemma InputPort(m: Module, m': Module, obs: map<Name, nat>, next: nat, x: Name, p: Pin, i: nat, n: nat)
    requires FuseReady(m, next) && Fused(m, obs, m') && Separate(m) && Drives(m, CellPin(x, p, i), n)
    requires Leaves(m.cells[x]) && WbcForm(m.cells[x]) && !Losing(m, CellPin(x, p, i))
    ensures Driven(m', n)
  {
    hide Below, Lost, Avoids;
    var name, port := Made(Wbi, x), Port(Input, [Net(n)]);
    assert p == To && IsInput(m.cells[x]) && CorePinsFormed(m.cells[x]) && CoreNet(m.cells[x]) == n;
    assert NewPort(m, obs, name, port);
    SoleInt(n);
    assert m'.ports[name] == port;
    assert Drives(m', PortBit(name, 0), n);
  }

  lemma FusedFed(m: Module, m': Module, obs: map<Name, nat>, next: nat, next': nat, rank: nat -> nat)
    requires FusedFrom(m, m', obs, next, next', rank) && Separate(m)
    ensures Fed(m')
  {
    forall x, p, i | x in m'.cells && p in m'.cells[x].conns && 0 <= i < |m'.cells[x].conns[p]| && m'.cells[x].conns[p][i].Net?
      ensures Driven(m', m'.cells[x].conns[p][i].id)
    {
      PinFed(m, m', obs, next, next', rank, x, p, i);
    }
  }

  lemma PinFed(m: Module, m': Module, obs: map<Name, nat>, next: nat, next': nat, rank: nat -> nat, x: Name, p: Pin, i: nat)
    requires FusedFrom(m, m', obs, next, next', rank) && Separate(m)
    requires x in m'.cells && p in m'.cells[x].conns && i < |m'.cells[x].conns[p]| && m'.cells[x].conns[p][i].Net?
    ensures Driven(m', m'.cells[x].conns[p][i].id)
  {
    hide Below, DroppedPort, WbcForm, Lost, Driven, Ranked, SingleDriver;
    var n := m'.cells[x].conns[p][i].id;
    if x in m.cells && !Leaves(m.cells[x]) {
      KeptIs(m, m', obs, x);
      StillDriven(m, m', obs, next, next', rank, n);
    } else {
      var y := x.base;
      assert m'.cells[x] == BufCell(Net(CoreNet(m.cells[y])), obs[y]);
      if p == Y {
        BufferDrives(m', x, Net(CoreNet(m.cells[y])), obs[y]);
      } else {
        CoreDrivenInside(m, y);
        StillDriven(m, m', obs, next, next', rank, n);
      }
    }
  }

  lemma BufferDrives(m: Module, x: Name, b: Bit, n: nat)
    requires x in m.cells && m.cells[x] == BufCell(b, n)
    ensures Driven(m, n)
  {
    assert Drives(m, CellPin(x, Y, 0), n);
  }

  lemma CoreDrivenInside(m: Module, y: Name)
    requires Closed(m) && y in m.cells && IsOutput(m.cells[y]) && CorePinsFormed(m.cells[y])
    ensures Driven(m, CoreNet(m.cells[y]))
  {
    assert m.cells[y].conns[From][0] == Net(CoreNet(m.cells[y]));
  }

  // A lost net, and a core input whose port goes, float in the fused view.
  lemma LostFloats(m: Module, m': Module, obs: map<Name, nat>, next: nat, next': nat, rank: nat -> nat, n: nat)
    requires FusedFrom(m, m', obs, next, next', rank) && Lost(m, n)
    ensures !Driven(m', n)
  {
    LostBelow(m, next, n);
    if s :| Drives(m', s, n) {
      DriverOrigin(m, m', obs, next, next', rank, s, n);
      LostDriver(m, Origin(m, s), n);
    }
  }

  lemma LostBelow(m: Module, next: nat, n: nat)
    requires Below(m, next) && Lost(m, n)
    ensures n < next
  {
    if name, i: nat :| PortLoses(m, name, i, n) {
      assert BitsBelow(m.ports[name].bits, next);
    } else {
      var x, p :| PinLoses(m, x, p, n);
      assert CellBelow(m.cells[x], next) && BitsBelow(m.cells[x].conns[p], next);
    }
  }

  lemma InputFloats(m: Module, m': Module, obs: map<Name, nat>, next: nat, next': nat, rank: nat -> nat, x: Name)
    requires FusedFrom(m, m', obs, next, next', rank)
    requires x in m.cells && IsInput(m.cells[x]) && CorePinsFormed(m.cells[x]) && DroppedNet(m, CoreNet(m.cells[x]))
    ensures !Driven(m', CoreNet(m.cells[x]))
  {
    var n := CoreNet(m.cells[x]);
    InputBelow(m, next, x);
    InputSite(m, x);
    if s :| Drives(m', s, n) {
      DriverOrigin(m, m', obs, next, next', rank, s, n);
      OneSite(m, Origin(m, s), CellPin(x, To, 0), n);
      PortLeft(m, m', obs, next, next', s, x, n);
    }
  }

  // A core input still driven has its port.
  lemma PortLeft(m: Module, m': Module, obs: map<Name, nat>, next: nat, next': nat, s: Site, x: Name, n: nat)
    requires Fused(m, obs, m') && Observes(m, obs, next, next') && n < next && Drives(m', s, n) && Origin(m, s) == CellPin(x, To, 0)
    requires x in m.cells && IsInput(m.cells[x])
    ensures !DroppedNet(m, n)
  {
    hide DroppedNet, Ints;
    SoleInt(n);
  }

  /* ---- the exact condition ---- */

  // The core is the same: every cell that stays, every core input, every core output.
  ghost predicate CoreSame(m: Module, obs: map<Name, nat>, v: Valuation, u: Valuation)
  {
    && (forall x, p :: x in m.cells && !Leaves(m.cells[x]) && p in m.cells[x].conns
                       ==> BitsVal(u, m.cells[x].conns[p]) == BitsVal(v, m.cells[x].conns[p]))
    && (forall x :: x in m.cells && IsInput(m.cells[x]) && CorePinsFormed(m.cells[x]) ==> u(CoreNet(m.cells[x])) == v(CoreNet(m.cells[x])))
    && (forall x :: x in obs && x in m.cells ==> u(obs[x]) == PinVal(v, m.cells[x], From))
  }

  // One run of both: the fused view driven with what the system side carries.
  ghost predicate Beside(lib: Library, m: Module, m': Module, f: Fault, env: Inputs, env': Inputs, st: State, v: Valuation, u: Valuation)
  {
    Settled(lib, m, f, env, st, v) && Settled(lib, m', f, env', st, u) && SameDrive(m, env, env', v)
  }

  // However the fused view settles, its core is the netlist's.
  ghost predicate FuseKeeps(m: Module, m': Module, obs: map<Name, nat>, next: nat)
  {
    forall lib: Library, f: Fault, env: Inputs, env': Inputs, st: State, v: Valuation, u: Valuation ::
      FaultBelow(f, next) && Beside(lib, m, m', f, env, env', st, v, u) ==> CoreSame(m, obs, v, u)
  }

  // And a kept port shows what the netlist's does.
  ghost predicate PortKeeps(m: Module, m': Module, next: nat, name: Name)
    requires name in m.ports
  {
    forall lib: Library, f: Fault, env: Inputs, env': Inputs, st: State, v: Valuation, u: Valuation ::
      FaultBelow(f, next) && Beside(lib, m, m', f, env, env', st, v, u) ==> BitsVal(u, m.ports[name].bits) == BitsVal(v, m.ports[name].bits)
  }

  // Where the fused view has a driver, it settles one way.
  lemma FusedAgrees(lib: Library, m: Module, m': Module, obs: map<Name, nat>, next: nat, next': nat, rank: nat -> nat,
                    f: Fault, env: Inputs, env': Inputs, st: State, v: Valuation, u: Valuation, n: nat)
    requires FusedFrom(m, m', obs, next, next', rank) && Separate(m) && FaultBelow(f, next) && Beside(lib, m, m', f, env, env', st, v, u)
    requires Driven(m', n)
    ensures u(n) == WithObserve(m, obs, v)(n)
  {
    hide Observes, Separate, Driven, Settled, SameDrive, WithObserve, FuseReady, Wrapped, Fused, Acyclic;
    FusedRanked(m, m', obs, next, next', rank);
    FusedFed(m, m', obs, next, next', rank);
    FuseForth(lib, m, m', obs, next, next', f, env, env', st, v);
    SettledUnique(lib, m', f, env', st, FusedRank(m, obs, rank), u, WithObserve(m, obs, v), n);
  }

  lemma OldAgrees(lib: Library, m: Module, m': Module, obs: map<Name, nat>, next: nat, next': nat, rank: nat -> nat,
                  f: Fault, env: Inputs, env': Inputs, st: State, v: Valuation, u: Valuation, n: nat)
    requires FusedFrom(m, m', obs, next, next', rank) && Separate(m) && FaultBelow(f, next) && Beside(lib, m, m', f, env, env', st, v, u)
    requires n < next && Driven(m, n) && !Lost(m, n)
    ensures u(n) == v(n)
  {
    StillDriven(m, m', obs, next, next', rank, n);
    FusedAgrees(lib, m, m', obs, next, next', rank, f, env, env', st, v, u, n);
    ObserveAgrees(m, obs, next, next', v);
  }

  lemma PinSame(lib: Library, m: Module, m': Module, obs: map<Name, nat>, next: nat, next': nat, rank: nat -> nat,
                f: Fault, env: Inputs, env': Inputs, st: State, v: Valuation, u: Valuation, x: Name, p: Pin)
    requires FusedFrom(m, m', obs, next, next', rank) && Separate(m) && FaultBelow(f, next) && Beside(lib, m, m', f, env, env', st, v, u)
    requires x in m.cells && !Leaves(m.cells[x]) && p in m.cells[x].conns
    ensures BitsVal(u, m.cells[x].conns[p]) == BitsVal(v, m.cells[x].conns[p])
  {
    var bits := m.cells[x].conns[p];
    assert Avoids(m, bits) && Closed(m) && BitsBelow(bits, next) by { CellsBelow(m, next, x); }
    forall i | 0 <= i < |bits| ensures BitVal(u, bits[i]) == BitVal(v, bits[i]) {
      if bits[i].Net? {
        assert Driven(m, bits[i].id);
        OldAgrees(lib, m, m', obs, next, next', rank, f, env, env', st, v, u, bits[i].id);
      }
    }
  }

  lemma SeparateKeeps(m: Module, m': Module, obs: map<Name, nat>, next: nat, next': nat, rank: nat -> nat)
    requires FusedFrom(m, m', obs, next, next', rank) && Separate(m)
    ensures FuseKeeps(m, m', obs, next)
  {
    hide Beside;
    forall lib: Library, f: Fault, env: Inputs, env': Inputs, st: State, v: Valuation, u: Valuation
      | FaultBelow(f, next) && Beside(lib, m, m', f, env, env', st, v, u)
      ensures CoreSame(m, obs, v, u)
    {
      CoreAgrees(lib, m, m', obs, next, next', rank, f, env, env', st, v, u);
    }
  }

  lemma CoreAgrees(lib: Library, m: Module, m': Module, obs: map<Name, nat>, next: nat, next': nat, rank: nat -> nat,
                   f: Fault, env: Inputs, env': Inputs, st: State, v: Valuation, u: Valuation)
    requires FusedFrom(m, m', obs, next, next', rank) && Separate(m) && FaultBelow(f, next) && Beside(lib, m, m', f, env, env', st, v, u)
    ensures CoreSame(m, obs, v, u)
  {
    hide FusedFrom, Separate, Beside, BitsVal, FaultBelow;
    forall x, p | x in m.cells && !Leaves(m.cells[x]) && p in m.cells[x].conns
      ensures BitsVal(u, m.cells[x].conns[p]) == BitsVal(v, m.cells[x].conns[p])
    {
      PinSame(lib, m, m', obs, next, next', rank, f, env, env', st, v, u, x, p);
    }
    forall x | x in m.cells && IsInput(m.cells[x]) && CorePinsFormed(m.cells[x]) ensures u(CoreNet(m.cells[x])) == v(CoreNet(m.cells[x])) {
      InputSame(lib, m, m', obs, next, next', rank, f, env, env', st, v, u, x);
    }
    forall x | x in obs && x in m.cells ensures u(obs[x]) == PinVal(v, m.cells[x], From) {
      OutputSame(lib, m, m', obs, next, next', rank, f, env, env', st, v, u, x);
    }
  }

  lemma InputSame(lib: Library, m: Module, m': Module, obs: map<Name, nat>, next: nat, next': nat, rank: nat -> nat,
                  f: Fault, env: Inputs, env': Inputs, st: State, v: Valuation, u: Valuation, x: Name)
    requires FusedFrom(m, m', obs, next, next', rank) && Separate(m) && FaultBelow(f, next) && Beside(lib, m, m', f, env, env', st, v, u)
    requires x in m.cells && IsInput(m.cells[x]) && CorePinsFormed(m.cells[x])
    ensures u(CoreNet(m.cells[x])) == v(CoreNet(m.cells[x]))
  {
    hide Beside, Separate, Observes, Fused, Below;
    InputSite(m, x);
    InputNotLost(m, x);
    InputBelow(m, next, x);
    OldAgrees(lib, m, m', obs, next, next', rank, f, env, env', st, v, u, CoreNet(m.cells[x]));
  }

  lemma OutputSame(lib: Library, m: Module, m': Module, obs: map<Name, nat>, next: nat, next': nat, rank: nat -> nat,
                   f: Fault, env: Inputs, env': Inputs, st: State, v: Valuation, u: Valuation, x: Name)
    requires FusedFrom(m, m', obs, next, next', rank) && Separate(m) && FaultBelow(f, next) && Beside(lib, m, m', f, env, env', st, v, u)
    requires x in obs && x in m.cells
    ensures u(obs[x]) == PinVal(v, m.cells[x], From)
  {
    hide Beside, Separate, Below, WbcForm, Acyclic, FusedPorts;
    assert Made(WbObserve, x) in m'.cells && m'.cells[Made(WbObserve, x)] == BufCell(Net(CoreNet(m.cells[x])), obs[x]);
    BufferDrives(m', Made(WbObserve, x), Net(CoreNet(m.cells[x])), obs[x]);
    FusedAgrees(lib, m, m', obs, next, next', rank, f, env, env', st, v, u, obs[x]);
    ObserveAt(m, obs, next, next', v, x);
  }

  // What the fused view is driven with, and a netlist run to drive it from.
  ghost function DrivenWith(m: Module, v: Valuation): Inputs
  {
    (name: Name, i: nat) => name.Made? && name.tag.Wbi? && name.base in m.cells && PinVal(v, m.cells[name.base], From)
  }

  // A floating net of the fused view can differ from any value the netlist has there.
  lemma FloatDiffers(m: Module, m': Module, obs: map<Name, nat>, next: nat, next': nat, rank: nat -> nat, n: nat)
    returns (lib: Library, env: Inputs, env': Inputs, st: State, v: Valuation, u: Valuation)
    requires FusedFrom(m, m', obs, next, next', rank) && !Driven(m', n)
    ensures Beside(lib, m, m', NoFault, env, env', st, v, u) && u(n) == !v(n)
  {
    lib, env, st := (t, p, i, ins) => false, (x, i) => false, x => false;
    v := Evaluated(lib, m, NoFault, env, st, rank);
    EvaluatedSettles(lib, m, NoFault, env, st, rank);
    env' := DrivenWith(m, v);
    FusedRanked(m, m', obs, next, next', rank);
    FusedSingle(m, m', obs, next, next', rank);
    var rank' := FusedRank(m, obs, rank);
    FloatsFree(lib, m', env', st, rank', n, !v(n));
    u := Floated(lib, m', env', st, rank', n, !v(n));
    hide Floated, Evaluated, Settled, Fused, Observes, Acyclic, Driven;
    assert forall name, i: nat :: name in m.ports ==> env'(name, i) == env(name, i);
    assert SameDrive(m, env, env', v);
  }

  lemma CellLoses(m: Module, m': Module, obs: map<Name, nat>, next: nat, next': nat, rank: nat -> nat, x: Name, p: Pin, i: nat)
    requires FusedFrom(m, m', obs, next, next', rank)
    requires x in m.cells && !Leaves(m.cells[x]) && p in m.cells[x].conns && i < |m.cells[x].conns[p]|
    requires m.cells[x].conns[p][i].Net? && Lost(m, m.cells[x].conns[p][i].id)
    ensures !FuseKeeps(m, m', obs, next)
  {
    var bits := m.cells[x].conns[p];
    LostFloats(m, m', obs, next, next', rank, bits[i].id);
    var lib, env, env', st, v, u := FloatDiffers(m, m', obs, next, next', rank, bits[i].id);
    hide FusedFrom, Lost, Beside;
    assert BitsVal(u, bits)[i] != BitsVal(v, bits)[i];
    assert !CoreSame(m, obs, v, u);
    assert FaultBelow(NoFault, next);
  }

  lemma InputLoses(m: Module, m': Module, obs: map<Name, nat>, next: nat, next': nat, rank: nat -> nat, x: Name)
    requires FusedFrom(m, m', obs, next, next', rank)
    requires x in m.cells && IsInput(m.cells[x]) && CorePinsFormed(m.cells[x]) && DroppedNet(m, CoreNet(m.cells[x]))
    ensures !FuseKeeps(m, m', obs, next)
  {
    InputFloats(m, m', obs, next, next', rank, x);
    var lib, env, env', st, v, u := FloatDiffers(m, m', obs, next, next', rank, CoreNet(m.cells[x]));
    hide FusedFrom, DroppedNet, Beside;
    assert !CoreSame(m, obs, v, u);
    assert FaultBelow(NoFault, next);
  }

  lemma OutputLoses(m: Module, m': Module, obs: map<Name, nat>, next: nat, next': nat, rank: nat -> nat, x: Name)
    requires FusedFrom(m, m', obs, next, next', rank)
    requires x in m.cells && IsOutput(m.cells[x]) && CorePinsFormed(m.cells[x]) && Lost(m, CoreNet(m.cells[x]))
    ensures !FuseKeeps(m, m', obs, next)
  {
    var n := CoreNet(m.cells[x]);
    LostFloats(m, m', obs, next, next', rank, n);
    var lib, env, env', st, v, u := FloatDiffers(m, m', obs, next, next', rank, n);
    assert FaultBelow(NoFault, next) && x in obs;
    ObserveValue(lib, m, m', obs, next, next', NoFault, env', st, u, x);
    assert WbcForm(m.cells[x]);
    FromIs(m.cells[x], v);
    hide FusedFrom, Lost, Beside;
    assert !CoreSame(m, obs, v, u);
  }

  /** The fused view keeps the core's meaning, net for net and under every fault,
      exactly when core and system meet only through wrapper cells. */
  lemma FuseExactly(m: Module, m': Module, obs: map<Name, nat>, next: nat, next': nat, rank: nat -> nat)
    requires FusedFrom(m, m', obs, next, next', rank)
    ensures FuseKeeps(m, m', obs, next) <==> Separate(m)
  {
    hide FusedFrom, FuseKeeps, Lost, DroppedNet;
    if Separate(m) {
      SeparateKeeps(m, m', obs, next, next', rank);
    } else if x, p, i :| x in m.cells && !Leaves(m.cells[x]) && p in m.cells[x].conns && 0 <= i < |m.cells[x].conns[p]|
                         && m.cells[x].conns[p][i].Net? && Lost(m, m.cells[x].conns[p][i].id) {
      CellLoses(m, m', obs, next, next', rank, x, p, i);
    } else if x :| x in m.cells && IsInput(m.cells[x]) && CorePinsFormed(m.cells[x]) && DroppedNet(m, CoreNet(m.cells[x])) {
      InputLoses(m, m', obs, next, next', rank, x);
    } else {
      var x :| x in m.cells && IsOutput(m.cells[x]) && CorePinsFormed(m.cells[x]) && Lost(m, CoreNet(m.cells[x]));
      OutputLoses(m, m', obs, next, next', rank, x);
    }
  }

  /** A port that stays shows what the netlist's shows exactly when none of its nets
      is lost: a bus of wrapped outputs stays and floats. */
  lemma KeptPortExact(m: Module, m': Module, obs: map<Name, nat>, next: nat, next': nat, rank: nat -> nat, name: Name)
    requires FusedFrom(m, m', obs, next, next', rank) && Separate(m) && name in m.ports && !DroppedPort(m, m.ports[name])
    ensures name in m'.ports && m'.ports[name] == m.ports[name]
    ensures PortKeeps(m, m', next, name) <==> Avoids(m, m.ports[name].bits)
  {
    var bits := m.ports[name].bits;
    hide Beside, Lost, DroppedPort;
    if Avoids(m, bits) {
      forall lib: Library, f: Fault, env: Inputs, env': Inputs, st: State, v: Valuation, u: Valuation
        | FaultBelow(f, next) && Beside(lib, m, m', f, env, env', st, v, u)
        ensures BitsVal(u, bits) == BitsVal(v, bits)
      {
        PortSame(lib, m, m', obs, next, next', rank, f, env, env', st, v, u, name);
      }
    } else {
      var i :| 0 <= i < |bits| && bits[i].Net? && Lost(m, bits[i].id);
      LostFloats(m, m', obs, next, next', rank, bits[i].id);
      var lib, env, env', st, v, u := FloatDiffers(m, m', obs, next, next', rank, bits[i].id);
      assert BitsVal(u, bits)[i] != BitsVal(v, bits)[i];
      assert FaultBelow(NoFault, next);
    }
  }

  lemma PortSame(lib: Library, m: Module, m': Module, obs: map<Name, nat>, next: nat, next': nat, rank: nat -> nat,
                 f: Fault, env: Inputs, env': Inputs, st: State, v: Valuation, u: Valuation, name: Name)
    requires FusedFrom(m, m', obs, next, next', rank) && Separate(m) && FaultBelow(f, next) && Beside(lib, m, m', f, env, env', st, v, u)
    requires name in m.ports && Avoids(m, m.ports[name].bits)
    ensures BitsVal(u, m.ports[name].bits) == BitsVal(v, m.ports[name].bits)
  {
    var bits := m.ports[name].bits;
    assert BitsBelow(bits, next);
    assert forall i :: 0 <= i < |bits| && bits[i].Net? ==> Driven(m, bits[i].id);
    forall i | 0 <= i < |bits| ensures BitVal(u, bits[i]) == BitVal(v, bits[i]) {
      if bits[i].Net? {
        OldAgrees(lib, m, m', obs, next, next', rank, f, env, env', st, v, u, bits[i].id);
      }
    }
  }
}
