/** INTEST fusion (faultflow/scan/wbr_view.py): the wrapper cells leave the view,
    each core input becomes a pseudo-input and each core output a pseudo-output. */
module Fuse {
  import opened Netlist
  import opened NetlistEval
  import opened ScanView
  import opened ScanChecks

  /* ---- which cells and ports ---- */

  predicate ConstantAt(c: Cell, p: Pin) { p in c.conns && |c.conns[p]| == 1 && c.conns[p][0].Lit? }

  // Core inputs, core outputs, and outputs tied to a constant.
  predicate IsInput(c: Cell) { c.kind.WbcIn? && !ConstantAt(c, To) }

  predicate IsOutput(c: Cell) { c.kind.WbcOut? && !ConstantAt(c, From) }

  predicate IsTied(c: Cell) { c.kind.WbcOut? && ConstantAt(c, From) }

  predicate Leaves(c: Cell) { IsInput(c) || IsOutput(c) || IsTied(c) }

  predicate CorePinsFormed(c: Cell) { NetAt(c, From).Some? && NetAt(c, To).Some? }

  function CoreNet(c: Cell): nat
    requires CorePinsFormed(c) && (IsInput(c) || IsOutput(c))
  {
    if IsInput(c) then NetAt(c, To).value else NetAt(c, From).value
  }

  function Ints(bits: seq<Bit>): (r: seq<nat>)
    ensures forall n :: n in r <==> Net(n) in bits
  {
    if bits == [] then []
    else Ints(bits[..|bits| - 1]) + (if bits[|bits| - 1].Net? then [bits[|bits| - 1].id] else [])
  }

  function PinNets(c: Cell, p: Pin): set<nat>
  {
    if p in c.conns then set n | n in Ints(c.conns[p]) else {}
  }

  function ChainNets(c: Cell): set<nat> { PinNets(c, CTI) + PinNets(c, SE) + PinNets(c, CTO) }

  // The nets a leaving cell decouples: its system net and, when it can shift, its
  // chain nets.
  function Decoupled(c: Cell): set<nat>
    requires Leaves(c)
  {
    PinNets(c, if c.kind.WbcIn? then From else To) + if c.kind.scan || IsTied(c) then ChainNets(c) else {}
  }

  ghost predicate DroppedNet(m: Module, n: nat)
  {
    exists x :: x in m.cells && Leaves(m.cells[x]) && n in Decoupled(m.cells[x])
  }

  // A port whose only net is decoupled goes.
  ghost predicate DroppedPort(m: Module, port: Port)
  {
    |Ints(port.bits)| == 1 && DroppedNet(m, Ints(port.bits)[0])
  }

  ghost predicate Formed(m: Module)
  {
    forall x :: x in m.cells && (IsInput(m.cells[x]) || IsOutput(m.cells[x])) ==> CorePinsFormed(m.cells[x])
  }

  /* ---- the fused view ---- */

  // Each core output's observe net is fresh and its own.
  ghost predicate Observes(m: Module, obs: map<Name, nat>, next: nat, next': nat)
  {
    && (forall x :: x in obs <==> x in m.cells && IsOutput(m.cells[x]))
    && (forall x :: x in obs ==> next <= obs[x] < next')
    && (forall x, y :: x in obs && y in obs && obs[x] == obs[y] ==> x == y)
  }

  ghost predicate FusedCells(m: Module, obs: map<Name, nat>, cells: map<Name, Cell>)
  {
    && (forall x :: x in m.cells && !Leaves(m.cells[x]) ==> x in cells && cells[x] == m.cells[x])
    && (forall x :: x in obs ==> Made(WbObserve, x) in cells && x in m.cells && IsOutput(m.cells[x]) && CorePinsFormed(m.cells[x])
                                 && cells[Made(WbObserve, x)] == BufCell(Net(CoreNet(m.cells[x])), obs[x]))
    && (forall y :: y in cells ==> (y in m.cells && !Leaves(m.cells[y])) || (y.Made? && y.tag.WbObserve? && y.base in obs))
  }

  // The port a wrapper cell turns into.
  ghost predicate NewPort(m: Module, obs: map<Name, nat>, name: Name, port: Port)
  {
    || (name.Made? && name.tag.Wbi? && name.base in m.cells && IsInput(m.cells[name.base]) && CorePinsFormed(m.cells[name.base])
        && port == Port(Input, [Net(CoreNet(m.cells[name.base]))]))
    || (name.Made? && name.tag.Wbo? && name.base in obs && port == Port(Output, [Net(obs[name.base])]))
  }

  ghost predicate FusedPorts(m: Module, obs: map<Name, nat>, ports: map<Name, Port>)
  {
    && (forall name :: name in m.ports && !DroppedPort(m, m.ports[name]) ==> name in ports && ports[name] == m.ports[name])
    && (forall name, port :: NewPort(m, obs, name, port) && !DroppedPort(m, port) ==> name in ports && ports[name] == port)
    && (forall name :: name in ports ==>
          || (name in m.ports && !DroppedPort(m, m.ports[name]) && ports[name] == m.ports[name])
          || (NewPort(m, obs, name, ports[name]) && !DroppedPort(m, ports[name])))
  }

  ghost predicate Fused(m: Module, obs: map<Name, nat>, m': Module)
  {
    FusedCells(m, obs, m'.cells) && FusedPorts(m, obs, m'.ports)
  }

  // Names and net ids the fused view adds are free.
  ghost predicate FuseReady(m: Module, next: nat)
  {
    && Below(m, next) && Formed(m)
    && (forall x :: x in m.cells ==> !(x.Made? && x.tag.WbObserve?))
    && (forall x :: x in m.ports ==> !(x.Made? && (x.tag.Wbi? || x.tag.Wbo?)))
  }

  // A wrapper cell drives To and, when it can shift, CTO.
  ghost predicate WbcForm(c: Cell)
  {
    && To in c.outs && c.outs <= {To, CTO} && From in c.conns && |c.conns[From]| == 1 && To in c.conns && |c.conns[To]| == 1
    && (CTO in c.conns ==> CTO in c.outs && |c.conns[CTO]| <= 1)
  }

  ghost predicate Wrapped(m: Module)
  {
    forall x :: x in m.cells && Leaves(m.cells[x]) ==> WbcForm(m.cells[x])
  }

  /* ---- from the unfused view to the fused one ---- */

  // The fused view is driven with what the system side carries.
  ghost predicate SameDrive(m: Module, env: Inputs, env': Inputs, v: Valuation)
  {
    && (forall x :: x in m.cells && IsInput(m.cells[x]) ==> env'(Made(Wbi, x), 0) == PinVal(v, m.cells[x], From))
    && (forall name, i: nat :: name in m.ports ==> env'(name, i) == env(name, i))
  }

  ghost function WithObserve(m: Module, obs: map<Name, nat>, v: Valuation): Valuation
  {
    (n: nat) => ObserveNet(m, obs, v, n)
  }

  ghost function ObserveNet(m: Module, obs: map<Name, nat>, v: Valuation, n: nat): bool
  {
    if exists x :: x in obs && obs[x] == n then
      var x :| x in obs && obs[x] == n;
      x in m.cells && PinVal(v, m.cells[x], From)
    else v(n)
  }

  lemma ObserveAt(m: Module, obs: map<Name, nat>, next: nat, next': nat, v: Valuation, x: Name)
    requires Observes(m, obs, next, next') && x in obs
    ensures WithObserve(m, obs, v)(obs[x]) == PinVal(v, m.cells[x], From)
  {
    assert x in m.cells;
  }

  lemma ObserveAgrees(m: Module, obs: map<Name, nat>, next: nat, next': nat, v: Valuation)
    requires Observes(m, obs, next, next')
    ensures AgreeBelow(v, WithObserve(m, obs, v), next)
  {}

  // What a transparent wrapper cell asks of a valuation.
  lemma WbcMeaning(lib: Library, f: Fault, c: Cell, s: bool, v: Valuation)
    requires WbcForm(c) && (c.kind.WbcIn? || c.kind.WbcOut?)
    ensures CellOk(lib, f, c, s, v) <==>
              && (c.conns[To][0].Net? && Free(f, c.conns[To][0].id) ==> v(c.conns[To][0].id) == BitVal(v, c.conns[From][0]))
              && (CTO in c.conns && c.conns[CTO] != [] && c.conns[CTO][0].Net? && Free(f, c.conns[CTO][0].id) ==> v(c.conns[CTO][0].id) == s)
    ensures PinVal(v, c, From) == BitVal(v, c.conns[From][0])
  {
    assert PinVal(v, c, From) == BitVal(v, c.conns[From][0]);
  }

  /** Driven with what the system side carries, the fused view settles with every
      net of the core at its value, and each pseudo-output shows its core net. */
  lemma FuseForth(lib: Library, m: Module, m': Module, obs: map<Name, nat>, next: nat, next': nat,
                  f: Fault, env: Inputs, env': Inputs, st: State, v: Valuation)
    requires FuseReady(m, next) && Wrapped(m) && Observes(m, obs, next, next') && Fused(m, obs, m') && FaultBelow(f, next)
    requires Settled(lib, m, f, env, st, v) && SameDrive(m, env, env', v)
    ensures var u := WithObserve(m, obs, v);
            && Settled(lib, m', f, env', st, u) && AgreeBelow(v, u, next)
            && (forall x :: x in obs ==> u(obs[x]) == PinVal(v, m.cells[x], From))
  {
    var u := WithObserve(m, obs, v);
    ObserveAgrees(m, obs, next, next', v);
    SettledAgree(lib, m, f, env, st, v, u, next);
    forall x | x in obs ensures u(obs[x]) == PinVal(v, m.cells[x], From) {
      ObserveAt(m, obs, next, next', v, x);
    }
    hide WithObserve, ObserveNet, Below, FaultBelow, WbcForm, DroppedPort;
    forall y | y in m'.cells ensures CellOk(lib, f, m'.cells[y], st(y), u) {
      if y in m.cells && !Leaves(m.cells[y]) {
        assert m'.cells[y] == m.cells[y];
      } else {
        ObserveOk(lib, m, obs, next, next', f, v, u, y.base, st(y));
      }
    }
    forall name | name in m'.ports ensures PortOk(f, env', name, m'.ports[name], u) {
      if name in m.ports {
        assert PortOk(f, env, name, m.ports[name], u);
      } else if name.tag.Wbi? {
        InputDriven(lib, m, f, env, st, v, name.base);
        InputBelow(m, next, name.base);
      }
    }
  }

  lemma CoreBelow(c: Cell, next: nat)
    requires CellBelow(c, next) && CorePinsFormed(c) && (IsInput(c) || IsOutput(c))
    ensures CoreNet(c) < next
  {
    assert BitsBelow(c.conns[To], next) && BitsBelow(c.conns[From], next);
  }

  lemma InputBelow(m: Module, next: nat, x: Name)
    requires Below(m, next) && x in m.cells && CorePinsFormed(m.cells[x]) && IsInput(m.cells[x])
    ensures CoreNet(m.cells[x]) < next
  {
    assert CellBelow(m.cells[x], next);
    CoreBelow(m.cells[x], next);
  }

  lemma InputDriven(lib: Library, m: Module, f: Fault, env: Inputs, st: State, v: Valuation, x: Name)
    requires Settled(lib, m, f, env, st, v) && x in m.cells && IsInput(m.cells[x]) && CorePinsFormed(m.cells[x]) && WbcForm(m.cells[x])
    ensures Free(f, CoreNet(m.cells[x])) ==> v(CoreNet(m.cells[x])) == PinVal(v, m.cells[x], From)
  {
    WbcMeaning(lib, f, m.cells[x], st(x), v);
    assert CellOk(lib, f, m.cells[x], st(x), v);
  }

  lemma ObserveOk(lib: Library, m: Module, obs: map<Name, nat>, next: nat, next': nat, f: Fault, v: Valuation, u: Valuation, x: Name, s: bool)
    requires FuseReady(m, next) && Wrapped(m) && Observes(m, obs, next, next') && x in obs && CorePinsFormed(m.cells[x]) && AgreeBelow(v, u, next)
    requires FaultBelow(f, next) && u(obs[x]) == PinVal(v, m.cells[x], From)
    ensures CellOk(lib, f, BufCell(Net(CoreNet(m.cells[x])), obs[x]), s, u)
  {
    var c := m.cells[x];
    BufOk(lib, f, Net(CoreNet(c)), obs[x], s, u);
    assert CellBelow(c, next) && WbcForm(c);
    CoreBelow(c, next);
    assert PinVal(v, c, From) == v(CoreNet(c));
  }

  /* ---- from the fused view back ---- */

  ghost predicate PortLoses(m: Module, name: Name, i: nat, n: nat)
  {
    name in m.ports && m.ports[name].dir.Input? && DroppedPort(m, m.ports[name]) && i < |m.ports[name].bits| && m.ports[name].bits[i] == Net(n)
  }

  ghost predicate PinLoses(m: Module, x: Name, p: Pin, n: nat)
  {
    x in m.cells && Leaves(m.cells[x]) && p in m.cells[x].conns && Net(n) in m.cells[x].conns[p]
    && (p == CTO || (p == To && m.cells[x].kind.WbcOut?))
  }

  // A net whose driver the fused view does not have.
  ghost predicate Lost(m: Module, n: nat)
  {
    (exists name, i: nat :: PortLoses(m, name, i, n)) || (exists x, p :: PinLoses(m, x, p, n))
  }

  ghost function LostValue(m: Module, env: Inputs, st: State, u: Valuation, n: nat): bool
  {
    if exists name, i: nat :: PortLoses(m, name, i, n) then
      var name, i: nat :| PortLoses(m, name, i, n); env(name, i)
    else if exists x, p :: PinLoses(m, x, p, n) then
      var x, p :| PinLoses(m, x, p, n);
      if p == CTO then st(x) else PinVal(u, m.cells[x], From)
    else u(n)
  }

  // The unfused valuation: lost nets take their driver's value.
  ghost function Unfused(m: Module, env: Inputs, st: State, u: Valuation): Valuation
  {
    (n: nat) => if Lost(m, n) then LostValue(m, env, st, u, n) else u(n)
  }

  ghost predicate Avoids(m: Module, bits: seq<Bit>)
  {
    forall i :: 0 <= i < |bits| && bits[i].Net? ==> !Lost(m, bits[i].id)
  }

  // Core and system meet only through wrapper cells: no cell that stays and no core
  // output is on a net the fused view cannot drive, and no core input's port goes.
  ghost predicate Separate(m: Module)
  {
    && (forall x, p :: x in m.cells && !Leaves(m.cells[x]) && p in m.cells[x].conns ==> Avoids(m, m.cells[x].conns[p]))
    && (forall x :: x in m.cells && IsInput(m.cells[x]) && CorePinsFormed(m.cells[x]) ==> !DroppedNet(m, CoreNet(m.cells[x])))
    && (forall x :: x in m.cells && IsOutput(m.cells[x]) && CorePinsFormed(m.cells[x]) ==> !Lost(m, CoreNet(m.cells[x])))
  }

  // With one driver per net a core input's net, and a port that stays, are not lost.
  lemma InputNotLost(m: Module, x: Name)
    requires SingleDriver(m) && Wrapped(m) && x in m.cells && IsInput(m.cells[x]) && CorePinsFormed(m.cells[x])
    ensures !Lost(m, CoreNet(m.cells[x]))
  {
    var n := CoreNet(m.cells[x]);
    assert Drives(m, CellPin(x, To, 0), n);
    LostDriver(m, CellPin(x, To, 0), n);
  }

  lemma KeptInputAvoids(m: Module, name: Name)
    requires SingleDriver(m) && Wrapped(m) && name in m.ports && m.ports[name].dir.Input? && !DroppedPort(m, m.ports[name])
    ensures Avoids(m, m.ports[name].bits)
  {
    var bits := m.ports[name].bits;
    forall i | 0 <= i < |bits| && bits[i].Net? ensures !Lost(m, bits[i].id) {
      assert Drives(m, PortBit(name, i), bits[i].id);
      LostDriver(m, PortBit(name, i), bits[i].id);
    }
  }

  // What the driver of a lost net is.
  ghost predicate Losing(m: Module, s: Site)
  {
    match s
    case PortBit(name, i) => name in m.ports && DroppedPort(m, m.ports[name])
    case CellPin(x, p, i) => x in m.cells && Leaves(m.cells[x]) && (p == CTO || (p == To && m.cells[x].kind.WbcOut?))
  }

  lemma LostDriver(m: Module, s: Site, n: nat)
    requires SingleDriver(m) && Wrapped(m) && Drives(m, s, n)
    ensures Lost(m, n) <==> Losing(m, s)
  {
    hide DroppedPort, SingleDriver, WbcForm;
    if Lost(m, n) {
      if name, i: nat :| PortLoses(m, name, i, n) {
        OneSite(m, s, PortBit(name, i), n);
      } else {
        var x, p :| PinLoses(m, x, p, n);
        PinDrives(m, x, p, n);
        var i: nat :| Drives(m, CellPin(x, p, i), n);
        OneSite(m, s, CellPin(x, p, i), n);
      }
    }
    if Losing(m, s) {
      match s
      case PortBit(name, i) => assert PortLoses(m, name, i, n);
      case CellPin(x, p, i) => assert PinLoses(m, x, p, n);
    }
  }

  lemma OneSite(m: Module, s: Site, t: Site, n: nat)
    requires SingleDriver(m) && Drives(m, s, n) && Drives(m, t, n)
    ensures s == t
  {}

  lemma UnfusedBits(m: Module, env: Inputs, st: State, u: Valuation, bits: seq<Bit>)
    requires Avoids(m, bits)
    ensures forall i :: 0 <= i < |bits| ==> BitVal(Unfused(m, env, st, u), bits[i]) == BitVal(u, bits[i])
  {}

  lemma PortValue(m: Module, env: Inputs, st: State, u: Valuation, name: Name, i: nat, n: nat)
    requires SingleDriver(m) && PortLoses(m, name, i, n)
    ensures Unfused(m, env, st, u)(n) == env(name, i)
  {
    forall other, k: nat | PortLoses(m, other, k, n) ensures other == name && k == i {
      assert Drives(m, PortBit(name, i), n) && Drives(m, PortBit(other, k), n);
    }
    hide PortLoses;
    assert Lost(m, n);
  }

  lemma PinValue(m: Module, env: Inputs, st: State, u: Valuation, x: Name, p: Pin, n: nat)
    requires SingleDriver(m) && PinLoses(m, x, p, n) && Wrapped(m)
    ensures Unfused(m, env, st, u)(n) == if p == CTO then st(x) else PinVal(u, m.cells[x], From)
  {
    PinDrives(m, x, p, n);
    var i: nat :| Drives(m, CellPin(x, p, i), n);
    forall y, q | PinLoses(m, y, q, n) ensures y == x && q == p {
      PinDrives(m, y, q, n);
      var k: nat :| Drives(m, CellPin(y, q, k), n);
    }
    forall name, k: nat ensures !PortLoses(m, name, k, n) {
      assert PortLoses(m, name, k, n) ==> Drives(m, PortBit(name, k), n);
    }
    hide PinLoses, PortLoses, Drives;
    assert Lost(m, n);
    assert !exists name, k: nat :: PortLoses(m, name, k, n);
    assert LostValue(m, env, st, u, n) == if p == CTO then st(x) else PinVal(u, m.cells[x], From);
  }

  lemma PinDrives(m: Module, x: Name, p: Pin, n: nat)
    requires PinLoses(m, x, p, n) && WbcForm(m.cells[x])
    ensures exists i: nat :: Drives(m, CellPin(x, p, i), n)
  {
    var i :| 0 <= i < |m.cells[x].conns[p]| && m.cells[x].conns[p][i] == Net(n);
    assert Drives(m, CellPin(x, p, i), n);
  }

  // The fused view is driven as the unfused one's system side would be.
  ghost predicate DrivenAlike(m: Module, env: Inputs, env': Inputs, v: Valuation)
  {
    && (forall x :: x in m.cells && IsInput(m.cells[x]) ==> env'(Made(Wbi, x), 0) == PinVal(v, m.cells[x], From))
    && (forall name, i: nat :: name in m.ports && !DroppedPort(m, m.ports[name]) ==> env'(name, i) == env(name, i))
  }

  lemma KeptCell(lib: Library, m: Module, m': Module, obs: map<Name, nat>, f: Fault, env: Inputs, env': Inputs, st: State, u: Valuation, x: Name)
    requires Fused(m, obs, m') && Separate(m) && Settled(lib, m', f, env', st, u) && x in m.cells && !Leaves(m.cells[x])
    ensures CellOk(lib, f, m.cells[x], st(x), Unfused(m, env, st, u))
  {
    var c := m.cells[x];
    assert m'.cells[x] == c && CellOk(lib, f, c, st(x), u);
    forall p, i | p in c.conns && 0 <= i < |c.conns[p]| ensures BitVal(Unfused(m, env, st, u), c.conns[p][i]) == BitVal(u, c.conns[p][i]) {
      UnfusedBits(m, env, st, u, c.conns[p]);
    }
    CellOkAgree(lib, f, c, st(x), u, Unfused(m, env, st, u));
  }

  lemma NotLost(m: Module, env: Inputs, st: State, u: Valuation, n: nat)
    requires !Lost(m, n)
    ensures Unfused(m, env, st, u)(n) == u(n)
  {}

  lemma GoneCell(lib: Library, m: Module, m': Module, obs: map<Name, nat>, next: nat, f: Fault, env: Inputs, env': Inputs, st: State, u: Valuation, x: Name)
    requires FuseReady(m, next) && Wrapped(m) && Fused(m, obs, m') && Separate(m) && SingleDriver(m) && Settled(lib, m', f, env', st, u)
    requires x in m.cells && Leaves(m.cells[x]) && DrivenAlike(m, env, env', Unfused(m, env, st, u))
    ensures CellOk(lib, f, m.cells[x], st(x), Unfused(m, env, st, u))
  {
    var c, v := m.cells[x], Unfused(m, env, st, u);
    WbcMeaning(lib, f, c, st(x), v);
    if CTO in c.conns && c.conns[CTO] != [] && c.conns[CTO][0].Net? {
      assert PinLoses(m, x, CTO, c.conns[CTO][0].id);
      PinValue(m, env, st, u, x, CTO, c.conns[CTO][0].id);
    }
    if c.kind.WbcOut? {
      WbcMeaning(lib, f, c, st(x), u);
      if IsOutput(c) {
        NotLost(m, env, st, u, CoreNet(c));
      }
      assert BitVal(v, c.conns[From][0]) == BitVal(u, c.conns[From][0]);
      if c.conns[To][0].Net? {
        assert PinLoses(m, x, To, c.conns[To][0].id);
        PinValue(m, env, st, u, x, To, c.conns[To][0].id);
      }
    } else {
      CoreDriven(lib, m, m', obs, f, env', st, u, x);
      InputNotLost(m, x);
      NotLost(m, env, st, u, CoreNet(c));
    }
  }

  // A core input's net follows its pseudo-input in the fused view.
  lemma CoreDriven(lib: Library, m: Module, m': Module, obs: map<Name, nat>, f: Fault, env': Inputs, st: State, u: Valuation, x: Name)
    requires Fused(m, obs, m') && Separate(m) && Settled(lib, m', f, env', st, u)
    requires x in m.cells && IsInput(m.cells[x]) && CorePinsFormed(m.cells[x])
    ensures Free(f, CoreNet(m.cells[x])) ==> u(CoreNet(m.cells[x])) == env'(Made(Wbi, x), 0)
  {
    var n, name := CoreNet(m.cells[x]), Made(Wbi, x);
    var port := Port(Input, [Net(n)]);
    assert NewPort(m, obs, name, port);
    assert Ints(port.bits) == [n] by { SoleInt(n); }
    assert m'.ports[name] == port;
    assert PortOk(f, env', name, port, u);
    assert port.bits[0] == Net(n);
  }

  lemma SoleInt(n: nat)
    ensures Ints([Net(n)]) == [n]
  {
    assert [Net(n)][..0] == [];
  }

  lemma PortBack(lib: Library, m: Module, m': Module, obs: map<Name, nat>, f: Fault, env: Inputs, env': Inputs, st: State, u: Valuation, name: Name)
    requires Fused(m, obs, m') && Wrapped(m) && SingleDriver(m) && Settled(lib, m', f, env', st, u) && name in m.ports
    requires forall n, i: nat :: n in m.ports && !DroppedPort(m, m.ports[n]) ==> env'(n, i) == env(n, i)
    ensures PortOk(f, env, name, m.ports[name], Unfused(m, env, st, u))
  {
    var port, v := m.ports[name], Unfused(m, env, st, u);
    if port.dir.Input? {
      if DroppedPort(m, port) {
        forall i | 0 <= i < |port.bits| && port.bits[i].Net? ensures v(port.bits[i].id) == env(name, i) {
          assert PortLoses(m, name, i, port.bits[i].id);
          PortValue(m, env, st, u, name, i, port.bits[i].id);
        }
      } else {
        assert m'.ports[name] == port && PortOk(f, env', name, port, u);
        KeptInputAvoids(m, name);
        UnfusedBits(m, env, st, u, port.bits);
        assert forall i :: 0 <= i < |port.bits| && port.bits[i].Net? ==> v(port.bits[i].id) == u(port.bits[i].id) by {
          forall i | 0 <= i < |port.bits| && port.bits[i].Net? ensures v(port.bits[i].id) == u(port.bits[i].id) {
            assert BitVal(v, port.bits[i]) == BitVal(u, port.bits[i]);
          }
        }
      }
    }
  }

  /** Every settled valuation of the fused view comes from one of the unfused view:
      lost nets take their driver's value, all others keep theirs, so every core
      output, and every kept port without a lost net, shows the same. */
  lemma FuseBack(lib: Library, m: Module, m': Module, obs: map<Name, nat>, next: nat, next': nat,
                 f: Fault, env: Inputs, env': Inputs, st: State, u: Valuation)
    requires FuseReady(m, next) && Wrapped(m) && Observes(m, obs, next, next') && Fused(m, obs, m') && Separate(m) && SingleDriver(m)
    requires Settled(lib, m', f, env', st, u) && (f.Stuck? ==> !Lost(m, f.net) && f.net < next)
    requires DrivenAlike(m, env, env', Unfused(m, env, st, u))
    ensures var v := Unfused(m, env, st, u);
            && Settled(lib, m, f, env, st, v)
            && (forall name :: name in m.ports && Avoids(m, m.ports[name].bits) ==> BitsVal(v, m.ports[name].bits) == BitsVal(u, m.ports[name].bits))
            && (forall x :: x in obs ==>
                  && Made(Wbo, x) in m'.ports
                  && BitsVal(u, m'.ports[Made(Wbo, x)].bits) == [PinVal(v, m.cells[x], From)])
  {
    var v := Unfused(m, env, st, u);
    if f.Stuck? {
      NotLost(m, env, st, u, f.net);
    }
    hide Unfused;
    forall x | x in m.cells ensures CellOk(lib, f, m.cells[x], st(x), v) {
      if Leaves(m.cells[x]) {
        GoneCell(lib, m, m', obs, next, f, env, env', st, u, x);
      } else {
        KeptCell(lib, m, m', obs, f, env, env', st, u, x);
      }
    }
    forall name | name in m.ports ensures PortOk(f, env, name, m.ports[name], v) {
      PortBack(lib, m, m', obs, f, env, env', st, u, name);
    }
    hide CellOk, PortOk;
    forall name | name in m.ports && Avoids(m, m.ports[name].bits) ensures BitsVal(v, m.ports[name].bits) == BitsVal(u, m.ports[name].bits) {
      UnfusedBits(m, env, st, u, m.ports[name].bits);
    }
    forall x | x in obs
      ensures Made(Wbo, x) in m'.ports && BitsVal(u, m'.ports[Made(Wbo, x)].bits) == [PinVal(v, m.cells[x], From)]
    {
      ObserveShows(lib, m, m', obs, next, next', f, env, env', st, u, x);
    }
  }

  lemma ObserveShows(lib: Library, m: Module, m': Module, obs: map<Name, nat>, next: nat, next': nat,
                     f: Fault, env: Inputs, env': Inputs, st: State, u: Valuation, x: Name)
    requires FuseReady(m, next) && Wrapped(m) && Observes(m, obs, next, next') && Fused(m, obs, m') && Separate(m)
    requires Settled(lib, m', f, env', st, u) && FaultBelow(f, next) && x in obs
    ensures Made(Wbo, x) in m'.ports && BitsVal(u, m'.ports[Made(Wbo, x)].bits) == [PinVal(Unfused(m, env, st, u), m.cells[x], From)]
  {
    assert x in m.cells && FusedCells(m, obs, m'.cells) && FusedPorts(m, obs, m'.ports);
    hide Unfused, Settled, FuseReady, FusedPorts, FusedCells, Separate, Observes;
    OutputFacts(m, m', obs, next, next', x);
    ObservePort(m, m', obs, next, next', x);
    ObserveValue(lib, m, m', obs, next, next', f, env', st, u, x);
    NotLost(m, env, st, u, CoreNet(m.cells[x]));
    FromIs(m.cells[x], Unfused(m, env, st, u));
    assert m'.ports[Made(Wbo, x)].bits[0] == Net(obs[x]);
  }

  lemma OutputFacts(m: Module, m': Module, obs: map<Name, nat>, next: nat, next': nat, x: Name)
    requires FuseReady(m, next) && Wrapped(m) && Observes(m, obs, next, next') && FusedCells(m, obs, m'.cells) && Separate(m) && x in obs
    ensures WbcForm(m.cells[x]) && CorePinsFormed(m.cells[x]) && IsOutput(m.cells[x]) && !Lost(m, CoreNet(m.cells[x]))
  {
    hide Below, Lost, DroppedNet, DroppedPort, Avoids;
    assert x in m.cells;
  }

  lemma FromIs(c: Cell, v: Valuation)
    requires WbcForm(c) && CorePinsFormed(c) && IsOutput(c)
    ensures PinVal(v, c, From) == v(CoreNet(c))
  {}

  lemma ObservePort(m: Module, m': Module, obs: map<Name, nat>, next: nat, next': nat, x: Name)
    requires FuseReady(m, next) && Observes(m, obs, next, next') && FusedPorts(m, obs, m'.ports) && x in obs
    ensures Made(Wbo, x) in m'.ports && m'.ports[Made(Wbo, x)] == Port(Output, [Net(obs[x])])
  {
    var port := Port(Output, [Net(obs[x])]);
    SoleInt(obs[x]);
    FreshNotDropped(m, next, obs[x]);
    hide Below, DroppedNet, WbcForm;
    assert NewPort(m, obs, Made(Wbo, x), port);
  }

  lemma ObserveValue(lib: Library, m: Module, m': Module, obs: map<Name, nat>, next: nat, next': nat,
                     f: Fault, env': Inputs, st: State, u: Valuation, x: Name)
    requires Observes(m, obs, next, next') && FusedCells(m, obs, m'.cells) && FaultBelow(f, next)
    requires Settled(lib, m', f, env', st, u) && x in obs
    ensures CorePinsFormed(m.cells[x]) && u(obs[x]) == u(CoreNet(m.cells[x]))
  {
    var y := Made(WbObserve, x);
    assert CellOk(lib, f, m'.cells[y], st(y), u);
    BufOk(lib, f, Net(CoreNet(m.cells[x])), obs[x], st(y), u);
  }

  lemma FreshNotDropped(m: Module, next: nat, n: nat)
    requires Below(m, next) && n >= next
    ensures !DroppedNet(m, n)
  {
    forall x | x in m.cells && Leaves(m.cells[x]) ensures n !in Decoupled(m.cells[x]) {
      assert CellBelow(m.cells[x], next);
      forall p ensures n !in PinNets(m.cells[x], p) {
        assert p in m.cells[x].conns ==> BitsBelow(m.cells[x].conns[p], next);
      }
    }
  }
}
