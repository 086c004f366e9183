/** Two wrapped netlists whose INTEST view floats (faultflow/scan/wbr_view.py). */
module FuseLimits {
  import opened Netlist
  import opened NetlistEval
  import opened ScanView
  import opened ScanChecks
  import opened Fuse

  lemma TwoInts(a: nat, b: nat)
    ensures Ints([Net(a), Net(b)]) == [a, b]
  {
    assert [Net(a), Net(b)][..1] == [Net(a)];
    SoleInt(a);
  }

  function Wrapper(kind: Kind, from: nat, to: nat): Cell { Cell(kind, {To}, map[From := [Net(from)], To := [Net(to)]]) }

  lemma IsFused(m: Module, obs: map<Name, nat>, m': Module)
    requires FusedCells(m, obs, m'.cells) && FusedPorts(m, obs, m'.ports)
    ensures Fused(m, obs, m')
  {}

  lemma TwoBits(u: Valuation, a: nat, b: nat)
    ensures BitsVal(u, [Net(a), Net(b)]) == [u(a), u(b)]
  {}

  // The cells of a fused view, when every cell leaves.
  lemma CellsWhen(m: Module, obs: map<Name, nat>, cells: map<Name, Cell>)
    requires forall x :: x in m.cells ==> Leaves(m.cells[x])
    requires forall x :: x in obs ==> x in m.cells && IsOutput(m.cells[x]) && CorePinsFormed(m.cells[x])
    requires forall x :: x in obs ==> Made(WbObserve, x) in cells && cells[Made(WbObserve, x)] == BufCell(Net(CoreNet(m.cells[x])), obs[x])
    requires forall y :: y in cells ==> y.Made? && y.tag.WbObserve? && y.base in obs
    ensures FusedCells(m, obs, cells)
  {
    hide Leaves, IsOutput, CorePinsFormed, CoreNet, BufCell;
  }

  // The ports of a fused view are those that stay and the new ones.
  lemma PortsWhen(m: Module, obs: map<Name, nat>, kept: map<Name, Port>, new': map<Name, Port>)
    requires forall name :: name in kept <==> name in m.ports && !DroppedPort(m, m.ports[name])
    requires forall name :: name in kept ==> kept[name] == m.ports[name]
    requires forall name, port :: NewPort(m, obs, name, port) <==> name in new' && new'[name] == port
    requires forall name :: name in new' ==> name !in kept && !DroppedPort(m, new'[name])
    ensures FusedPorts(m, obs, kept + new')
  {
    hide DroppedPort, NewPort;
  }

  /* ---- an output bus ---- */

  const A0: Name := Text("a")
  const B0: Name := Text("b")
  const OUT: Name := Text("out")
  const LOW: Name := Text("low")
  const HIGH: Name := Text("high")

  // Two core nets, each through an output wrapper cell, to the bits of one port.
  const BUS: Module := Module(
    map[A0 := Port(Input, [Net(0)]), B0 := Port(Input, [Net(1)]), OUT := Port(Output, [Net(2), Net(3)])],
    map[LOW := Wrapper(WbcOut(false), 0, 2), HIGH := Wrapper(WbcOut(false), 1, 3)])

  const BUS_OBS: map<Name, nat> := map[LOW := 4, HIGH := 5]

  const BUS_NEW: map<Name, Port> := map[Made(Wbo, LOW) := Port(Output, [Net(4)]), Made(Wbo, HIGH) := Port(Output, [Net(5)])]

  const BUS_VIEW: Module := Module(
    BUS.ports + BUS_NEW,
    map[Made(WbObserve, LOW) := BufCell(Net(0), 4), Made(WbObserve, HIGH) := BufCell(Net(1), 5)])

  lemma BusNets(x: Name)
    ensures x in BUS.cells <==> x == LOW || x == HIGH
    ensures x in BUS.cells ==> IsOutput(BUS.cells[x]) && Leaves(BUS.cells[x]) && CorePinsFormed(BUS.cells[x]) && !IsTied(BUS.cells[x])
    ensures x in BUS.cells ==> CoreNet(BUS.cells[x]) == (if x == LOW then 0 else 1) && Decoupled(BUS.cells[x]) == {if x == LOW then 2 else 3}
  {
    if x in BUS.cells {
      var n := if x == LOW then 2 else 3;
      SoleInt(n);
      assert PinNets(BUS.cells[x], To) == {n};
    }
  }

  lemma BusDropped(n: nat)
    ensures DroppedNet(BUS, n) <==> n == 2 || n == 3
  {
    forall x ensures x in BUS.cells <==> x == LOW || x == HIGH
             ensures x in BUS.cells ==> Leaves(BUS.cells[x]) && Decoupled(BUS.cells[x]) == {if x == LOW then 2 else 3}
    {
      BusNets(x);
    }
    hide Decoupled, Leaves;
    assert LOW in BUS.cells && HIGH in BUS.cells;
  }

  lemma BusPort(dir: Dir, n: nat)
    ensures DroppedPort(BUS, Port(dir, [Net(n)])) <==> n == 2 || n == 3
  {
    SoleInt(n);
    BusDropped(n);
    hide DroppedNet, Ints;
  }

  lemma BusStays(name: Name)
    requires name in BUS.ports
    ensures !DroppedPort(BUS, BUS.ports[name])
  {
    BusPort(Input, 0);
    BusPort(Input, 1);
    TwoInts(2, 3);
    hide DroppedNet, Ints;
  }

  lemma BusViewCells()
    ensures FusedCells(BUS, BUS_OBS, BUS_VIEW.cells)
  {
    hide *;
    forall x | x in BUS.cells ensures Leaves(BUS.cells[x]) {
      BusNets(x);
    }
    forall x | x in BUS_OBS
      ensures x in BUS.cells && IsOutput(BUS.cells[x]) && CorePinsFormed(BUS.cells[x])
      ensures Made(WbObserve, x) in BUS_VIEW.cells && BUS_VIEW.cells[Made(WbObserve, x)] == BufCell(Net(CoreNet(BUS.cells[x])), BUS_OBS[x])
    {
      BusNets(x);
      BusObserved(x);
    }
    forall y | y in BUS_VIEW.cells ensures y.Made? && y.tag.WbObserve? && y.base in BUS_OBS {
      BusBuffers(y);
    }
    CellsWhen(BUS, BUS_OBS, BUS_VIEW.cells);
  }

  lemma BusObserved(x: Name)
    requires x in BUS_OBS
    ensures (x == LOW || x == HIGH) && Made(WbObserve, x) in BUS_VIEW.cells
    ensures BUS_VIEW.cells[Made(WbObserve, x)] == BufCell(Net(if x == LOW then 0 else 1), BUS_OBS[x])
  {
    hide BufCell;
  }

  lemma BusBuffers(y: Name)
    requires y in BUS_VIEW.cells
    ensures y.Made? && y.tag.WbObserve? && y.base in BUS_OBS
    ensures BUS_VIEW.cells[y] == BufCell(Net(if y.base == LOW then 0 else 1), if y.base == LOW then 4 else 5)
  {
    hide BufCell;
  }

  lemma BusNew(name: Name, port: Port)
    ensures NewPort(BUS, BUS_OBS, name, port) <==> name in BUS_NEW && BUS_NEW[name] == port
  {
    forall x ensures x in BUS.cells ==> !IsInput(BUS.cells[x]) {
      BusNets(x);
    }
    hide IsInput, CorePinsFormed, CoreNet, BUS;
  }

  lemma BusNewStays(name: Name)
    requires name in BUS_NEW
    ensures !DroppedPort(BUS, BUS_NEW[name])
  {
    BusPort(Output, 4);
    BusPort(Output, 5);
    hide DroppedPort, BUS;
  }

  lemma BusApart(name: Name)
    requires name in BUS_NEW
    ensures name !in BUS.ports
  {}

  lemma BusViewPorts()
    ensures FusedPorts(BUS, BUS_OBS, BUS.ports + BUS_NEW)
  {
    hide *;
    forall name | name in BUS.ports ensures !DroppedPort(BUS, BUS.ports[name]) {
      BusStays(name);
    }
    forall name, port ensures NewPort(BUS, BUS_OBS, name, port) <==> name in BUS_NEW && BUS_NEW[name] == port {
      BusNew(name, port);
    }
    forall name | name in BUS_NEW ensures name !in BUS.ports && !DroppedPort(BUS, BUS_NEW[name]) {
      BusNewStays(name);
      BusApart(name);
    }
    PortsWhen(BUS, BUS_OBS, BUS.ports, BUS_NEW);
  }

  lemma BusSettles(lib: Library, env: Inputs, st: State, u: Valuation)
    requires u(0) == u(4) == env(A0, 0) && u(1) == u(5) == env(B0, 0)
    ensures Settled(lib, BUS_VIEW, NoFault, env, st, u)
  {
    hide BUS, BUS_VIEW, A0, B0, CellOk, PortOk;
    forall y | y in BUS_VIEW.cells ensures CellOk(lib, NoFault, BUS_VIEW.cells[y], st(y), u) {
      BusBuffers(y);
      BufOk(lib, NoFault, Net(if y.base == LOW then 0 else 1), if y.base == LOW then 4 else 5, st(y), u);
    }
    forall name | name in BUS_VIEW.ports ensures PortOk(NoFault, env, name, BUS_VIEW.ports[name], u) {
      BusInputs(env, u, name);
    }
  }

  lemma BusInputs(env: Inputs, u: Valuation, name: Name)
    requires name in BUS_VIEW.ports && u(0) == env(A0, 0) && u(1) == env(B0, 0)
    ensures PortOk(NoFault, env, name, BUS_VIEW.ports[name], u)
  {
    assert BUS_VIEW.ports[name].dir.Input? ==> name == A0 || name == B0;
  }

  /** The bus stays in the fused view without a driver: whatever the inputs are, it
      settles at any value, while the core outputs are still observed. */
  lemma BusFloats(lib: Library, env: Inputs, st: State, low: bool, high: bool)
    ensures Fused(BUS, BUS_OBS, BUS_VIEW) && BUS_VIEW.ports[OUT] == BUS.ports[OUT]
    ensures var u: Valuation := (n: nat) => if n == 2 then low else if n == 3 then high else if n == 0 || n == 4 then env(A0, 0) else env(B0, 0);
            Settled(lib, BUS_VIEW, NoFault, env, st, u) && BitsVal(u, BUS_VIEW.ports[OUT].bits) == [low, high]
    ensures forall v: Valuation :: Settled(lib, BUS, NoFault, env, st, v) ==> BitsVal(v, BUS.ports[OUT].bits) == [env(A0, 0), env(B0, 0)]
  {
    hide *;
    var u: Valuation := (n: nat) => if n == 2 then low else if n == 3 then high else if n == 0 || n == 4 then env(A0, 0) else env(B0, 0);
    BusBits();
    BusViewCells();
    BusViewPorts();
    IsFused(BUS, BUS_OBS, BUS_VIEW);
    BusSettles(lib, env, st, u);
    TwoBits(u, 2, 3);
    forall v: Valuation | Settled(lib, BUS, NoFault, env, st, v) ensures BitsVal(v, BUS.ports[OUT].bits) == [env(A0, 0), env(B0, 0)] {
      BusShows(lib, env, st, v);
    }
  }

  lemma BusBits()
    ensures OUT in BUS.ports && OUT in BUS_VIEW.ports && BUS_VIEW.ports[OUT] == BUS.ports[OUT] == Port(Output, [Net(2), Net(3)])
    ensures BUS_VIEW.ports == BUS.ports + BUS_NEW
  {}

  lemma BusLost(n: nat)
    ensures Lost(BUS, n) ==> n == 2 || n == 3
  {
    if Lost(BUS, n) {
      forall name, i: nat ensures !PortLoses(BUS, name, i, n) {
        if name in BUS.ports {
          BusStays(name);
        }
      }
      hide DroppedPort, PortLoses, Leaves;
      var x, p :| PinLoses(BUS, x, p, n);
      assert x == LOW || x == HIGH;
    }
  }

  /** The bus does not stop core and system from being separate. */
  lemma BusSeparate()
    ensures Separate(BUS)
  {
    hide Lost, DroppedNet, Avoids, IsInput, IsOutput, Leaves, CorePinsFormed, CoreNet, BUS;
    forall x | x in BUS.cells ensures Leaves(BUS.cells[x]) && !IsInput(BUS.cells[x]) {
      BusNets(x);
      OutputOnly(BUS.cells[x]);
    }
    forall x | x in BUS.cells && IsOutput(BUS.cells[x]) && CorePinsFormed(BUS.cells[x]) ensures !Lost(BUS, CoreNet(BUS.cells[x])) {
      BusNets(x);
      BusLost(CoreNet(BUS.cells[x]));
    }
  }

  lemma OutputOnly(c: Cell)
    requires IsOutput(c)
    ensures !IsInput(c)
  {}

  lemma BusShows(lib: Library, env: Inputs, st: State, v: Valuation)
    requires Settled(lib, BUS, NoFault, env, st, v)
    ensures BitsVal(v, BUS.ports[OUT].bits) == [env(A0, 0), env(B0, 0)]
  {
    assert PortOk(NoFault, env, A0, BUS.ports[A0], v) && PortOk(NoFault, env, B0, BUS.ports[B0], v);
    assert CellOk(lib, NoFault, BUS.cells[LOW], st(LOW), v) && CellOk(lib, NoFault, BUS.cells[HIGH], st(HIGH), v);
    assert BUS.ports[A0].bits[0] == Net(0) && BUS.ports[B0].bits[0] == Net(1);
    WbcMeaning(lib, NoFault, BUS.cells[LOW], st(LOW), v);
    WbcMeaning(lib, NoFault, BUS.cells[HIGH], st(HIGH), v);
  }

  /* ---- a feedthrough ---- */

  const IN: Name := Text("in")
  const ENTRY: Name := Text("entry")
  const EXIT: Name := Text("exit")

  // One net is an input wrapper cell's system net and an output wrapper cell's core net.
  const FEED: Module := Module(
    map[IN := Port(Input, [Net(0)]), OUT := Port(Output, [Net(2)])],
    map[ENTRY := Wrapper(WbcIn(false), 0, 1), EXIT := Wrapper(WbcOut(false), 0, 2)])

  const FEED_OBS: map<Name, nat> := map[EXIT := 3]

  const FEED_NEW: map<Name, Port> := map[Made(Wbi, ENTRY) := Port(Input, [Net(1)]), Made(Wbo, EXIT) := Port(Output, [Net(3)])]

  const FEED_VIEW: Module := Module(
    FEED_NEW,
    map[Made(WbObserve, EXIT) := BufCell(Net(0), 3)])

  lemma FeedNets(x: Name)
    ensures x in FEED.cells <==> x == ENTRY || x == EXIT
    ensures x in FEED.cells ==> Leaves(FEED.cells[x]) && CorePinsFormed(FEED.cells[x]) && !IsTied(FEED.cells[x])
    ensures x in FEED.cells ==> (IsInput(FEED.cells[x]) <==> x == ENTRY) && (IsOutput(FEED.cells[x]) <==> x == EXIT)
    ensures x in FEED.cells ==> CoreNet(FEED.cells[x]) == (if x == ENTRY then 1 else 0) && Decoupled(FEED.cells[x]) == {if x == ENTRY then 0 else 2}
  {
    if x in FEED.cells {
      var n := if x == ENTRY then 0 else 2;
      SoleInt(n);
      assert PinNets(FEED.cells[x], if x == ENTRY then From else To) == {n};
    }
  }

  lemma FeedDropped(n: nat)
    ensures DroppedNet(FEED, n) <==> n == 0 || n == 2
    ensures DroppedPort(FEED, Port(Input, [Net(n)])) <==> n == 0 || n == 2
    ensures DroppedPort(FEED, Port(Output, [Net(n)])) <==> n == 0 || n == 2
  {
    forall x ensures x in FEED.cells <==> x == ENTRY || x == EXIT
             ensures x in FEED.cells ==> Leaves(FEED.cells[x]) && Decoupled(FEED.cells[x]) == {if x == ENTRY then 0 else 2}
    {
      FeedNets(x);
    }
    SoleInt(n);
    hide Decoupled, Leaves, Ints;
    assert ENTRY in FEED.cells && EXIT in FEED.cells;
  }

  lemma FeedViewCells()
    ensures FusedCells(FEED, FEED_OBS, FEED_VIEW.cells)
  {
    hide FEED, FusedCells, Leaves, IsOutput, CorePinsFormed, CoreNet, BufCell;
    forall x | x in FEED.cells ensures Leaves(FEED.cells[x]) {
      FeedNets(x);
    }
    FeedNets(EXIT);
    CellsWhen(FEED, FEED_OBS, FEED_VIEW.cells);
  }

  lemma FeedNew(name: Name, port: Port)
    ensures NewPort(FEED, FEED_OBS, name, port) <==> name in FEED_NEW && FEED_NEW[name] == port
  {
    forall x
      ensures x in FEED.cells <==> x == ENTRY || x == EXIT
      ensures x in FEED.cells ==> CorePinsFormed(FEED.cells[x]) && (IsInput(FEED.cells[x]) <==> x == ENTRY)
      ensures x == ENTRY ==> CoreNet(FEED.cells[x]) == 1
    {
      FeedNets(x);
    }
    hide IsInput, CorePinsFormed, CoreNet, FEED;
  }

  lemma FeedGoes(name: Name)
    requires name in FEED.ports
    ensures DroppedPort(FEED, FEED.ports[name])
  {
    FeedDropped(0);
    FeedDropped(2);
    hide DroppedPort;
  }

  lemma FeedNewStays(name: Name)
    requires name in FEED_NEW
    ensures !DroppedPort(FEED, FEED_NEW[name])
  {
    FeedDropped(1);
    FeedDropped(3);
    hide DroppedPort, FEED;
  }

  lemma FeedViewPorts()
    ensures FusedPorts(FEED, FEED_OBS, FEED_NEW)
  {
    hide *;
    forall name | name in FEED.ports ensures DroppedPort(FEED, FEED.ports[name]) {
      FeedGoes(name);
    }
    forall name, port ensures NewPort(FEED, FEED_OBS, name, port) <==> name in FEED_NEW && FEED_NEW[name] == port {
      FeedNew(name, port);
    }
    forall name | name in FEED_NEW ensures !DroppedPort(FEED, FEED_NEW[name]) {
      FeedNewStays(name);
    }
    PortsWhen(FEED, FEED_OBS, map[], FEED_NEW);
    assert map[] + FEED_NEW == FEED_NEW;
  }

  lemma FeedSettles(lib: Library, env: Inputs, st: State, u: Valuation)
    requires u(0) == u(3) && u(1) == env(Made(Wbi, ENTRY), 0)
    ensures Settled(lib, FEED_VIEW, NoFault, env, st, u)
  {
    BufOk(lib, NoFault, Net(0), 3, st(Made(WbObserve, EXIT)), u);
    hide CellOk, BufCell;
  }

  lemma FeedLost()
    ensures Lost(FEED, 0) && CorePinsFormed(FEED.cells[EXIT]) && IsOutput(FEED.cells[EXIT]) && CoreNet(FEED.cells[EXIT]) == 0
  {
    FeedDropped(0);
    FeedNets(EXIT);
    hide DroppedPort, Wrapper;
    assert PortLoses(FEED, IN, 0, 0);
  }

  lemma FeedShows(lib: Library, env: Inputs, st: State, v: Valuation)
    requires Settled(lib, FEED, NoFault, env, st, v)
    ensures PinVal(v, FEED.cells[EXIT], From) == env(IN, 0)
  {
    assert PortOk(NoFault, env, IN, FEED.ports[IN], v);
    assert FEED.ports[IN].bits[0] == Net(0);
    hide Settled;
    assert FEED.cells[EXIT] == Wrapper(WbcOut(false), 0, 2);
  }

  /** The pseudo-output of the feedthrough has no driver: it settles at either value,
      while the netlist holds the core output at the input. */
  lemma FeedthroughFloats(lib: Library, env: Inputs, st: State, b: bool)
    ensures Fused(FEED, FEED_OBS, FEED_VIEW) && !Separate(FEED)
    ensures var u: Valuation := (n: nat) => if n == 1 then env(Made(Wbi, ENTRY), 0) else b;
            Settled(lib, FEED_VIEW, NoFault, env, st, u) && BitsVal(u, FEED_VIEW.ports[Made(Wbo, EXIT)].bits) == [b]
    ensures forall v: Valuation :: Settled(lib, FEED, NoFault, env, st, v) ==> PinVal(v, FEED.cells[EXIT], From) == env(IN, 0)
  {
    var u: Valuation := (n: nat) => if n == 1 then env(Made(Wbi, ENTRY), 0) else b;
    FeedViewCells();
    FeedViewPorts();
    FeedLost();
    FeedSettles(lib, env, st, u);
    hide FusedCells, FusedPorts, Settled, Lost, CorePinsFormed, IsOutput, IsInput, CoreNet, PinVal, Wrapper, Avoids, DroppedNet;
    forall v: Valuation | Settled(lib, FEED, NoFault, env, st, v) ensures PinVal(v, FEED.cells[EXIT], From) == env(IN, 0) {
      FeedShows(lib, env, st, v);
    }
  }
}
