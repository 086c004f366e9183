/** INTEST fusion as it is carried out (faultflow/scan/wbr_view.py): records first,
    then cells popped and ports and buffers added one record at a time. */
module FuseIntest {
  import opened Netlist
  import opened ScanView
  import opened ScanChecks
  import opened Fuse
  import opened FuseShape
  import ViewBuilder

  // The module being rewritten, with what has been decoupled so far.
  datatype Work = Work(cells: map<Name, Cell>, ports: map<Name, Port>, obs: map<Name, nat>, nets: set<nat>, next: nat)

  ghost predicate CellsSoFar(m: Module, done: set<Name>, w: Work)
  {
    && (forall x :: x in m.cells && x !in done ==> x in w.cells && w.cells[x] == m.cells[x])
    && (forall x :: x in w.obs ==> x in m.cells && IsOutput(m.cells[x]) && CorePinsFormed(m.cells[x])
                                   && Made(WbObserve, x) in w.cells
                                   && w.cells[Made(WbObserve, x)] == BufCell(Net(CoreNet(m.cells[x])), w.obs[x]))
    && (forall y :: y in w.cells ==> (y in m.cells && y !in done) || (y.Made? && y.tag.WbObserve? && y.base in w.obs))
  }

  ghost predicate ObsSoFar(m: Module, done: set<Name>, w: Work, next: nat)
  {
    && next <= w.next
    && (forall x :: x in w.obs <==> x in done && x in m.cells && IsOutput(m.cells[x]))
    && (forall x :: x in w.obs ==> next <= w.obs[x] < w.next)
    && (forall x, y :: x in w.obs && y in w.obs && w.obs[x] == w.obs[y] ==> x == y)
  }

  // The ports of the core inputs done so far.
  ghost function InNames(m: Module, done: set<Name>): (r: set<Name>)
    ensures forall name :: name in r <==> name.Made? && name.tag.Wbi? && name.base in done && InputCell(m, name.base)
  {
    set x | x in done && InputCell(m, x) :: Made(Wbi, x)
  }

  ghost predicate InputCell(m: Module, x: Name) { x in m.cells && IsInput(m.cells[x]) && CorePinsFormed(m.cells[x]) }

  ghost function InPort(m: Module, x: Name): Port
    requires InputCell(m, x)
  {
    Port(Input, [Net(CoreNet(m.cells[x]))])
  }

  ghost function InPorts(m: Module, done: set<Name>): map<Name, Port>
  {
    map name | name in InNames(m, done) :: InPort(m, name.base)
  }

  ghost function OutNames(obs: map<Name, nat>): (r: set<Name>)
    ensures forall name :: name in r <==> name.Made? && name.tag.Wbo? && name.base in obs
  {
    set x | x in obs :: Made(Wbo, x)
  }

  ghost function OutPorts(obs: map<Name, nat>): map<Name, Port>
  {
    map name | name in OutNames(obs) :: Port(Output, [Net(obs[name.base])])
  }

  ghost predicate PortsSoFar(m: Module, done: set<Name>, w: Work)
  {
    w.ports == m.ports + InPorts(m, done) + OutPorts(w.obs)
  }

  ghost predicate NetsSoFar(m: Module, done: set<Name>, w: Work)
  {
    forall n :: n in w.nets <==> exists x :: x in done && x in m.cells && Leaves(m.cells[x]) && n in Decoupled(m.cells[x])
  }

  ghost predicate SoFar(m: Module, done: set<Name>, w: Work, next: nat)
  {
    CellsSoFar(m, done, w) && ObsSoFar(m, done, w, next) && PortsSoFar(m, done, w) && NetsSoFar(m, done, w)
  }

  // One record: the cell goes, its core side becomes a port.
  function FuseOne(m: Module, w: Work, x: Name): Work
    requires x in m.cells && Leaves(m.cells[x]) && (!IsTied(m.cells[x]) ==> CorePinsFormed(m.cells[x]))
  {
    var c := m.cells[x];
    var nets := w.nets + Decoupled(c);
    if IsInput(c) then
      Work(w.cells - {x}, w.ports[Made(Wbi, x) := Port(Input, [Net(CoreNet(c))])], w.obs, nets, w.next)
    else if IsOutput(c) then
      Work((w.cells - {x})[Made(WbObserve, x) := BufCell(Net(CoreNet(c)), w.next)],
           w.ports[Made(Wbo, x) := Port(Output, [Net(w.next)])], w.obs[x := w.next], nets, w.next + 1)
    else w.(cells := w.cells - {x}, nets := nets)
  }

  lemma CellsDrop(m: Module, done: set<Name>, w: Work, w': Work, next: nat, x: Name)
    requires FuseReady(m, next) && CellsSoFar(m, done, w) && x in m.cells && x !in done
    requires w'.cells == w.cells - {x} && w'.obs == w.obs
    ensures CellsSoFar(m, done + {x}, w')
  {
    hide Below, WbcForm, Leaves, IsOutput, IsInput, CoreNet, BufCell, CorePinsFormed;
  }

  lemma CellsAdd(m: Module, done: set<Name>, w: Work, w': Work, next: nat, x: Name, k: nat)
    requires FuseReady(m, next) && CellsSoFar(m, done, w) && x in m.cells && x !in w.obs && IsOutput(m.cells[x]) && CorePinsFormed(m.cells[x])
    requires w'.obs == w.obs[x := k] && w'.cells == w.cells[Made(WbObserve, x) := BufCell(Net(CoreNet(m.cells[x])), k)]
    ensures CellsSoFar(m, done, w')
  {
    hide Below, WbcForm, Leaves, IsOutput, IsInput, CoreNet, BufCell, CorePinsFormed;
    forall y | y in w'.cells ensures (y in m.cells && y !in done) || (y.Made? && y.tag.WbObserve? && y.base in w'.obs) {
      if y != Made(WbObserve, x) {
        assert y in w.cells;
      }
    }
  }

  lemma CellsStep(m: Module, done: set<Name>, w: Work, next: nat, x: Name)
    requires FuseReady(m, next) && CellsSoFar(m, done, w) && x in m.cells && x !in done && x !in w.obs
    requires Leaves(m.cells[x]) && (!IsTied(m.cells[x]) ==> CorePinsFormed(m.cells[x]))
    ensures CellsSoFar(m, done + {x}, FuseOne(m, w, x))
  {
    var w' := FuseOne(m, w, x);
    hide FuseReady, CellsSoFar;
    if IsOutput(m.cells[x]) {
      var mid := w.(cells := w.cells - {x});
      CellsDrop(m, done, w, mid, next, x);
      CellsAdd(m, done + {x}, mid, w', next, x, w.next);
    } else {
      CellsDrop(m, done, w, w', next, x);
    }
  }

  lemma ObsStep(m: Module, done: set<Name>, w: Work, next: nat, x: Name)
    requires ObsSoFar(m, done, w, next) && x in m.cells && x !in done
    requires Leaves(m.cells[x]) && (!IsTied(m.cells[x]) ==> CorePinsFormed(m.cells[x]))
    ensures ObsSoFar(m, done + {x}, FuseOne(m, w, x), next) && x !in w.obs
  {
    hide ConstantAt, Decoupled, CoreNet, BufCell, CorePinsFormed;
  }

  lemma InPortsMore(m: Module, done: set<Name>, x: Name)
    ensures InPorts(m, done + {x}) == if InputCell(m, x) then InPorts(m, done)[Made(Wbi, x) := InPort(m, x)] else InPorts(m, done)
  {
    hide InputCell, InPort;
    assert InputCell(m, x) ==> Made(Wbi, x) in InNames(m, done + {x});
  }

  lemma OutPortsMore(obs: map<Name, nat>, x: Name, k: nat)
    ensures OutPorts(obs[x := k]) == OutPorts(obs)[Made(Wbo, x) := Port(Output, [Net(k)])]
  {
    assert Made(Wbo, x) in OutNames(obs[x := k]);
  }

  lemma MiddlePut(a: map<Name, Port>, b: map<Name, Port>, c: map<Name, Port>, name: Name, port: Port)
    requires name !in c
    ensures a + b[name := port] + c == (a + b + c)[name := port]
  {}

  lemma LastPut(a: map<Name, Port>, b: map<Name, Port>, c: map<Name, Port>, name: Name, port: Port)
    ensures a + b + c[name := port] == (a + b + c)[name := port]
  {}

  lemma PortsStep(m: Module, done: set<Name>, w: Work, next: nat, x: Name)
    requires PortsSoFar(m, done, w) && x in m.cells
    requires Leaves(m.cells[x]) && (!IsTied(m.cells[x]) ==> CorePinsFormed(m.cells[x]))
    ensures PortsSoFar(m, done + {x}, FuseOne(m, w, x))
  {
    var w', c := FuseOne(m, w, x), m.cells[x];
    InPortsMore(m, done, x);
    hide InPorts, OutPorts;
    if IsInput(c) {
      assert Made(Wbi, x) !in OutPorts(w.obs) by { OnlyOutputs(w.obs, x); }
      MiddlePut(m.ports, InPorts(m, done), OutPorts(w.obs), Made(Wbi, x), InPort(m, x));
    } else if IsOutput(c) {
      OutPortsMore(w.obs, x, w.next);
      LastPut(m.ports, InPorts(m, done), OutPorts(w.obs), Made(Wbo, x), Port(Output, [Net(w.next)]));
    }
  }

  lemma OnlyOutputs(obs: map<Name, nat>, x: Name)
    ensures Made(Wbi, x) !in OutPorts(obs)
  {}

  lemma NetsStep(m: Module, done: set<Name>, w: Work, x: Name)
    requires NetsSoFar(m, done, w) && x in m.cells
    requires Leaves(m.cells[x]) && (!IsTied(m.cells[x]) ==> CorePinsFormed(m.cells[x]))
    ensures NetsSoFar(m, done + {x}, FuseOne(m, w, x))
  {
    hide Decoupled, ConstantAt, CoreNet, BufCell, CorePinsFormed;
  }

  lemma SoFarStep(m: Module, done: set<Name>, w: Work, next: nat, x: Name)
    requires FuseReady(m, next) && SoFar(m, done, w, next) && x in m.cells && x !in done
    requires Leaves(m.cells[x]) && (!IsTied(m.cells[x]) ==> CorePinsFormed(m.cells[x]))
    ensures SoFar(m, done + {x}, FuseOne(m, w, x), next)
  {
    hide FuseReady, CellsSoFar, ObsSoFar, PortsSoFar, NetsSoFar, FuseOne;
    ObsStep(m, done, w, next, x);
    CellsStep(m, done, w, next, x);
    PortsStep(m, done, w, next, x);
    NetsStep(m, done, w, x);
  }

  predicate PortStays(port: Port, nets: set<nat>) { !(|Ints(port.bits)| == 1 && Ints(port.bits)[0] in nets) }

  function Finished(w: Work): Module
  {
    Module(map name | name in w.ports && PortStays(w.ports[name], w.nets) :: w.ports[name], w.cells)
  }

  lemma StaysMeans(m: Module, done: set<Name>, w: Work, port: Port)
    requires NetsSoFar(m, done, w) && forall x :: x in done <==> x in m.cells && Leaves(m.cells[x])
    ensures PortStays(port, w.nets) <==> !DroppedPort(m, port)
  {
    hide Decoupled, Leaves;
  }

  lemma DoneFused(m: Module, done: set<Name>, w: Work, next: nat)
    requires FuseReady(m, next) && SoFar(m, done, w, next) && forall x :: x in done <==> x in m.cells && Leaves(m.cells[x])
    ensures Observes(m, w.obs, next, w.next) && Fused(m, w.obs, Finished(w))
  {
    hide FuseReady, Leaves, IsOutput, CellsSoFar, PortsSoFar, NetsSoFar, ObsSoFar, FusedCells, FusedPorts, Observes, PortStays;
    ObsDone(m, done, w, next);
    CellsDone(m, done, w);
    PortsDone(m, done, w, next);
  }

  lemma ObsDone(m: Module, done: set<Name>, w: Work, next: nat)
    requires ObsSoFar(m, done, w, next) && forall x :: x in done <==> x in m.cells && Leaves(m.cells[x])
    ensures Observes(m, w.obs, next, w.next)
  {
    hide ConstantAt;
  }

  lemma CellsDone(m: Module, done: set<Name>, w: Work)
    requires CellsSoFar(m, done, w) && forall x :: x in done <==> x in m.cells && Leaves(m.cells[x])
    ensures FusedCells(m, w.obs, w.cells)
  {
    hide Leaves, CoreNet, BufCell, CorePinsFormed, IsOutput;
  }

  lemma PortsDone(m: Module, done: set<Name>, w: Work, next: nat)
    requires FuseReady(m, next) && PortsSoFar(m, done, w) && NetsSoFar(m, done, w)
    requires forall x :: x in done <==> x in m.cells && Leaves(m.cells[x])
    ensures FusedPorts(m, w.obs, Finished(w).ports)
  {
    hide FuseReady, PortsSoFar, NetsSoFar, DroppedPort, PortStays, NewPort, Leaves;
    forall port ensures PortStays(port, w.nets) <==> !DroppedPort(m, port) {
      StaysMeans(m, done, w, port);
    }
    forall name ensures name in w.ports && name !in m.ports ==> NewPort(m, w.obs, name, w.ports[name])
                ensures name in m.ports ==> name in w.ports && w.ports[name] == m.ports[name]
    {
      PortIs(m, done, w, next, name);
    }
    forall name, port | NewPort(m, w.obs, name, port) ensures name in w.ports && w.ports[name] == port {
      PortEntered(m, done, w, next, name, port);
    }
  }

  lemma PortIs(m: Module, done: set<Name>, w: Work, next: nat, name: Name)
    requires FuseReady(m, next) && PortsSoFar(m, done, w) && forall x :: x in done <==> x in m.cells && Leaves(m.cells[x])
    ensures name in w.ports && name !in m.ports ==> NewPort(m, w.obs, name, w.ports[name])
    ensures name in m.ports ==> name in w.ports && w.ports[name] == m.ports[name]
  {
    hide Below, ConstantAt, CoreNet, CorePinsFormed;
  }

  lemma PortEntered(m: Module, done: set<Name>, w: Work, next: nat, name: Name, port: Port)
    requires FuseReady(m, next) && PortsSoFar(m, done, w) && forall x :: x in done <==> x in m.cells && Leaves(m.cells[x])
    requires NewPort(m, w.obs, name, port)
    ensures name in w.ports && w.ports[name] == port && name !in m.ports
  {
    hide Below, ConstantAt, CoreNet, CorePinsFormed;
    if name.tag.Wbi? {
      assert name in InNames(m, done);
    } else {
      assert name in OutNames(w.obs);
    }
  }

  // The cells that leave, in no particular order.
  function Leaving(m: Module): (r: set<Name>)
    ensures forall x :: x in r <==> x in m.cells && Leaves(m.cells[x])
  {
    set x | x in m.cells && Leaves(m.cells[x])
  }

  // The names the fused view adds are free.
  ghost predicate NamesFree(m: Module)
  {
    && (forall x :: x in m.cells ==> !(x.Made? && x.tag.WbObserve?))
    && (forall x :: x in m.ports ==> !(x.Made? && (x.tag.Wbi? || x.tag.Wbo?)))
  }

  method RecordsFormed(m: Module) returns (ok: bool)
    ensures ok <==> Formed(m)
  {
    hide CorePinsFormed, ConstantAt;
    var todo := m.cells.Keys;
    while todo != {}
      invariant todo <= m.cells.Keys
      invariant forall x :: x in m.cells && x !in todo && (IsInput(m.cells[x]) || IsOutput(m.cells[x])) ==> CorePinsFormed(m.cells[x])
    {
      var x :| x in todo;
      if (IsInput(m.cells[x]) || IsOutput(m.cells[x])) && !CorePinsFormed(m.cells[x]) {
        return false;
      }
      todo := todo - {x};
    }
    ok := true;
  }

  /** The fused view, or an error exactly when a boundary cell lacks one of its nets. */
  method FuseView(m: Module) returns (r: Option<Module>, ghost obs: map<Name, nat>, ghost next: nat, ghost next': nat)
    requires NamesFree(m)
    ensures r.Some? <==> Formed(m)
    ensures r.Some? ==> FuseReady(m, next) && Observes(m, obs, next, next') && Fused(m, obs, r.value) && FusedAs(m, r.value)
  {
    hide FusedAs;
    hide Leaves, Below, Formed, CellsSoFar, ObsSoFar, PortsSoFar, NetsSoFar, Observes, Fused, FuseOne, Finished, CorePinsFormed;
    var first := ViewBuilder.NextNetId(m);
    next, next', obs := first, first, map[];
    var ok := RecordsFormed(m);
    if !ok {
      return None, obs, next, next';
    }
    var w := Work(m.cells, m.ports, map[], {}, first);
    var records := set x | x in Leaving(m) && !IsTied(m.cells[x]);
    var tied := Leaving(m) - records;
    ghost var done: set<Name> := {};
    SoFarStart(m, first);
    while records != {}
      invariant records !! tied && done == Leaving(m) - tied - records && records + tied <= Leaving(m) && SoFar(m, done, w, first)
    {
      var x :| x in records;
      FormedAt(m, x);
      SoFarStep(m, done, w, first, x);
      w := FuseOne(m, w, x);
      records := records - {x};
      done := done + {x};
    }
    while tied != {}
      invariant done == Leaving(m) - tied && tied <= Leaving(m) && SoFar(m, done, w, first)
    {
      var x :| x in tied;
      FormedAt(m, x);
      SoFarStep(m, done, w, first, x);
      w := FuseOne(m, w, x);
      tied := tied - {x};
      done := done + {x};
    }
    DoneFused(m, done, w, first);
    next', obs := w.next, w.obs;
    FusedShape(m, obs, next, next', Finished(w));
    r := Some(Finished(w));
  }

  lemma FormedAt(m: Module, x: Name)
    requires Formed(m) && x in m.cells && Leaves(m.cells[x])
    ensures !IsTied(m.cells[x]) ==> CorePinsFormed(m.cells[x])
  {}

  lemma SoFarStart(m: Module, next: nat)
    ensures SoFar(m, {}, Work(m.cells, m.ports, map[], {}, next), next)
  {
    assert InPorts(m, {}) == map[] && OutPorts(map[]) == map[];
    hide IsInput, IsOutput, Leaves, CorePinsFormed, CoreNet, BufCell, Decoupled, InPorts, OutPorts;
  }
}
