/** From stitching to the reduced view (faultflow/scan/stitch.py,
    faultflow/scan/atpg_view.py): a stitched netlist is what the view builder and
    the grading theorems ask for. */
module StitchView {
  import opened Netlist
  import opened NetlistEval
  import opened ScanView
  import opened ScanPlan
  import opened Stitch
  import opened StitchDesign
  import opened StitchRuns
  import opened StitchChains
  import opened ScanRoundTrip
  import opened StitchPorts
  import V = ViewMeaning
  import VD = ViewDrop
  import VF = ViewFinish
  import VB = ViewBuilder
  import VP = ViewPorts
  import P = ScanProtocol
  import G = ScanGrading

  predicate PseudoName(x: Name) { x.Made? && (x.tag.Ppi? || x.tag.Ppo?) }

  // The names the view makes are free in the netlist to be stitched.
  ghost predicate NamesClear(j: Job)
  {
    && (forall x :: x in j.m.ports ==> !PseudoName(x))
    && (forall x :: x in j.ins || x in j.outs || x == j.sePort ==> !PseudoName(x))
    && (forall c: nat, p: nat, t :: c < |j.chains| && p < |j.chains[c].links| && ViewTag(t) ==> Made(t, j.chains[c].links[p].ff.inst) !in j.m.cells)
  }

  function ScanPorts(j: Job): set<Name> { (set x | x in j.ins) + (set x | x in j.outs) + {j.sePort} }

  // The flops in plan order.
  function Order(j: Job): (r: seq<Name>)
    ensures |r| == |j.Links()|
  {
    seq(|j.Links()|, i requires 0 <= i < |j.Links()| => j.Links()[i].ff.inst)
  }

  /* ---- single-bit pins ---- */

  lemma ScanSingle(c: Cell, d: Bit, feed: Bit, se: nat, p: Pin)
    requires c.kind.Flop? && p in ScanCell(c, d, feed, se).conns
    ensures |ScanCell(c, d, feed, se).conns[p]| <= 1
  {}

  lemma GateSingle(inst: Name, c: Cell, k: nat, x: Name, p: Pin)
    requires x in Gates(inst, c, k) && p in Gates(inst, c, k)[x].conns
    ensures |Gates(inst, c, k)[x].conns[p]| <= 1
  {
    hide HoldMux;
    MuxCells(inst, OneBit(c, D), QNet(c), OneBit(c, EN).id, c.kind.en, k);
  }

  lemma {:induction false} StaysSingle(m: Module, k: nat, links: seq<Link>, se: nat)
    requires VB.SinglePins(m.cells) && Below(m, k) && se < k && LinksFit(m, links, k)
    ensures VB.SinglePins(StitchLinks(Stitching(m, k), links, se).m.cells)
  {
    hide Below, LinkFits, SoFar, StitchReady, ScanCell, NewD, Gates;
    if links != [] {
      var n := |links| - 1;
      var before, link := StitchLinks(Stitching(m, k), links[..n], se), links[n];
      PrefixFits(m, links, k, n);
      StaysSingle(m, k, links[..n], se);
      StitchedSoFar(m, k, links[..n], se);
      NotYet(links, n);
      NextReady(m, k, links[..n], before, link, se);
      var c, after := before.m.cells[link.ff.inst], StitchLink(before, link, se).m;
      forall x, p | x in after.cells && p in after.cells[x].conns ensures |after.cells[x].conns[p]| <= 1 {
        if x == link.ff.inst {
          ScanSingle(c, NewD(c, before.next), Net(link.feed), se, p);
        } else if x in Gates(link.ff.inst, c, before.next) {
          GateSingle(link.ff.inst, c, before.next, x, p);
        }
      }
    }
  }

  /* ---- the builder's demands ---- */

  lemma InOrder(j: Job, x: Name)
    requires |j.chains| == |j.ins| == |j.outs|
    ensures x in Order(j) <==> exists c: nat, p: nat :: PlannedAt(j, x, c, p)
  {
    if x in Order(j) {
      var i :| 0 <= i < |Order(j)| && Order(j)[i] == x;
      var c, p := LinkPlace(j.chains, i);
      assert PlannedAt(j, x, c, p);
    }
    if c: nat, p: nat :| PlannedAt(j, x, c, p) {
      LinkAt(j.chains, c, p);
      assert Order(j)[Offset(j.chains, c) + p] == x;
    }
  }

  // Ports of the scan side carry nets of their own, above the original's.
  lemma ScanPortNets(j: Job, name: Name, n: nat)
    requires j.Valid() && name in ScanPorts(j) && name in j.Stitched().ports
    requires j.Stitched().ports[name].dir.Input? && Net(n) in j.Stitched().ports[name].bits
    ensures n >= j.next && |j.Stitched().ports[name].bits| == 1
    ensures name == j.sePort ==> n == j.Se()
    ensures name != j.sePort ==> exists c :: 0 <= c < |j.ins| && j.ins[c] == name && n == j.next + c
  {
    Sizes(j);
    StitchedPorts(j);
    InputPorts(j);
    OutputNames(j);
    hide Job.Valid, Job.Stitched, Job.Scanned, Job.WithInputs;
    if name in j.ins {
      var c :| 0 <= c < |j.ins| && j.ins[c] == name;
    }
  }

  lemma PlannedBelow(j: Job, x: Name)
    requires j.Valid() && ChainsRun(j) && x in Order(j)
    ensures x in j.Stitched().cells && ScanShape(j.Stitched().cells[x], j.Se()) && ControlNet(j.Stitched().cells[x])
    ensures QNet(j.Stitched().cells[x]) < j.next
  {
    Sizes(j);
    InOrder(j, x);
    var c: nat, p: nat :| PlannedAt(j, x, c, p);
    hide Job.Valid, Job.Stitched;
    FlopThreaded(j, c, p);
    LinkOutput(j, c, p);
  }

  lemma CellsOf(j: Job)
    requires j.Valid()
    ensures j.Stitched().cells == j.Scanned().cells && j.WithInputs().cells == j.m.cells
  {
    Sizes(j);
    hide AddInputs, AddOutputs, StitchLinks, AllLinks, Below, LinksFit, NamesFree;
  }

  lemma CellsSoFar(j: Job, x: Name)
    requires j.Valid() && x in j.Stitched().cells
    ensures x in j.m.cells || (x.Made? && EnTag(x.tag))
  {
    CellsOf(j);
    hide *;
    InputsReady(j);
    ScannedIs(j);
    GateNames(j.WithInputs(), j.Se() + 1, j.Links(), j.Se(), x);
  }

  lemma GateNames(m: Module, k: nat, links: seq<Link>, se: nat, x: Name)
    requires Below(m, k) && se < k && LinksFit(m, links, k) && x in StitchLinks(Stitching(m, k), links, se).m.cells
    ensures x in m.cells || (x.Made? && EnTag(x.tag))
  {
    hide StitchLinks, Linked, Below, LinksFit;
    StitchedSoFar(m, k, links, se);
  }

  lemma StitchedNames(j: Job, x: Name, t: Tag)
    requires j.Valid() && NamesClear(j) && x in Order(j) && ViewTag(t)
    ensures Made(t, x) !in j.Stitched().cells
  {
    Sizes(j);
    InOrder(j, x);
    hide Job.Valid, Job.Stitched, Order;
    var c: nat, p: nat :| PlannedAt(j, x, c, p);
    if Made(t, x) in j.Stitched().cells {
      CellsSoFar(j, Made(t, x));
    }
  }

  lemma OrderApart(j: Job, x: Name, y: Name)
    requires j.Valid() && ChainsRun(j) && SingleDriver(j.m) && x in Order(j) && y in Order(j)
    requires x in j.Stitched().cells && y in j.Stitched().cells && QNet(j.Stitched().cells[x]) == QNet(j.Stitched().cells[y])
    ensures x == y
  {
    Sizes(j);
    InOrder(j, x);
    InOrder(j, y);
    var c: nat, p: nat :| PlannedAt(j, x, c, p);
    var e: nat, q: nat :| PlannedAt(j, y, e, q);
    hide Job.Valid, Job.Stitched, SingleDriver, ChainsRun;
    FlopThreaded(j, c, p);
    FlopThreaded(j, e, q);
    QsDiffer(j, c, p, e, q);
  }

  // What the builder asks of one flop of the order.
  ghost predicate FlopFits(g: Module, x: Name, keep: set<Name>, se: nat)
  {
    && x in g.cells && ScanShape(g.cells[x], se) && ControlNet(g.cells[x]) && QNet(g.cells[x]) != se
    && KeptPortsAvoid(g, QNet(g.cells[x]), keep) && (forall t :: ViewTag(t) ==> Made(t, x) !in g.cells)
  }

  lemma PlannedFits(j: Job, x: Name)
    requires j.Valid() && ChainsRun(j) && NamesClear(j) && x in Order(j) && |j.chains| == |j.outs|
    ensures FlopFits(j.Stitched(), x, ScanPorts(j), j.Se())
  {
    hide Job.Valid, Job.Stitched, ChainsRun, ScanShape, ControlNet, QNet, Order, ScanPorts, NamesClear;
    var g := j.Stitched();
    PlannedBelow(j, x);
    forall name | name in ScanPorts(j) && name in g.ports && g.ports[name].dir.Input? ensures Net(QNet(g.cells[x])) !in g.ports[name].bits {
      if Net(QNet(g.cells[x])) in g.ports[name].bits {
        ScanPortNets(j, name, QNet(g.cells[x]));
      }
    }
    forall t | ViewTag(t) ensures Made(t, x) !in g.cells {
      StitchedNames(j, x, t);
    }
  }

  lemma StitchedSingle(j: Job)
    requires j.Valid() && VB.SinglePins(j.m.cells) && |j.chains| == |j.outs|
    ensures VB.SinglePins(j.Stitched().cells)
  {
    InputsReady(j);
    CellsOf(j);
    ScannedIs(j);
    hide Job.Valid, Job.Stitched, Job.Scanned, Job.WithInputs, VB.SinglePins, Below, LinksFit, StitchLinks;
    StaysSingle(j.WithInputs(), j.Se() + 1, j.Links(), j.Se());
  }

  /** The stitched netlist meets every demand of the view builder. */
  lemma StitchedScannable(j: Job)
    requires j.Valid() && ChainsRun(j) && NamesClear(j) && SingleDriver(j.m) && VB.SinglePins(j.m.cells)
    ensures VB.Scannable(j.Stitched(), Order(j), ScanPorts(j), j.Se())
  {
    Sizes(j);
    StitchedSingle(j);
    assert V.PlainKeep(ScanPorts(j));
    hide Job.Valid, Job.Stitched, SingleDriver, ChainsRun, ScanShape, ControlNet, QNet, Order, NamesClear, ScanPorts, VB.SinglePins, V.PlainKeep, KeptPortsAvoid;
    var g := j.Stitched();
    forall x | x in Order(j) ensures FlopFits(g, x, ScanPorts(j), j.Se()) {
      PlannedFits(j, x);
    }
    forall x, y | x in Order(j) && y in Order(j) && x != y && x in g.cells && y in g.cells ensures QNet(g.cells[x]) != QNet(g.cells[y]) {
      if QNet(g.cells[x]) == QNet(g.cells[y]) {
        OrderApart(j, x, y);
      }
    }
  }

  /* ---- its ports ---- */

  // A droppable original input drives its net, so no planned flop does.
  lemma PlannedAlone(j: Job, name: Name, x: Name)
    requires j.Valid() && ChainsRun(j) && SingleDriver(j.m) && name in j.m.ports && j.m.ports[name].dir.Input? && x in Order(j)
    ensures x in j.Stitched().cells && Net(QNet(j.Stitched().cells[x])) !in j.m.ports[name].bits
  {
    Sizes(j);
    InOrder(j, x);
    var c: nat, p: nat :| PlannedAt(j, x, c, p);
    hide Job.Valid, Job.Stitched, ChainsRun;
    FlopThreaded(j, c, p);
    LinkOutput(j, c, p);
    var n := j.chains[c].links[p].ff.q;
    assert Drives(j.m, CellPin(x, Q, 0), n);
    assert forall i: nat :: i < |j.m.ports[name].bits| && j.m.ports[name].bits[i] == Net(n) ==> Drives(j.m, PortBit(name, i), n);
  }

  lemma StitchedPortsOk(j: Job, clocks: set<Name>, p: VF.Finish)
    requires j.Valid() && ChainsRun(j) && SingleDriver(j.m) && clocks <= j.m.ports.Keys
    requires p.drop == ScanPorts(j) + clocks && p.sePort == j.sePort
    ensures VF.PortsOk(j.Stitched(), V.Elems(Order(j)), p, j.Se())
  {
    Sizes(j);
    StitchedPorts(j);
    InputPorts(j);
    hide Job.Valid, Job.Stitched, Job.Scanned, Job.WithInputs, ChainsRun, ScanPorts, Order, QNet, SingleDriver;
    var g := j.Stitched();
    forall name, x | name in p.drop && name in g.ports && g.ports[name].dir.Input? && x in V.Elems(Order(j)) && x in g.cells
      ensures Net(QNet(g.cells[x])) !in g.ports[name].bits
    {
      PlannedBelow(j, x);
      if name in clocks {
        PlannedAlone(j, name, x);
      } else if Net(QNet(g.cells[x])) in g.ports[name].bits {
        ScanPortNets(j, name, QNet(g.cells[x]));
      }
    }
  }

  /** The names the view takes are free and every planned flop is a scan flop, so
      the builder yields a view. */
  lemma StitchedNamesFree(j: Job)
    requires j.Valid() && ChainsRun(j) && NamesClear(j)
    ensures VB.NamesFree(j.Stitched(), Order(j)) && VB.AllScan(j.Stitched(), Order(j))
  {
    Sizes(j);
    StitchedPorts(j);
    InputPorts(j);
    OrderDiffers(j);
    hide Job.Valid, Job.Stitched, Job.Scanned, Job.WithInputs, ChainsRun, Order, QNet;
    forall i | 0 <= i < |Order(j)|
      ensures Order(j)[i] in j.Stitched().cells && j.Stitched().cells[Order(j)[i]].kind.Scan?
      ensures Made(Ppi, Order(j)[i]) !in j.Stitched().ports && Made(Ppo, Order(j)[i]) !in j.Stitched().ports
    {
      PlannedBelow(j, Order(j)[i]);
      assert PseudoName(Made(Ppi, Order(j)[i])) && PseudoName(Made(Ppo, Order(j)[i]));
    }
  }

  lemma OrderDiffers(j: Job)
    requires j.Valid()
    ensures forall a, b :: 0 <= a < b < |Order(j)| ==> Order(j)[a] != Order(j)[b]
  {
    InputsReady(j);
    hide Job.Valid, Job.WithInputs, Job.Links, LinkFits, Below;
    assert LinksDiffer(j.Links());
  }

  /* ---- the view of a stitched netlist ---- */

  // The clock nets of the planned flops.
  function ClockNets(j: Job): set<nat> { set i | 0 <= i < |j.Links()| :: j.Links()[i].ff.clock }

  // The ports that may be dropped besides the scan ports: on a clock net, alone.
  ghost predicate Clocks(j: Job, clocks: set<Name>)
  {
    forall x :: x in clocks ==> exists n :: n in ClockNets(j) && VB.OnNet(j.m.ports, x, n)
  }

  // The cuts and the finishing of the stitched netlist's view.
  ghost predicate ViewOf(j: Job, clocks: set<Name>, s: V.Setup, p: VF.Finish)
  {
    && |j.chains| == |j.outs| && s.g == j.Stitched() && s.order == Order(j) && s.keep == ScanPorts(j) && s.se == j.Se() && s.se < s.next
    && Clocks(j, clocks) && p.drop == ScanPorts(j) + clocks && p.sePort == j.sePort && VF.FinishReady(s, p)
  }

  ghost predicate IsView(j: Job, clocks: set<Name>, view: Module)
  {
    exists s: V.Setup, p: VF.Finish :: ViewOf(j, clocks, s, p) && view == VF.ReducedView(s, p)
  }

  // The nets of the scan inputs and of scan enable are read by nothing the view keeps.
  lemma ScanNetsUnread(j: Job, n: nat)
    requires j.Valid() && j.next <= n <= j.Se() && |j.chains| == |j.outs|
    ensures !VD.StillRead(j.Stitched(), V.Elems(Order(j)), n)
  {
    hide Job.Valid, Job.Stitched, Linked;
    forall x, p ensures !VD.ReadAt(j.Stitched(), V.Elems(Order(j)), n, x, p) {
      if x in j.Stitched().cells && p in j.Stitched().cells[x].conns && Net(n) in j.Stitched().cells[x].conns[p] {
        ScanNetsFree(j, n, x, p);
        LinkedOrdered(j, x);
      }
    }
  }

  lemma LinkedOrdered(j: Job, x: Name)
    requires Linked(j.Links(), x)
    ensures x in Order(j) && x in V.Elems(Order(j))
  {
    var i :| 0 <= i < |j.Links()| && j.Links()[i].ff.inst == x;
    assert Order(j)[i] == x;
  }

  // Planned flops drive original nets.
  lemma ScanNetsUndriven(j: Job, n: nat)
    requires j.Valid() && ChainsRun(j) && n >= j.next && |j.chains| == |j.outs|
    ensures !VP.DrivenByFlop(j.Stitched(), Order(j), n)
  {
    hide Job.Valid, Job.Stitched, ChainsRun, Order, QNet, ScanShape;
    forall x | x in Order(j) && x in j.Stitched().cells ensures QNet(j.Stitched().cells[x]) != n {
      PlannedBelow(j, x);
    }
  }

  // The last flop of a chain drives its scan output.
  lemma TailDrivenByFlop(j: Job, c: nat)
    requires j.Valid() && ChainsRun(j) && c < |j.chains| && |j.chains| == |j.ins| == |j.outs|
    ensures VP.DrivenByFlop(j.Stitched(), Order(j), j.chains[c].scanOut)
  {
    assert ChainRuns(j.chains[c], j.next + c);
    var p := |j.chains[c].links| - 1;
    hide Job.Valid, Job.Stitched, ChainsRun, Order, QNet, ScanShape;
    FlopThreaded(j, c, p);
    var x := j.chains[c].links[p].ff.inst;
    assert PlannedAt(j, x, c, p);
    InOrder(j, x);
  }

  /** The view of a stitched netlist has no scan port. */
  lemma ScanPortGone(j: Job, clocks: set<Name>, view: Module, x: Name)
    requires j.Valid() && ChainsRun(j) && |j.chains| == |j.ins| == |j.outs| && x in ScanPorts(j)
    requires VP.PortsDropped(j.Stitched(), Order(j), ScanPorts(j), ScanPorts(j) + clocks, view)
    ensures x !in view.ports
  {
    StitchedPorts(j);
    InputPorts(j);
    hide Job.Valid, Job.Stitched, Job.Scanned, Job.WithInputs, ChainsRun, Order, VP.Fate, ScanPorts;
    var g := j.Stitched();
    if x in j.outs {
      var c :| 0 <= c < |j.outs| && j.outs[c] == x;
      TailDrivenByFlop(j, c);
      assert g.ports[x].bits == [Net(j.chains[c].scanOut)];
      FateGone(g, Order(j), ScanPorts(j), view, x, j.chains[c].scanOut);
    } else {
      var n := ScanInputNet(j, x);
      ScanNetsUnread(j, n);
      ScanNetsUndriven(j, n);
      FateGone(g, Order(j), ScanPorts(j), view, x, n);
    }
  }

  lemma FateGone(g: Module, order: seq<Name>, keep: set<Name>, view: Module, name: Name, n: nat)
    requires VP.Fate(g, order, keep, view, name, n) && name in keep
    requires VP.DrivenByFlop(g, order, n) || !VD.StillRead(g, V.Elems(order), n)
    ensures name !in view.ports
  {}

  lemma ScanInputNet(j: Job, x: Name) returns (n: nat)
    requires j.Valid() && x in ScanPorts(j) && x !in j.outs
    ensures j.next <= n <= j.Se() && x in j.Stitched().ports && j.Stitched().ports[x].bits == [Net(n)]
  {
    Sizes(j);
    StitchedPorts(j);
    InputPorts(j);
    hide Job.Valid, Job.Stitched, Job.Scanned, Job.WithInputs;
    if x == j.sePort {
      n := j.Se();
    } else {
      var c :| 0 <= c < |j.ins| && j.ins[c] == x;
      n := j.next + c;
    }
  }

  /** A stitched netlist always has a view. It has none of the scan ports, and a port on
      each clock net is dropped once nothing else uses it. */
  method StitchedView(j: Job) returns (view: Module, clocks: set<Name>, ghost s: V.Setup, ghost p: VF.Finish)
    requires j.Valid() && ChainsRun(j) && NamesClear(j) && SingleDriver(j.m) && VB.SinglePins(j.m.cells) && Order(j) != []
    ensures ViewOf(j, clocks, s, p) && view == VF.ReducedView(s, p) && IsView(j, clocks, view)
    ensures forall n: nat :: n in ClockNets(j) && VB.HasPort(j.m.ports, j.m.ports.Keys, n) ==> VB.HasPort(j.m.ports, clocks, n)
    ensures forall x :: x in ScanPorts(j) ==> x !in view.ports
    ensures VP.PortsDropped(j.Stitched(), Order(j), ScanPorts(j), ScanPorts(j) + clocks, view)
  {
    assert |j.chains| == |j.ins| == |j.outs| by { Sizes(j); }
    clocks := VB.ClockPorts(j.m.ports, ClockNets(j));
    assert clocks <= j.m.ports.Keys;
    assert V.PlainKeep(ScanPorts(j) + clocks) && V.PlainKeep(ScanPorts(j));
    assert Clocks(j, clocks);
    hide NamesClear, Clocks, VB.HasPort, Job.Stitched, VF.ReducedView, V.PlainKeep, Job.Valid, ChainsRun, SingleDriver, VB.SinglePins, Order, VB.Scannable, VB.NamesFree, VB.AllScan, VF.PortsOk, VF.FinishReady, ClockNets, VB.OnNet;
    StitchedScannable(j);
    StitchedNamesFree(j);
    StitchedPortsOk(j, clocks, VF.Finish(ScanPorts(j) + clocks, j.sePort, x => 0, x => false));
    assert j.sePort in ScanPorts(j);
    var built;
    built, s, p := VB.BuildView(j.Stitched(), Order(j), ScanPorts(j), ScanPorts(j) + clocks, j.sePort, j.Se());
    view := built.value;
    hide VP.PortsDropped, ViewOf;
    forall x | x in ScanPorts(j) ensures x !in view.ports {
      ScanPortGone(j, clocks, view, x);
    }
  }

  /** Whatever is proved of grading on a view holds for a stitched netlist: its
      view and its protocol describe one design. */
  lemma StitchedSameDesign(lib: Library, j: Job, rank: nat -> nat, clocks: set<Name>, s: V.Setup, p: VF.Finish) returns (d: P.Design)
    requires j.Valid() && ChainsRun(j) && NamesClear(j) && Acyclic(j.m, rank) && ViewOf(j, clocks, s, p) && VD.NoForward(s, p.drop)
    ensures d.lib == lib && d.g == j.Stitched() && G.SameDesign(d, s, p)
  {
    hide *;
    Sizes(j);
    d := StitchedThreaded(lib, j, rank);
    ViewFacts(j, clocks, s, p);
    NotPpi(j);
    forall x ensures x in s.order <==> exists c: nat, q: nat :: P.InChain(d.chains, x, c, q) {
      InChains(j, d, x);
    }
    forall c | 0 <= c < |d.chains| ensures !G.IsPpi(d.chains[c].scanIn) {
      ChainPorts(j, c);
    }
    SameWhen(d, s, p);
  }

  lemma ViewFacts(j: Job, clocks: set<Name>, s: V.Setup, p: VF.Finish)
    requires ViewOf(j, clocks, s, p) && j.Valid()
    ensures s.g == j.Stitched() && s.order == Order(j) && s.se == j.Se() && s.se < s.next && p.sePort == j.sePort && VF.FinishReady(s, p)
  {
    Sizes(j);
    hide Job.Valid, Job.Stitched, Order, ScanPorts, VF.FinishReady;
  }

  lemma NotPpi(j: Job)
    requires j.Valid() && NamesClear(j)
    ensures forall x :: x in j.Stitched().ports ==> !G.IsPpi(x)
    ensures (forall x :: x in j.ins ==> !G.IsPpi(x)) && !G.IsPpi(j.sePort)
  {
    PortsNamed(j);
    hide Job.Valid, Job.Stitched, NamesClear;
  }

  lemma ChainPorts(j: Job, c: nat)
    requires c < |j.chains| && |j.chains| == |j.ins| == |j.outs|
    ensures ChainOf(j, c).scanIn in j.ins
  {}

  lemma SameWhen(d: P.Design, s: V.Setup, p: VF.Finish)
    requires P.Threaded(d) && VF.FinishReady(s, p) && VD.NoForward(s, p.drop) && s.g == d.g && s.se == d.se && p.sePort == d.sePort && s.se < s.next
    requires forall inst :: inst in s.order <==> exists c: nat, q: nat :: P.InChain(d.chains, inst, c, q)
    requires (forall c :: 0 <= c < |d.chains| ==> !G.IsPpi(d.chains[c].scanIn)) && !G.IsPpi(d.sePort)
    requires forall name :: name in d.g.ports ==> !G.IsPpi(name)
    ensures G.SameDesign(d, s, p)
  {
    hide P.Threaded, VF.FinishReady, VD.NoForward, G.IsPpi, P.InChain;
  }

  // No port of the stitched netlist has a pseudo-input's name.
  lemma PortsNamed(j: Job)
    requires j.Valid() && NamesClear(j)
    ensures forall x :: x in j.Stitched().ports ==> !PseudoName(x)
    ensures forall x :: x in j.ins ==> !PseudoName(x)
    ensures !PseudoName(j.sePort)
  {
    Sizes(j);
    StitchedPorts(j);
    InputPorts(j);
    hide Job.Valid, Job.Stitched, Job.Scanned, Job.WithInputs, PseudoName;
  }

  lemma InChains(j: Job, d: P.Design, x: Name)
    requires |j.chains| == |j.ins| == |j.outs|
    requires |d.chains| == |j.chains| && forall c :: 0 <= c < |j.chains| ==> d.chains[c] == ChainOf(j, c)
    ensures x in Order(j) <==> exists c: nat, q: nat :: P.InChain(d.chains, x, c, q)
  {
    InOrder(j, x);
    hide Order;
    if c: nat, q: nat :| PlannedAt(j, x, c, q) {
      assert P.InChain(d.chains, x, c, q);
    }
    if c: nat, q: nat :| P.InChain(d.chains, x, c, q) {
      assert PlannedAt(j, x, c, q);
    }
  }

  // What the view of a stitched netlist shows is what the original does: at its
  // ports, clocks aside, and at each pseudo-output what the original flop would store.
  ghost predicate ShowsOriginal(j: Job, clocks: set<Name>, w: Valuation, view: Module, v: Valuation, st: State)
  {
    && (forall name :: name in j.m.ports && name !in clocks ==>
          name in view.ports && BitsVal(v, view.ports[name].bits) == BitsVal(w, j.m.ports[name].bits))
    && (forall inst :: inst in Order(j) ==>
          && inst in j.m.cells && Made(Ppo, inst) in view.ports
          && BitsVal(v, view.ports[Made(Ppo, inst)].bits) == [NextVal(j.m.cells[inst], st(inst), w)])
  }

  lemma OriginalPorts(j: Job, name: Name)
    requires j.Valid() && name in j.m.ports
    ensures name in j.Stitched().ports && j.Stitched().ports[name] == j.m.ports[name] && name !in ScanPorts(j)
  {
    StitchedPorts(j);
    InputPorts(j);
    OutputNames(j);
    InputNames(j);
    hide Job.Valid, Job.Stitched, Job.Scanned, Job.WithInputs;
  }

  lemma InputNames(j: Job)
    requires j.Valid()
    ensures j.sePort !in j.m.ports && forall x :: x in j.ins ==> x !in j.m.ports
  {
    var names := j.ins + j.outs + [j.sePort];
    assert names[|names| - 1] == j.sePort;
    forall x | x in j.ins ensures x !in j.m.ports {
      var c :| 0 <= c < |j.ins| && j.ins[c] == x;
      assert names[c] == x;
    }
  }

  lemma PlannedFlop(j: Job, x: Name)
    requires j.Valid() && ChainsRun(j) && x in Order(j)
    ensures x in j.m.cells
  {
    Sizes(j);
    InOrder(j, x);
    hide Job.Valid, ChainsRun;
    var c: nat, p: nat :| PlannedAt(j, x, c, p);
    LinkOutput(j, c, p);
  }

  lemma MirrorsOriginal(j: Job, clocks: set<Name>, s: V.Setup, p: VF.Finish, w: Valuation, v: Valuation, st: State)
    requires j.Valid() && ChainsRun(j) && ViewOf(j, clocks, s, p) && SameNexts(j.m, j.Stitched(), st, w)
    requires V.Mirrors(s.g, w, VF.ReducedView(s, p), v, V.Elems(s.order), st, s.keep + p.drop)
    ensures ShowsOriginal(j, clocks, w, VF.ReducedView(s, p), v, st)
  {
    hide Job.Valid, Job.Stitched, Order, VF.FinishReady, VF.ReducedView, NextVal, BitsVal, ScanPorts;
    forall name | name in j.m.ports && name !in clocks
      ensures name in VF.ReducedView(s, p).ports
      ensures BitsVal(v, VF.ReducedView(s, p).ports[name].bits) == BitsVal(w, j.m.ports[name].bits)
    {
      OriginalPorts(j, name);
      assert V.ShowsPort(s.g, w, VF.ReducedView(s, p), v, name);
    }
    forall inst | inst in Order(j)
      ensures inst in j.m.cells && Made(Ppo, inst) in VF.ReducedView(s, p).ports
      ensures BitsVal(v, VF.ReducedView(s, p).ports[Made(Ppo, inst)].bits) == [NextVal(j.m.cells[inst], st(inst), w)]
    {
      PlannedFlop(j, inst);
      assert V.ShowsCapture(s.g, w, VF.ReducedView(s, p), v, inst, st);
    }
  }

  /** The combinational view of the stitched netlist is the original netlist with
      its flops opened: under every fault but the stuck output of a holding flop,
      every settled state of the view comes from one of the original under the same
      fault, and shows what that one does. */
  lemma ViewIsOriginal(lib: Library, j: Job, clocks: set<Name>, s: V.Setup, p: VF.Finish, f: Fault, env: Inputs, st: State, v: Valuation)
    returns (w: Valuation)
    requires j.Valid() && ChainsRun(j) && ViewOf(j, clocks, s, p) && FaultBelow(f, j.next) && HoldsFree(j.m, f)
    requires VD.NoForward(s, p.drop)
    requires V.Loaded(s, env, st) && !env(j.sePort, 0)
    requires Settled(lib, VF.ReducedView(s, p), VF.ViewFault(s, f), env, st, v)
    ensures Settled(lib, j.m, f, env, st, w) && ShowsOriginal(j, clocks, w, VF.ReducedView(s, p), v, st)
  {
    ScannedIs(j);
    hide Job.Valid, Job.Stitched, ChainsRun, Order, VF.FinishReady, VF.ReducedView, Settled, HoldsFree, V.Mirrors, VF.ViewFault, V.Loaded, ShowsOriginal, VD.NoForward, Clocks;
    w := VF.ViewBack(lib, s, p, f, env, st, v);
    StitchedBack(lib, j, f, env, st, w);
    MirrorsOriginal(j, clocks, s, p, w, v, st);
  }

  // The original's nets are all that its ports and flops look at.
  lemma ShowsAgree(lib: Library, j: Job, clocks: set<Name>, w: Valuation, w': Valuation, view: Module, v: Valuation, st: State)
    requires j.Valid() && AgreeBelow(w, w', j.next) && ShowsOriginal(j, clocks, w', view, v, st)
    ensures ShowsOriginal(j, clocks, w, view, v, st)
  {
    assert Below(j.m, j.next);
    hide Job.Valid, Order, NextVal, BitsVal, BitsBelow, CellBelow;
    forall name | name in j.m.ports ensures BitsVal(w, j.m.ports[name].bits) == BitsVal(w', j.m.ports[name].bits) {
      BitsAgree(w, w', j.m.ports[name].bits, j.next);
    }
    forall x | x in j.m.cells ensures NextVal(j.m.cells[x], st(x), w) == NextVal(j.m.cells[x], st(x), w') {
      CellAgree(lib, w, w', j.m.cells[x], j.next);
    }
  }

  /** And every settled state of the original is shown by the view. */
  lemma OriginalIsViewed(lib: Library, j: Job, clocks: set<Name>, s: V.Setup, p: VF.Finish, f: Fault, env: Inputs, st: State, w: Valuation)
    returns (v: Valuation)
    requires j.Valid() && ChainsRun(j) && ViewOf(j, clocks, s, p) && FaultBelow(f, j.next) && HoldsFree(j.m, f)
    requires V.Loaded(s, env, st) && !env(j.sePort, 0)
    requires Settled(lib, j.m, f, env, st, w)
    ensures Settled(lib, VF.ReducedView(s, p), VF.ViewFault(s, f), env, st, v)
    ensures ShowsOriginal(j, clocks, w, VF.ReducedView(s, p), v, st)
  {
    ScannedIs(j);
    hide Job.Valid, Job.Stitched, ChainsRun, Order, VF.FinishReady, VF.ReducedView, Settled, HoldsFree, V.Mirrors, VF.ViewFault, V.Loaded, ShowsOriginal, VD.NoForward, Clocks;
    var w' := StitchedForth(lib, j, f, env, st, w);
    v := VF.ViewForth(lib, s, p, f, env, st, w');
    StitchedBack(lib, j, f, env, st, w');
    MirrorsOriginal(j, clocks, s, p, w', v, st);
    ShowsAgree(lib, j, clocks, w, w', VF.ReducedView(s, p), v, st);
  }
}
