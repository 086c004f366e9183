/** Stitching and checking undo each other (faultflow/scan/stitch.py,
    faultflow/scan/checks.py): a freshly stitched netlist passes the check with
    the planned order, and a netlist that passes is threaded for the protocol. */
module ScanRoundTrip {
  import opened Netlist
  import E = NetlistEval
  import opened ScanView
  import opened ScanPlan
  import opened Stitch
  import opened StitchDesign
  import opened StitchRuns
  import opened StitchChains
  import opened ScanChecks
  import P = ScanProtocol

  // The chains the manifest records.
  function Manifest(j: Job): (r: seq<ManifestChain>)
    requires |j.chains| == |j.ins| == |j.outs|
    ensures |r| == |j.chains|
  {
    seq(|j.chains|, c requires 0 <= c < |j.chains| => ManifestChain(j.ins[c], j.outs[c], Insts(j.chains[c].links)))
  }

  // The netlist to stitch holds no chain cell yet.
  ghost predicate Unscanned(m: Module)
  {
    forall x :: x in m.cells ==> !IsElement(m.cells[x], false)
  }

  lemma GateKind(inst: Name, c: Cell, k: nat, x: Name)
    requires x in Gates(inst, c, k)
    ensures !IsElement(Gates(inst, c, k)[x], false)
  {
    hide HoldMux;
    MuxCells(inst, OneBit(c, D), QNet(c), OneBit(c, EN).id, c.kind.en, k);
  }

  lemma {:induction false} NewCells(m: Module, k: nat, links: seq<Link>, se: nat, x: Name)
    requires Below(m, k) && se < k && LinksFit(m, links, k) && Unscanned(m)
    requires x in StitchLinks(Stitching(m, k), links, se).m.cells && !Linked(links, x)
    ensures !IsElement(StitchLinks(Stitching(m, k), links, se).m.cells[x], false)
  {
    hide Below, LinkFits, SoFar, StitchReady, StitchLink, Linked, IsElement;
    if links != [] {
      var n := |links| - 1;
      var before, link := StitchLinks(Stitching(m, k), links[..n], se), links[n];
      assert links == links[..n] + [link];
      hide StitchLinks, LinksFit, Unscanned;
      PrefixFits(m, links, k, n);
      LinkedMore(links[..n], link);
      NewCell(before, link, se, x);
      if x in before.m.cells && before.m.cells[x] == StitchLink(before, link, se).m.cells[x] {
        NewCells(m, k, links[..n], se, x);
      }
    } else {
      hide LinksFit;
    }
  }

  // Stitching one flop adds no scan flop but its own.
  lemma NewCell(s: Stitching, link: Link, se: nat, x: Name)
    requires x in StitchLink(s, link, se).m.cells && x != link.ff.inst
    ensures var c := StitchLink(s, link, se).m.cells[x];
            (x in s.m.cells && c == s.m.cells[x]) || !IsElement(c, false)
  {
    hide ScanCell, NewD, Gates, IsElement;
    if link.ff.inst in s.m.cells && s.m.cells[link.ff.inst].kind.Flop? {
      if x in Gates(link.ff.inst, s.m.cells[link.ff.inst], s.next) {
        GateKind(link.ff.inst, s.m.cells[link.ff.inst], s.next, x);
      }
    }
  }

  ghost predicate PlannedAt(j: Job, x: Name, c: nat, p: nat)
  {
    c < |j.chains| && p < |j.chains[c].links| && j.chains[c].links[p].ff.inst == x
  }

  // The scan flops of the stitched netlist are the planned flops.
  lemma FreshElements(j: Job, x: Name)
    requires j.Valid() && ChainsRun(j) && Unscanned(j.m)
    ensures x in Elements(j.Stitched(), false) <==> exists c: nat, p: nat :: PlannedAt(j, x, c, p)
  {
    Sizes(j);
    assert j.Stitched().cells == j.Scanned().cells && j.WithInputs().cells == j.m.cells;
    assert j.Scanned() == StitchLinks(Stitching(j.WithInputs(), j.Se() + 1), j.Links(), j.Se()).m;
    assert j.Links() == AllLinks(j.chains);
    hide Job.Valid, Job.Stitched, Job.Scanned, Job.WithInputs, StitchLinks, AllLinks, Below, LinksFit, Job.Links;
    if c: nat, p: nat :| PlannedAt(j, x, c, p) {
      FlopThreaded(j, c, p);
    }
    if x in Elements(j.Stitched(), false) {
      InputsReady(j);
      if !Linked(j.Links(), x) {
        NewCells(j.WithInputs(), j.Se() + 1, j.Links(), j.Se(), x);
      }
      var i :| 0 <= i < |j.Links()| && j.Links()[i].ff.inst == x;
      var c, p := LinkPlace(j.chains, i);
      assert PlannedAt(j, x, c, p);
    }
  }

  // The pins of a planned flop in the stitched netlist.
  lemma FreshPins(j: Job, c: nat, p: nat)
    requires j.Valid() && ChainsRun(j) && c < |j.chains| && p < |j.chains[c].links|
    ensures var link, m := j.chains[c].links[p], j.Stitched();
            && link.ff.inst in m.cells && WellFormed(m.cells[link.ff.inst], false)
            && InNet(m, false, link.ff.inst) == link.feed && OutNet(m, false, link.ff.inst) == link.ff.q
            && NetAt(m.cells[link.ff.inst], SE) == Some(j.Se())
  {
    Sizes(j);
    hide Job.Valid, Job.Stitched;
    FlopThreaded(j, c, p);
  }

  lemma FreshFormed(j: Job)
    requires j.Valid() && ChainsRun(j) && Unscanned(j.m)
    ensures AllFormed(j.Stitched(), false, Elements(j.Stitched(), false))
    ensures EnableShared(j.Stitched(), false, Elements(j.Stitched(), false), Some(j.Se()))
  {
    Sizes(j);
    hide Job.Valid, Job.Stitched, WellFormed, NetAt, IsElement, Elements;
    var m := j.Stitched();
    forall x | x in Elements(m, false) ensures x in m.cells && WellFormed(m.cells[x], false) && NetAt(m.cells[x], SE) == Some(j.Se()) {
      FreshElements(j, x);
      var c: nat, p: nat :| PlannedAt(j, x, c, p);
      FreshPins(j, c, p);
    }
  }

  // Output nets of the planned flops differ, and differ from the scan inputs.
  lemma QsDiffer(j: Job, c: nat, p: nat, e: nat, q: nat)
    requires j.Valid() && ChainsRun(j) && E.SingleDriver(j.m)
    requires c < |j.chains| && p < |j.chains[c].links| && e < |j.chains| && q < |j.chains[e].links|
    requires j.chains[c].links[p].ff.q == j.chains[e].links[q].ff.q
    ensures c == e && p == q
  {
    var a, b := j.chains[c].links[p], j.chains[e].links[q];
    assert LinksDiffer(AllLinks(j.chains));
    hide AllLinks, LinksDiffer;
    LinkOutput(j, c, p);
    LinkOutput(j, e, q);
    hide Job.Valid;
    assert a.ff.inst == b.ff.inst by {
      assert j.m.cells[a.ff.inst].conns[Q][0] == Net(a.ff.q) && j.m.cells[b.ff.inst].conns[Q][0] == Net(a.ff.q);
      assert E.Drives(j.m, E.CellPin(a.ff.inst, Q, 0), a.ff.q) && E.Drives(j.m, E.CellPin(b.ff.inst, Q, 0), a.ff.q);
    }
    PlacesDiffer(j.chains, c, p, e, q);
  }

  lemma PlannedFeed(j: Job, c: nat, p: nat)
    requires j.Valid() && ChainsRun(j) && c < |j.chains| && p < |j.chains[c].links|
    ensures p == 0 ==> j.chains[c].links[p].feed == j.next + c
    ensures p > 0 ==> j.chains[c].links[p].feed == j.chains[c].links[p - 1].ff.q < j.next
  {
    assert ChainRuns(j.chains[c], j.next + c);
    if p > 0 {
      LinkOutput(j, c, p - 1);
    }
  }

  lemma FeedsApart(j: Job, c: nat, p: nat, e: nat, q: nat)
    requires j.Valid() && ChainsRun(j) && E.SingleDriver(j.m)
    requires c < |j.chains| && p < |j.chains[c].links| && e < |j.chains| && q < |j.chains[e].links|
    requires j.chains[c].links[p].feed == j.chains[e].links[q].feed
    ensures c == e && p == q
  {
    hide Job.Valid, ChainsRun, E.SingleDriver;
    PlannedFeed(j, c, p);
    PlannedFeed(j, e, q);
    if p > 0 && q > 0 {
      QsDiffer(j, c, p - 1, e, q - 1);
    }
  }

  lemma FreshApart(j: Job)
    requires j.Valid() && ChainsRun(j) && Unscanned(j.m) && E.SingleDriver(j.m)
    ensures AllFormed(j.Stitched(), false, Elements(j.Stitched(), false))
    ensures FeedsDiffer(j.Stitched(), false, Elements(j.Stitched(), false))
  {
    Sizes(j);
    FreshFormed(j);
    hide Job.Valid, Job.Stitched, WellFormed, NetAt, IsElement, Elements, AllFormed, ChainsRun, E.SingleDriver, InNet;
    var m := j.Stitched();
    forall a, b | a in Elements(m, false) && b in Elements(m, false) && InNet(m, false, a) == InNet(m, false, b) ensures a == b {
      FreshElements(j, a);
      FreshElements(j, b);
      var c: nat, p: nat :| PlannedAt(j, a, c, p);
      var e: nat, q: nat :| PlannedAt(j, b, e, q);
      FreshPins(j, c, p);
      FreshPins(j, e, q);
      FeedsApart(j, c, p, e, q);
    }
  }

  // One stitched chain, seen by the check.
  lemma FreshChain(j: Job, c: nat)
    requires j.Valid() && ChainsRun(j) && Unscanned(j.m) && E.SingleDriver(j.m) && c < |j.chains|
    requires AllFormed(j.Stitched(), false, Elements(j.Stitched(), false)) && |j.chains| == |j.ins| == |j.outs|
    ensures ChainHolds(j.Stitched(), false, Manifest(j)[c])
  {
    hide Job.Valid, Job.Stitched, AllFormed, E.SingleDriver, ChainsRun, Connected, FeedsNone, Unscanned;
    ChainPorts(j, c);
    FreshConnected(j, c);
    ChainSimple(j, c);
    TailFeedsNone(j, c);
  }

  lemma FreshConnected(j: Job, c: nat)
    requires j.Valid() && ChainsRun(j) && Unscanned(j.m) && c < |j.chains|
    requires AllFormed(j.Stitched(), false, Elements(j.Stitched(), false)) && |j.chains| == |j.outs|
    ensures Connected(j.Stitched(), false, j.next + c, Insts(j.chains[c].links), j.chains[c].scanOut)
  {
    assert ChainRuns(j.chains[c], j.next + c);
    hide Job.Valid, Job.Stitched, ChainsRun, Unscanned, Elements, Connected;
    forall p | 0 <= p < |j.chains[c].links| ensures Seen(j.Stitched(), j.chains[c].links[p]) {
      FreshPins(j, c, p);
      FreshElements(j, j.chains[c].links[p].ff.inst);
      assert PlannedAt(j, j.chains[c].links[p].ff.inst, c, p);
    }
    SeenConnects(j.Stitched(), j.chains[c], j.next + c);
  }

  // The check reads a link off the netlist as planned.
  ghost predicate Seen(m: Module, link: Link)
  {
    && link.ff.inst in Elements(m, false) && WellFormed(m.cells[link.ff.inst], false)
    && InNet(m, false, link.ff.inst) == link.feed && OutNet(m, false, link.ff.inst) == link.ff.q
  }

  lemma SeenConnects(m: Module, ch: PlannedChain, scanIn: nat)
    requires AllFormed(m, false, Elements(m, false)) && ChainRuns(ch, scanIn)
    requires forall p :: 0 <= p < |ch.links| ==> Seen(m, ch.links[p])
    ensures Connected(m, false, scanIn, Insts(ch.links), ch.scanOut)
  {
    hide WellFormed, NetAt, Elements, InNet, OutNet, AllFormed;
    var path := Insts(ch.links);
    forall p | 0 <= p <= |path|
      ensures Before(m, false, scanIn, path, p) == if p < |path| then ch.links[p].feed else ch.scanOut
    {
      if p > 0 {
        assert Seen(m, ch.links[p - 1]);
      }
    }
    hide Before;
  }

  lemma ChainSimple(j: Job, c: nat)
    requires j.Valid() && c < |j.chains|
    ensures Simple(Insts(j.chains[c].links))
  {
    assert LinksDiffer(AllLinks(j.chains));
    hide Job.Valid, AllLinks, LinksDiffer;
    var names := Insts(j.chains[c].links);
    forall p, q | 0 <= p < q < |names| ensures names[p] != names[q] {
      if names[p] == names[q] {
        PlacesDiffer(j.chains, c, p, c, q);
      }
    }
  }

  // The last flop of a chain feeds no other.
  lemma TailFeedsNone(j: Job, c: nat)
    requires j.Valid() && ChainsRun(j) && Unscanned(j.m) && E.SingleDriver(j.m) && c < |j.chains|
    requires AllFormed(j.Stitched(), false, Elements(j.Stitched(), false)) && |j.chains| == |j.ins| == |j.outs|
    ensures FeedsNone(j.Stitched(), false, j.chains[c].scanOut)
  {
    assert ChainRuns(j.chains[c], j.next + c);
    hide Job.Valid, Job.Stitched, WellFormed, NetAt, IsElement, Elements, AllFormed, E.SingleDriver, InNet, ChainsRun;
    var m, last := j.Stitched(), |j.chains[c].links| - 1;
    LinkOutput(j, c, last);
    forall a | a in Elements(m, false) ensures InNet(m, false, a) != j.chains[c].scanOut {
      FreshElements(j, a);
      var e: nat, q: nat :| PlannedAt(j, a, e, q);
      FreshPins(j, e, q);
      PlannedFeed(j, e, q);
      if q > 0 && InNet(m, false, a) == j.chains[c].scanOut {
        QsDiffer(j, c, last, e, q - 1);
      }
    }
  }

  // Its scan flops hold in the planned order, on the shared enable.
  lemma FreshHolds(j: Job)
    requires j.Valid() && ChainsRun(j) && Unscanned(j.m) && E.SingleDriver(j.m)
    ensures |j.chains| == |j.ins| == |j.outs| && SortHolds(j.Stitched(), false, Manifest(j))
    ensures EnableShared(j.Stitched(), false, Elements(j.Stitched(), false), PortNet(j.Stitched(), j.sePort, Input))
  {
    Sizes(j);
    FreshFormed(j);
    FreshApart(j);
    EnablePort(j);
    assert PortNet(j.Stitched(), j.sePort, Input) == Some(j.Se());
    hide Job.Valid, Job.Stitched, WellFormed, NetAt, IsElement, Elements, AllFormed, E.SingleDriver, InNet, ChainsRun, EnableShared, FeedsDiffer, ChainHolds;
    var m, chains := j.Stitched(), Manifest(j);
    forall c | 0 <= c < |chains| ensures ChainHolds(m, false, chains[c]) {
      FreshChain(j, c);
    }
    ManifestApart(j);
    hide Manifest;
    forall x ensures x in Covered(chains) <==> x in Elements(m, false) {
      FreshElements(j, x);
      CoveredIs(chains, x);
      ManifestLists(j, x);
    }
    assert Covered(chains) == Elements(m, false);
  }

  // Stitching makes no wrapper cell.
  lemma {:induction false} NoNewWrapper(m: Module, k: nat, links: seq<Link>, se: nat, x: Name)
    requires Below(m, k) && se < k && LinksFit(m, links, k)
    requires x in StitchLinks(Stitching(m, k), links, se).m.cells && IsElement(StitchLinks(Stitching(m, k), links, se).m.cells[x], true)
    ensures x in m.cells && IsElement(m.cells[x], true)
  {
    hide Below, LinkFits, SoFar, StitchReady, NewD, Gates;
    if links != [] {
      var n := |links| - 1;
      var before, link := StitchLinks(Stitching(m, k), links[..n], se), links[n];
      PrefixFits(m, links, k, n);
      StitchedSoFar(m, k, links[..n], se);
      NotYet(links, n);
      NextReady(m, k, links[..n], before, link, se);
      var c := before.m.cells[link.ff.inst];
      assert x != link.ff.inst by { assert ScanCell(c, NewD(c, before.next), Net(link.feed), se).kind.Scan?; }
      assert x !in Gates(link.ff.inst, c, before.next) by {
        if x in Gates(link.ff.inst, c, before.next) {
          GatePlain(link.ff.inst, c, before.next, x);
        }
      }
      hide ScanCell;
      NoNewWrapper(m, k, links[..n], se, x);
    }
  }

  lemma GatePlain(inst: Name, c: Cell, k: nat, x: Name)
    requires x in Gates(inst, c, k)
    ensures !IsElement(Gates(inst, c, k)[x], true)
  {
    hide HoldMux;
    MuxCells(inst, OneBit(c, D), QNet(c), OneBit(c, EN).id, c.kind.en, k);
  }

  lemma FreshWrappers(j: Job)
    requires j.Valid() && Elements(j.m, true) == {}
    ensures Elements(j.Stitched(), true) == {}
  {
    Sizes(j);
    InputsReady(j);
    ScannedIs(j);
    assert j.Stitched().cells == j.Scanned().cells && j.WithInputs().cells == j.m.cells;
    hide Job.Valid, Job.Stitched, Job.Scanned, Job.WithInputs, StitchLinks, Below, LinksFit, IsElement, Job.Links;
    forall x | x in j.Stitched().cells && IsElement(j.Stitched().cells[x], true) ensures x in Elements(j.m, true) {
      NoNewWrapper(j.WithInputs(), j.Se() + 1, j.Links(), j.Se(), x);
    }
  }

  /** A freshly stitched netlist passes with the planned order exactly when its
      wrapper cells, if any, hold in their chains on one enable. */
  lemma FreshPasses(j: Job, wrappers: seq<ManifestChain>)
    requires j.Valid() && ChainsRun(j) && Unscanned(j.m) && E.SingleDriver(j.m) && j.chains != []
    ensures |j.chains| == |j.ins| == |j.outs|
    ensures Passes(j.Stitched(), Manifest(j), wrappers, j.sePort) <==>
              SortHolds(j.Stitched(), true, wrappers) && OneEnable(j.Stitched(), Elements(j.Stitched(), true))
    ensures Elements(j.m, true) == {} ==> Passes(j.Stitched(), Manifest(j), [], j.sePort)
  {
    FreshHolds(j);
    EnablePort(j);
    assert PortNet(j.Stitched(), j.sePort, Input) == Some(j.Se());
    assert ChainRuns(j.chains[0], j.next + 0);
    var x := j.chains[0].links[0].ff.inst;
    FreshElements(j, x);
    assert PlannedAt(j, x, 0, 0);
    hide Job.Valid, Job.Stitched, SortHolds, EnableShared, OneEnable, Elements, Manifest, PortNet, ChainsRun, Unscanned, E.SingleDriver;
    if Elements(j.m, true) == {} {
      FreshWrappers(j);
      NoWrappers(j.Stitched());
    }
  }

  lemma NoWrappers(m: Module)
    requires Elements(m, true) == {}
    ensures SortHolds(m, true, []) && OneEnable(m, Elements(m, true))
  {}

  lemma ManifestLists(j: Job, x: Name)
    requires |j.chains| == |j.ins| == |j.outs|
    ensures (exists c :: 0 <= c < |Manifest(j)| && x in Manifest(j)[c].cells) <==> exists c: nat, p: nat :: PlannedAt(j, x, c, p)
  {
    if c :| 0 <= c < |Manifest(j)| && x in Manifest(j)[c].cells {
      var p :| 0 <= p < |Manifest(j)[c].cells| && Manifest(j)[c].cells[p] == x;
      assert PlannedAt(j, x, c, p);
    }
    if c: nat, p: nat :| PlannedAt(j, x, c, p) {
      assert Manifest(j)[c].cells[p] == x;
    }
  }

  lemma ManifestApart(j: Job)
    requires j.Valid() && |j.chains| == |j.ins| == |j.outs|
    ensures forall c, e, x :: 0 <= c < e < |Manifest(j)| && x in Manifest(j)[c].cells ==> x !in Manifest(j)[e].cells
  {
    assert LinksDiffer(AllLinks(j.chains));
    hide Job.Valid, AllLinks, LinksDiffer;
    forall c, e, x | 0 <= c < e < |Manifest(j)| && x in Manifest(j)[c].cells ensures x !in Manifest(j)[e].cells {
      if x in Manifest(j)[e].cells {
        var p :| 0 <= p < |Manifest(j)[c].cells| && Manifest(j)[c].cells[p] == x;
        var q :| 0 <= q < |Manifest(j)[e].cells| && Manifest(j)[e].cells[q] == x;
        PlacesDiffer(j.chains, c, p, e, q);
      }
    }
  }

  /* ---- from a passing check to the protocol ---- */

  // A scan flop as the library writes it; the check looks at SDI, Q, SE and CLK only.
  ghost predicate ScanForm(c: Cell)
  {
    && c.kind.Scan? && c.outs == {Q} && D in c.conns && |c.conns[D]| == 1
    && (!c.kind.ctl.NoControl? ==> CTRL in c.conns && |c.conns[CTRL]| == 1 && c.conns[CTRL][0].Net?)
  }

  function AsChain(ch: ManifestChain): P.Chain { P.Chain(ch.scanIn, ch.scanOut, ch.cells) }

  function AsChains(chains: seq<ManifestChain>): (r: seq<P.Chain>)
    ensures |r| == |chains| && forall c :: 0 <= c < |chains| ==> r[c] == AsChain(chains[c])
  {
    seq(|chains|, c requires 0 <= c < |chains| => AsChain(chains[c]))
  }

  lemma FormShape(c: Cell, se: nat)
    requires ScanForm(c) && WellFormed(c, false) && NetAt(c, SE) == Some(se)
    ensures ScanShape(c, se) && SDI in c.conns && c.conns[SDI] == [Net(NetAt(c, SDI).value)] && Net(QNet(c)) == Net(NetAt(c, Q).value)
  {
    assert c.conns[SE] == [Net(se)];
    assert c.conns[SDI] == [Net(NetAt(c, SDI).value)];
  }

  lemma PassingFeed(m: Module, ch: ManifestChain, p: nat)
    requires AllFormed(m, false, Elements(m, false)) && ChainHolds(m, false, ch) && p <= |ch.cells|
    ensures P.Feed(m, AsChain(ch), p) == Net(Before(m, false, PortNet(m, ch.scanIn, Input).value, ch.cells, p))
  {
    hide FeedsNone, Simple;
    if p > 0 {
      var c := m.cells[ch.cells[p - 1]];
      assert ch.cells[p - 1] in Elements(m, false);
      assert OneBit(c, Q) == Net(NetAt(c, Q).value);
    }
  }

  lemma PassingChain(m: Module, ch: ManifestChain, sePort: Name)
    requires AllFormed(m, false, Elements(m, false)) && ChainHolds(m, false, ch)
    requires PortNet(m, sePort, Input).Some? && EnableShared(m, false, Elements(m, false), PortNet(m, sePort, Input))
    requires forall x :: x in Elements(m, false) ==> ScanForm(m.cells[x])
    requires ch.cells != [] && ch.scanIn != sePort
    ensures P.ChainThreaded(m, AsChain(ch), PortNet(m, sePort, Input).value, sePort)
  {
    var se := PortNet(m, sePort, Input).value;
    forall p | 0 <= p < |ch.cells|
      ensures ch.cells[p] in m.cells && ScanShape(m.cells[ch.cells[p]], se)
      ensures SDI in m.cells[ch.cells[p]].conns && m.cells[ch.cells[p]].conns[SDI] == [P.Feed(m, AsChain(ch), p)]
    {
      hide FeedsNone, Simple, ScanForm, ScanShape, WellFormed, P.Feed;
      assert ch.cells[p] in Elements(m, false);
      FormShape(m.cells[ch.cells[p]], se);
      PassingFeed(m, ch, p);
    }
    PassingFeed(m, ch, |ch.cells|);
    hide FeedsNone, Simple, ScanForm, ScanShape, WellFormed, P.Feed, Connected, AllFormed, EnableShared;
  }

  // A cell is met at one place of one chain only.
  lemma PassingPlaces(m: Module, chains: seq<ManifestChain>)
    requires AllFormed(m, false, Elements(m, false)) && ChainsHold(m, false, chains)
    ensures P.OnePlace(AsChains(chains))
  {
    forall x, c: nat, p: nat, e: nat, q: nat | P.InChain(AsChains(chains), x, c, p) && P.InChain(AsChains(chains), x, e, q)
      ensures c == e && p == q
    {
      assert x in chains[c].cells && x in chains[e].cells;
      assert ChainHolds(m, false, chains[c]);
    }
  }

  lemma PassingInputs(m: Module, chains: seq<ManifestChain>)
    requires AllFormed(m, false, Elements(m, false)) && FeedsDiffer(m, false, Elements(m, false)) && ChainsHold(m, false, chains)
    requires forall c :: 0 <= c < |chains| ==> chains[c].cells != []
    ensures P.ScanInsDiffer(AsChains(chains))
  {
    hide ChainHolds, InNet, WellFormed, Elements, PortNet;
    forall c, e | 0 <= c < e < |chains| ensures chains[c].scanIn != chains[e].scanIn {
      FirstFeed(m, chains[c]);
      FirstFeed(m, chains[e]);
      var a, b := chains[c].cells[0], chains[e].cells[0];
      assert a in chains[c].cells && b in chains[e].cells;
      assert a != b;
    }
  }

  lemma FirstFeed(m: Module, ch: ManifestChain)
    requires AllFormed(m, false, Elements(m, false)) && ChainHolds(m, false, ch) && ch.cells != []
    ensures ch.cells[0] in Elements(m, false) && InNet(m, false, ch.cells[0]) == PortNet(m, ch.scanIn, Input).value
  {}

  /** A netlist that passes the check is threaded for the scan protocol, and its
      chains hold every scan flop. */
  lemma PassingThreaded(lib: Library, m: Module, rank: nat -> nat, chains: seq<ManifestChain>, wrappers: seq<ManifestChain>, sePort: Name)
    returns (d: P.Design)
    requires Passes(m, chains, wrappers, sePort) && E.Acyclic(m, rank)
    requires forall x :: x in Elements(m, false) ==> ScanForm(m.cells[x])
    requires forall c :: 0 <= c < |chains| ==> chains[c].cells != [] && chains[c].scanIn != sePort
    ensures P.Threaded(d) && d.g == m && d.sePort == sePort && d.chains == AsChains(chains)
    ensures forall x :: x in Elements(m, false) ==> exists c: nat, p: nat :: P.InChain(d.chains, x, c, p)
  {
    var se := PortNet(m, sePort, Input).value;
    assert m.ports[sePort] == Port(Input, [Net(se)]);
    d := P.Design(lib, m, rank, AsChains(chains), se, sePort);
    hide AllFormed, FeedsDiffer, EnableShared, ChainHolds, PortNet, ScanForm, E.Acyclic, P.ChainThreaded, P.OnePlace, P.ScanInsDiffer, OneEnable;
    forall c | 0 <= c < |chains| ensures P.ChainThreaded(m, d.chains[c], se, sePort) {
      PassingChain(m, chains[c], sePort);
    }
    PassingPlaces(m, chains);
    PassingInputs(m, chains);
    forall x | x in Elements(m, false) ensures exists c: nat, p: nat :: P.InChain(d.chains, x, c, p) {
      CoveredIs(chains, x);
      var c :| 0 <= c < |chains| && x in chains[c].cells;
      var p :| 0 <= p < |chains[c].cells| && chains[c].cells[p] == x;
      assert P.InChain(d.chains, x, c, p);
    }
  }
}
