/** The stitched netlist's chains, ready for the scan protocol, and the stitching
    method itself (faultflow/scan/stitch.py). */
module StitchChains {
  import opened Netlist
  import opened NetlistEval
  import opened ScanView
  import opened ChainLengths
  import opened ScanPlan
  import opened Stitch
  import opened StitchDesign
  import opened StitchRuns
  import opened StitchThreads
  import ViewBuilder
  import P = ScanProtocol

  /* ---- a link's place in the whole list ---- */

  function Offset(chains: seq<PlannedChain>, c: nat): nat
    requires c <= |chains|
  {
    |AllLinks(chains[..c])|
  }

  lemma {:induction false} LinkAt(chains: seq<PlannedChain>, c: nat, p: nat)
    requires c < |chains| && p < |chains[c].links|
    ensures Offset(chains, c) + p < |AllLinks(chains)| && AllLinks(chains)[Offset(chains, c) + p] == chains[c].links[p]
    ensures Offset(chains, c + 1) == Offset(chains, c) + |chains[c].links|
    decreases |chains|
  {
    var n := |chains| - 1;
    assert chains[..c + 1][..c] == chains[..c];
    if c < n {
      LinkAt(chains[..n], c, p);
      assert chains[..n][..c] == chains[..c];
    } else {
      assert chains[..n] == chains[..c];
    }
  }

  lemma {:induction false} LinkPlace(chains: seq<PlannedChain>, i: nat) returns (c: nat, p: nat)
    requires i < |AllLinks(chains)|
    ensures c < |chains| && p < |chains[c].links| && AllLinks(chains)[i] == chains[c].links[p]
    decreases |chains|
  {
    var n := |chains| - 1;
    var front := AllLinks(chains[..n]);
    if i < |front| {
      c, p := LinkPlace(chains[..n], i);
    } else {
      c, p := n, i - |front|;
    }
  }

  lemma {:induction false} OffsetGrows(chains: seq<PlannedChain>, c: nat, e: nat)
    requires c < e <= |chains|
    ensures Offset(chains, c) + |chains[c].links| <= Offset(chains, e)
    decreases e
  {
    assert chains[..e][..e - 1] == chains[..e - 1];
    if c < e - 1 {
      OffsetGrows(chains, c, e - 1);
    }
  }

  // Links in different places are different entries of the list.
  lemma PlacesDiffer(chains: seq<PlannedChain>, c: nat, p: nat, e: nat, q: nat)
    requires LinksDiffer(AllLinks(chains))
    requires c < |chains| && p < |chains[c].links| && e < |chains| && q < |chains[e].links|
    requires chains[c].links[p].ff.inst == chains[e].links[q].ff.inst
    ensures c == e && p == q
  {
    LinkAt(chains, c, p);
    LinkAt(chains, e, q);
    hide Offset, AllLinks;
    var i, j := Offset(chains, c) + p, Offset(chains, e) + q;
    assert i == j by {
      var links := AllLinks(chains);
      assert links[i].ff.inst == links[j].ff.inst;
    }
    if c < e {
      OffsetGrows(chains, c, e);
    } else if e < c {
      OffsetGrows(chains, e, c);
    }
  }

  /* ---- the chains ---- */

  // Each chain starts at its own scan input and runs through the outputs of its flops.
  ghost predicate ChainRuns(ch: PlannedChain, scanIn: nat)
  {
    && ch.links != []
    && ch.scanOut == ch.links[|ch.links| - 1].ff.q
    && ch.links[0].feed == scanIn
    && (forall p :: 0 < p < |ch.links| ==> ch.links[p].feed == ch.links[p - 1].ff.q)
  }

  ghost predicate ChainsRun(j: Job)
  {
    forall c :: 0 <= c < |j.chains| ==> ChainRuns(j.chains[c], j.next + c)
  }

  // A planned flop's output net belongs to the original.
  lemma LinkOutput(j: Job, c: nat, p: nat)
    requires j.Valid() && c < |j.chains| && p < |j.chains[c].links|
    ensures var link := j.chains[c].links[p];
            && link in j.Links() && link.ff.inst in j.m.cells && FlopShape(j.m.cells[link.ff.inst])
            && QNet(j.m.cells[link.ff.inst]) == link.ff.q < j.next
    ensures Closed(j.m) ==> Driven(j.m, j.chains[c].links[p].ff.q)
  {
    LinkAt(j.chains, c, p);
    hide AllLinks, Offset;
    var link := j.chains[c].links[p];
    assert LinkFits(j.m, link, j.Se() + 1);
    PinsBelow(j.m.cells[link.ff.inst], j.next);
    if Closed(j.m) {
      var cell := j.m.cells[link.ff.inst];
      assert cell.conns[Q][0].Net? && cell.conns[Q][0].id == link.ff.q;
    }
  }

  lemma Sizes(j: Job)
    requires j.Valid()
    ensures |j.chains| == |j.ins| == |j.outs|
  {}

  lemma FeedDriven(j: Job, i: nat)
    requires j.Valid() && ChainsRun(j) && Closed(j.m) && i < |j.Links()|
    ensures Driven(j.WithInputs(), j.Links()[i].feed) && j.Links()[i].ff.q < j.next
  {
    var c, p := LinkPlace(j.chains, i);
    hide AllLinks, Closed, Driven;
    assert ChainRuns(j.chains[c], j.next + c);
    LinkOutput(j, c, p);
    var link := j.Links()[i];
    hide Job.Valid, Job.Links, Job.WithInputs;
    assert link.feed == if p == 0 then j.next + c else j.chains[c].links[p - 1].ff.q;
    if p > 0 {
      LinkOutput(j, c, p - 1);
    }
    InputsDriven(j, link.feed) by { Sizes(j); }
  }

  /** The stitched netlist is acyclic, with one driver for every net. */
  lemma StitchedAcyclic(j: Job, rank: nat -> nat) returns (rank': nat -> nat)
    requires j.Valid() && ChainsRun(j) && Acyclic(j.m, rank)
    ensures Acyclic(j.Stitched(), rank')
  {
    assert j.next <= j.Se();
    hide *;
    Sizes(j);
    Closes(j.m, rank);
    InputsReady(j);
    InputsAcyclic(j, rank);
    InputsDriven(j, j.Se());
    AllRanked(j, rank);
    rank' := ScannedAcyclic(j, rank);
    OutputsAcyclic(j, rank');
  }

  lemma Closes(m: Module, rank: nat -> nat)
    requires Acyclic(m, rank)
    ensures Closed(m)
  {}

  lemma AllRanked(j: Job, rank: nat -> nat)
    requires j.Valid() && ChainsRun(j) && Closed(j.m)
    ensures LinksRanked(j.WithInputs(), j.Links(), j.Se(), Lifted(j.next, rank))
  {
    hide Job.Valid, Job.WithInputs, Closed, Driven, AllLinks;
    var r := Lifted(j.next, rank);
    assert r(j.Se()) == 0;
    forall i | 0 <= i < |j.Links()| ensures Driven(j.WithInputs(), j.Links()[i].feed) && r(j.Se()) < r(j.Links()[i].ff.q) {
      FeedDriven(j, i);
      assert r(j.Links()[i].ff.q) == rank(j.Links()[i].ff.q) + 1;
    }
  }

  lemma ScannedIs(j: Job)
    ensures j.Scanned() == StitchLinks(Stitching(j.WithInputs(), j.Se() + 1), j.Links(), j.Se()).m && j.Links() == AllLinks(j.chains)
    ensures j.Se() == j.next + |j.ins|
  {}

  lemma ScannedAcyclic(j: Job, rank: nat -> nat) returns (rank': nat -> nat)
    requires j.Valid() && ChainsRun(j) && Closed(j.m)
    requires Below(j.WithInputs(), j.Se() + 1) && LinksFit(j.WithInputs(), j.Links(), j.Se() + 1)
    requires Acyclic(j.WithInputs(), Lifted(j.next, rank)) && Driven(j.WithInputs(), j.Se())
    requires LinksRanked(j.WithInputs(), j.Links(), j.Se(), Lifted(j.next, rank))
    ensures Acyclic(j.Scanned(), rank')
    ensures forall c :: 0 <= c < |j.chains| ==> Driven(j.Scanned(), j.chains[c].scanOut)
  {
    hide *;
    ScannedIs(j);
    rank' := LinksAcyclic(j.WithInputs(), j.Se() + 1, j.Links(), j.Se(), Lifted(j.next, rank));
    forall c | 0 <= c < |j.chains| ensures Driven(j.Scanned(), j.chains[c].scanOut) {
      TailDriven(j, c);
    }
  }

  lemma TailDriven(j: Job, c: nat)
    requires j.Valid() && ChainsRun(j) && Closed(j.m) && c < |j.chains|
    ensures Driven(j.WithInputs(), j.chains[c].scanOut)
  {
    hide Job.Valid, Closed, Driven, Job.WithInputs, Job.Links;
    assert ChainRuns(j.chains[c], j.next + c);
    LinkOutput(j, c, |j.chains[c].links| - 1);
    InputsDriven(j, j.chains[c].scanOut);
  }

  lemma OutputsAcyclic(j: Job, rank: nat -> nat)
    requires j.Valid() && Acyclic(j.Scanned(), rank) && forall c :: 0 <= c < |j.chains| ==> Driven(j.Scanned(), j.chains[c].scanOut)
    ensures Acyclic(j.Stitched(), rank)
  {
    StitchedPorts(j);
    hide AllLinks, LinksFit, Below, AddInputs, AddOutputs, StitchLinks, NamesFree, FollowsNet;
    var s, m' := j.Scanned(), j.Stitched();
    SameDrivers(s, m', j.outs);
    hide Drives, Driven;
    forall name, i | name in m'.ports && 0 <= i < |m'.ports[name].bits| && m'.ports[name].bits[i].Net?
      ensures Driven(m', m'.ports[name].bits[i].id)
    {
      if name !in s.ports {
        var c :| 0 <= c < |j.outs| && j.outs[c] == name;
      }
    }
  }

  lemma SameDrivers(s: Module, m: Module, outs: seq<Name>)
    requires m.cells == s.cells && (forall x :: x in s.ports ==> x in m.ports && m.ports[x] == s.ports[x])
    requires forall x :: x in m.ports && x !in s.ports ==> m.ports[x].dir.Output?
    ensures forall t, n: nat :: Drives(m, t, n) <==> Drives(s, t, n)
    ensures forall n: nat :: Driven(m, n) <==> Driven(s, n)
  {
    forall t, n: nat ensures Drives(m, t, n) <==> Drives(s, t, n) {}
  }

  /* ---- what a stitched flop looks like ---- */

  ghost predicate IsStitched(m: Module, m': Module, link: Link, se: nat)
  {
    link.ff.inst in m.cells && link.ff.inst in m'.cells && m.cells[link.ff.inst].kind.Flop?
    && exists k: nat :: m'.cells[link.ff.inst] == ScanCell(m.cells[link.ff.inst], NewD(m.cells[link.ff.inst], k), Net(link.feed), se)
  }

  lemma {:induction false} LinksStitched(m: Module, k: nat, links: seq<Link>, se: nat, i: nat)
    requires Below(m, k) && se < k && LinksFit(m, links, k) && i < |links|
    ensures IsStitched(m, StitchLinks(Stitching(m, k), links, se).m, links[i], se)
  {
    hide Below, SoFar, StitchReady, ScanCell, NewD, Gates, LinkFits;
    var n := |links| - 1;
    var before, link := StitchLinks(Stitching(m, k), links[..n], se), links[n];
    PrefixFits(m, links, k, n);
    StitchedSoFar(m, k, links[..n], se);
    NotYet(links, n);
    NextReady(m, k, links[..n], before, link, se);
    if i < n {
      LinksStitched(m, k, links[..n], se, i);
      assert links[..n][i] == links[i];
      KeptByStep(before, link, se, links[i].ff.inst);
    }
  }

  lemma KeptByStep(s: Stitching, link: Link, se: nat, inst: Name)
    requires StitchReady(s.m, s.next, link.ff.inst, se) && inst in s.m.cells && inst != link.ff.inst
    ensures inst in StitchLink(s, link, se).m.cells && StitchLink(s, link, se).m.cells[inst] == s.m.cells[inst]
  {
    hide Below, ScanCell, NewD, Gates, FlopShape;
  }

  lemma StitchedShape(c: Cell, k: nat, feed: nat, se: nat)
    requires FlopShape(c)
    ensures var x := ScanCell(c, NewD(c, k), Net(feed), se);
            && ScanShape(x, se) && ControlNet(x) && QNet(x) == QNet(c) && SDI in x.conns && x.conns[SDI] == [Net(feed)]
            && CLK in x.conns && |x.conns[CLK]| == 1 && x.conns[CLK][0].Net?
  {}

  function Insts(links: seq<Link>): (r: seq<Name>)
    ensures |r| == |links|
  {
    seq(|links|, p requires 0 <= p < |links| => links[p].ff.inst)
  }

  function ChainOf(j: Job, c: nat): P.Chain
    requires c < |j.chains| && |j.chains| == |j.ins| == |j.outs|
  {
    P.Chain(j.ins[c], j.outs[c], Insts(j.chains[c].links))
  }

  function ScanDesign(lib: Library, j: Job, rank: nat -> nat): (d: P.Design)
    requires |j.chains| == |j.ins| == |j.outs|
    ensures |d.chains| == |j.chains| && forall c :: 0 <= c < |j.chains| ==> d.chains[c] == ChainOf(j, c)
  {
    P.Design(lib, j.Stitched(), rank, seq(|j.chains|, c requires 0 <= c < |j.chains| => ChainOf(j, c)), j.Se(), j.sePort)
  }

  lemma FlopThreaded(j: Job, c: nat, p: nat)
    requires j.Valid() && ChainsRun(j) && c < |j.chains| && p < |j.chains[c].links|
    ensures var link, m' := j.chains[c].links[p], j.Stitched();
            && link.ff.inst in m'.cells && ScanShape(m'.cells[link.ff.inst], j.Se()) && ControlNet(m'.cells[link.ff.inst])
            && QNet(m'.cells[link.ff.inst]) == link.ff.q
            && SDI in m'.cells[link.ff.inst].conns && m'.cells[link.ff.inst].conns[SDI] == [Net(link.feed)]
            && CLK in m'.cells[link.ff.inst].conns && |m'.cells[link.ff.inst].conns[CLK]| == 1
            && m'.cells[link.ff.inst].conns[CLK][0].Net?
  {
    var link := j.chains[c].links[p];
    Sizes(j);
    assert j.Stitched().cells == j.Scanned().cells && j.WithInputs().cells == j.m.cells;
    hide *;
    LinkOutput(j, c, p);
    PlaceStitched(j, c, p);
    var cell := j.m.cells[link.ff.inst];
    var k := StitchedAs(j.WithInputs(), j.Scanned(), link, j.Se());
    StitchedShape(cell, k, link.feed, j.Se());
  }

  lemma PlaceStitched(j: Job, c: nat, p: nat)
    requires j.Valid() && c < |j.chains| && p < |j.chains[c].links|
    ensures IsStitched(j.WithInputs(), j.Scanned(), j.chains[c].links[p], j.Se())
  {
    hide *;
    ScannedIs(j);
    InputsReady(j);
    LinkAt(j.chains, c, p);
    LinksStitched(j.WithInputs(), j.Se() + 1, j.Links(), j.Se(), Offset(j.chains, c) + p);
  }

  lemma StitchedAs(m: Module, m': Module, link: Link, se: nat) returns (k: nat)
    requires IsStitched(m, m', link, se)
    ensures link.ff.inst in m.cells && link.ff.inst in m'.cells && m.cells[link.ff.inst].kind.Flop?
    ensures m'.cells[link.ff.inst] == ScanCell(m.cells[link.ff.inst], NewD(m.cells[link.ff.inst], k), Net(link.feed), se)
  {
    k :| m'.cells[link.ff.inst] == ScanCell(m.cells[link.ff.inst], NewD(m.cells[link.ff.inst], k), Net(link.feed), se);
  }

  lemma ChainIsThreaded(j: Job, c: nat)
    requires j.Valid() && ChainsRun(j) && c < |j.chains|
    ensures P.ChainThreaded(j.Stitched(), ChainOf(j, c), j.Se(), j.sePort)
  {
    Sizes(j);
    assert ChainRuns(j.chains[c], j.next + c);
    var ch, m', chain := ChainOf(j, c), j.Stitched(), j.chains[c];
    hide ScanShape, QNet, Job.Valid, Job.Stitched, ChainsRun, P.Feed;
    ChainPorts(j, c);
    forall p | 0 <= p < |ch.cells|
      ensures ch.cells[p] in m'.cells && ScanShape(m'.cells[ch.cells[p]], j.Se())
      ensures SDI in m'.cells[ch.cells[p]].conns && m'.cells[ch.cells[p]].conns[SDI] == [P.Feed(m', ch, p)]
    {
      FlopThreaded(j, c, p);
      FeedIs(j, c, p);
    }
    FeedIs(j, c, |ch.cells|);
  }

  // What the protocol reads as the feed of a position is what was planned.
  lemma FeedIs(j: Job, c: nat, p: nat)
    requires j.Valid() && ChainsRun(j) && c < |j.chains| && p <= |j.chains[c].links|
    requires |j.chains| == |j.ins| == |j.outs|
    ensures P.Feed(j.Stitched(), ChainOf(j, c), p)
            == Net(if p < |j.chains[c].links| then j.chains[c].links[p].feed else j.chains[c].scanOut)
  {
    assert ChainRuns(j.chains[c], j.next + c);
    var first := j.chains[c].links[0];
    assert first.feed == j.next + c;
    hide ScanShape, QNet, Job.Valid, Job.Stitched, ChainsRun;
    if p == 0 {
      ChainPorts(j, c);
    } else {
      FlopThreaded(j, c, p - 1);
    }
  }

  lemma ChainPorts(j: Job, c: nat)
    requires j.Valid() && c < |j.chains|
    ensures var ports := j.Stitched().ports;
            && j.ins[c] != j.sePort && j.ins[c] in ports && ports[j.ins[c]] == Port(Input, [Net(j.next + c)])
            && j.outs[c] in ports && ports[j.outs[c]] == Port(Output, [Net(j.chains[c].scanOut)])
            && j.sePort in ports && ports[j.sePort] == Port(Input, [Net(j.Se())])
  {
    Sizes(j);
    StitchedPorts(j);
    InputPorts(j);
    ScanInNames(j, c, c);
    hide Job.Valid, Job.Stitched, Job.WithInputs, Job.Scanned;
  }

  lemma ScanInNames(j: Job, c: nat, e: nat)
    requires j.Valid() && c < |j.ins| && e < |j.ins|
    ensures j.ins[c] != j.sePort && (j.ins[c] == j.ins[e] ==> c == e)
  {
    var names := j.ins + j.outs + [j.sePort];
    assert names[c] == j.ins[c] && names[e] == j.ins[e] && names[|names| - 1] == j.sePort;
  }

  /** Stitching yields a netlist whose chains run from scan-in to scan-out through
      every planned flop in order, ready for the scan protocol. */
  lemma StitchedThreaded(lib: Library, j: Job, rank: nat -> nat) returns (d: P.Design)
    requires j.Valid() && ChainsRun(j) && Acyclic(j.m, rank)
    ensures d.lib == lib && d.g == j.Stitched() && d.se == j.Se() && d.sePort == j.sePort
    ensures |d.chains| == |j.chains| && forall c :: 0 <= c < |j.chains| ==> d.chains[c] == ChainOf(j, c)
    ensures P.Threaded(d)
  {
    Sizes(j);
    assert LinksDiffer(j.Links());
    var rank' := StitchedAcyclic(j, rank);
    d := ScanDesign(lib, j, rank');
    hide Job.Valid, Job.Stitched, Job.WithInputs, Job.Scanned, Acyclic, P.ChainThreaded, AllLinks, LinksDiffer, P.OnePlace;
    assert d.sePort in d.g.ports && d.g.ports[d.sePort] == Port(Input, [Net(d.se)]) by { EnablePort(j); }
    forall c | 0 <= c < |d.chains| ensures P.ChainThreaded(d.g, d.chains[c], d.se, d.sePort) {
      ChainIsThreaded(j, c);
    }
    forall c, e | 0 <= c < e < |d.chains| ensures d.chains[c].scanIn != d.chains[e].scanIn {
      ScanInNames(j, c, e);
    }
    OnlyPlace(j, d.chains);
  }

  lemma OnlyPlace(j: Job, chains: seq<P.Chain>)
    requires LinksDiffer(j.Links()) && |j.chains| == |j.ins| == |j.outs|
    requires |chains| == |j.chains| && forall c :: 0 <= c < |chains| ==> chains[c] == ChainOf(j, c)
    ensures P.OnePlace(chains)
  {
    hide AllLinks, LinksDiffer;
    forall inst, c: nat, p: nat, e: nat, q: nat | P.InChain(chains, inst, c, p) && P.InChain(chains, inst, e, q)
      ensures c == e && p == q
    {
      PlacesDiffer(j.chains, c, p, e, q);
    }
  }

  lemma EnablePort(j: Job)
    requires j.Valid()
    ensures j.sePort in j.Stitched().ports && j.Stitched().ports[j.sePort] == Port(Input, [Net(j.Se())])
  {
    Sizes(j);
    StitchedPorts(j);
    InputPorts(j);
    hide Job.Valid, Job.Stitched, Job.WithInputs, Job.Scanned;
  }

  /* ---- the method ---- */

  // Add each chain's scan-in port.
  method AddScanInputs(j: Job) returns (ports: map<Name, Port>)
    ensures ports == AddInputs(j.m.ports, j.ins, j.next)
  {
    ports := j.m.ports;
    for c := 0 to |j.ins|
      invariant ports == AddInputs(j.m.ports, j.ins[..c], j.next)
    {
      assert j.ins[..c + 1][..c] == j.ins[..c];
      ports := ports[j.ins[c] := Port(Input, [Net(j.next + c)])];
    }
    assert j.ins[..|j.ins|] == j.ins;
  }

  method AddScanOutputs(j: Job, before: map<Name, Port>) returns (ports: map<Name, Port>)
    requires |j.chains| == |j.outs|
    ensures ports == AddOutputs(before, j.outs, j.Tails())
  {
    ports := before;
    for c := 0 to |j.outs|
      invariant ports == AddOutputs(before, j.outs[..c], j.Tails()[..c])
    {
      assert j.outs[..c + 1][..c] == j.outs[..c] && j.Tails()[..c + 1][..c] == j.Tails()[..c];
      ports := ports[j.outs[c] := Port(Output, [Net(j.chains[c].scanOut)])];
    }
    assert j.outs[..|j.outs|] == j.outs && j.Tails()[..|j.outs|] == j.Tails();
  }

  // The hold-mux in front of one flop; the net of its output.
  method AddHoldMux(cells: map<Name, Cell>, inst: Name, d: Bit, q: nat, en: nat, level: Enable, k: nat)
    returns (more: map<Name, Cell>, muxed: nat, next: nat)
    ensures more == cells + HoldMux(inst, d, q, en, level, k) && muxed == k + 3 && next == k + 4
  {
    hide InvCell, Gate2;
    next := k;
    var inverted := next;
    next := next + 1;
    var onD := if level.High? then Net(en) else Net(inverted);
    var onQ := if level.High? then Net(inverted) else Net(en);
    var gatedD := next;
    next := next + 1;
    var gatedQ := next;
    next := next + 1;
    muxed := next;
    next := next + 1;
    var inv, andD := InvCell(Net(en), inverted), Gate2(And2, d, onD, gatedD);
    var andQ, or := Gate2(And2, Net(q), onQ, gatedQ), Gate2(Or2, Net(gatedD), Net(gatedQ), muxed);
    AddFour(cells, Made(EnInv, inst), inv, Made(EnD, inst), andD, Made(EnQ, inst), andQ, Made(EnOr, inst), or);
    more := cells[Made(EnInv, inst) := inv];
    more := more[Made(EnD, inst) := andD];
    more := more[Made(EnQ, inst) := andQ];
    more := more[Made(EnOr, inst) := or];
  }

  lemma AddFour(m: map<Name, Cell>, w: Name, cw: Cell, x: Name, cx: Cell, y: Name, cy: Cell, z: Name, cz: Cell)
    requires w != x && w != y && w != z && x != y && x != z && y != z
    ensures m[w := cw][x := cx][y := cy][z := cz] == m + map[w := cw, x := cx, y := cy, z := cz]
  {
  }

  method StitchOne(s: Stitching, link: Link, se: nat) returns (r: Stitching)
    requires link.ff.inst in s.m.cells && FlopShape(s.m.cells[link.ff.inst])
    requires QNet(s.m.cells[link.ff.inst]) == link.ff.q
    ensures r == StitchLink(s, link, se)
  {
    var inst := link.ff.inst;
    var c := s.m.cells[inst];
    hide Gates, NewD, ScanCell, HoldMux, FlopShape;
    var cells, data, next := AddEnable(s, inst, c);
    var scan := MakeScan(c, data, link, se);
    r := Stitching(Module(s.m.ports, cells[inst := scan]), next);
    assert cells[inst := scan] == cells + map[inst := scan];
  }

  // What goes to the scan flop's D: D, the flop's own Q, or a hold-mux of both.
  method AddEnable(s: Stitching, inst: Name, c: Cell) returns (cells: map<Name, Cell>, data: Bit, next: nat)
    requires FlopShape(c)
    ensures cells == s.m.cells + Gates(inst, c, s.next) && data == NewD(c, s.next) && next == s.next + Used(c)
  {
    hide HoldMux;
    cells, next, data := s.m.cells, s.next, OneBit(c, D);
    if !c.kind.en.NoEnable? {
      var en := OneBit(c, EN);
      if en.Net? {
        var muxed;
        cells, muxed, next := AddHoldMux(cells, inst, data, QNet(c), en.id, c.kind.en, next);
        data := Net(muxed);
      } else {
        var active := if c.kind.en.High? then en.value else !en.value;
        data := if active then data else Net(QNet(c));
      }
    }
  }

  method MakeScan(c: Cell, data: Bit, link: Link, se: nat) returns (scan: Cell)
    requires FlopShape(c) && QNet(c) == link.ff.q
    ensures scan == ScanCell(c, data, Net(link.feed), se)
  {
    var conns := map[CLK := [OneBit(c, CLK)], D := [data], SDI := [Net(link.feed)], SE := [Net(se)], Q := [Net(link.ff.q)]];
    if !c.kind.ctl.NoControl? {
      conns := conns[CTRL := [OneBit(c, CTRL)]];
    }
    scan := Cell(Scan(c.kind.ctl), {Q}, conns);
  }

  /** Stitching as it is carried out: scan inputs and scan enable, the flops in
      plan order with a running net counter, then the scan outputs. */
  method StitchScan(j: Job) returns (m: Module)
    requires j.Valid()
    ensures m == j.Stitched()
  {
    Sizes(j);
    var ports := AddScanInputs(j);
    ports := ports[j.sePort := Port(Input, [Net(j.Se())])];
    ghost var before := j.WithInputs();
    assert before == Module(ports, j.m.cells);
    var s := StitchFlops(Module(ports, j.m.cells), j.Se() + 1, j.Links(), j.Se()) by { InputsReady(j); }
    assert s.m == j.Scanned();
    ports := AddScanOutputs(j, s.m.ports);
    m := Module(ports, s.m.cells);
  }

  method StitchFlops(m: Module, k: nat, links: seq<Link>, se: nat) returns (s: Stitching)
    requires Below(m, k) && se < k && LinksFit(m, links, k)
    ensures s == StitchLinks(Stitching(m, k), links, se)
  {
    hide LinkFits, Below, LinksFit, SoFar, StitchReady, StitchLink, LinksDiffer, FlopShape, QNet;
    s := Stitching(m, k);
    for i := 0 to |links|
      invariant s == StitchLinks(Stitching(m, k), links[..i], se)
    {
      StepReady(m, k, links, se, i);
      assert links[..i + 1][..i] == links[..i];
      s := StitchOne(s, links[i], se);
    }
    assert links[..|links|] == links;
  }

  lemma StepReady(m: Module, k: nat, links: seq<Link>, se: nat, i: nat)
    requires Below(m, k) && se < k && LinksFit(m, links, k) && i < |links|
    ensures var cells, inst := StitchLinks(Stitching(m, k), links[..i], se).m.cells, links[i].ff.inst;
            inst in cells && FlopShape(cells[inst]) && QNet(cells[inst]) == links[i].ff.q
  {
    hide StitchLinks, Below, SoFar;
    PrefixFits(m, links, k, i);
    StitchedSoFar(m, k, links[..i], se);
    NotYet(links, i);
    NextReady(m, k, links[..i], StitchLinks(Stitching(m, k), links[..i], se), links[i], se);
  }

  /* ---- from plan to stitched netlist ---- */

  // A flop of the module that stitching accepts.
  ghost predicate FfFits(m: Module, ff: Eligible)
  {
    && ff.inst in m.cells && FlopShape(m.cells[ff.inst]) && OnlyQ(m.cells[ff.inst])
    && QNet(m.cells[ff.inst]) == ff.q && m.cells[ff.inst].conns[CLK] == [Net(ff.clock)]
    && (forall t :: EnTag(t) ==> Made(t, ff.inst) !in m.cells)
  }

  ghost predicate FfsFit(m: Module, ffs: seq<Eligible>)
  {
    && (forall i, j :: 0 <= i < j < |ffs| ==> ffs[i].inst != ffs[j].inst)
    && (forall i :: 0 <= i < |ffs| ==> FfFits(m, ffs[i]))
  }

  // A laid chain, flop by flop.
  lemma LaidChain(ffs: seq<Eligible>, lens: seq<nat>, ch: PlannedChain, next: nat, c: nat)
    requires c < |lens| && LaidAt(ffs, lens, ch, next, c)
    ensures var i := Sum(lens[..c]);
            && i + |ch.links| == Sum(lens[..c + 1]) <= |ffs|
            && (forall p :: 0 <= p < |ch.links| ==> ch.links[p].ff == ffs[i + p])
            && (ch.links != [] ==> ChainRuns(ch, next + c))
  {
    hide Sum, ChainThrough, ChainRuns;
    ThroughRuns(ffs, Sum(lens[..c]), Sum(lens[..c + 1]), c, next + c);
  }

  lemma ThroughRuns(ffs: seq<Eligible>, i: nat, k: nat, c: nat, scanIn: nat)
    requires i <= k <= |ffs|
    ensures var ch := ChainThrough(ffs[i..k], c, scanIn);
            && |ch.links| == k - i && (forall p :: 0 <= p < k - i ==> ch.links[p].ff == ffs[i + p])
            && (k > i ==> ChainRuns(ch, scanIn))
  {
    var part := ffs[i..k];
    assert forall p :: 0 <= p < |part| ==> part[p] == ffs[i + p];
  }

  // The plan's links list the flops in order.
  lemma {:induction false} LinksInOrder(ffs: seq<Eligible>, lens: seq<nat>, chains: seq<PlannedChain>, next: nat)
    requires Laid(ffs, lens, chains, next)
    ensures |AllLinks(chains)| == Sum(lens[..|chains|]) <= |ffs|
    ensures forall i :: 0 <= i < |AllLinks(chains)| ==> AllLinks(chains)[i].ff == ffs[i]
    decreases |chains|
  {
    if chains == [] {
      assert lens[..0] == [];
    } else {
      var n := |chains| - 1;
      hide LaidAt, Sum;
      LinksInOrder(ffs, lens, chains[..n], next);
      LaidChain(ffs, lens, chains[n], next, n);
      var front, last := AllLinks(chains[..n]), chains[n].links;
      assert AllLinks(chains) == front + last;
      hide AllLinks, Laid, ChainRuns;
      var all: seq<Link> := front + last;
      forall x | 0 <= x < |all| ensures all[x].ff == ffs[x] {
        if x >= |front| {
          assert last[x - |front|].ff == ffs[|front| + (x - |front|)];
        }
      }
    }
  }

  lemma PlanRuns(ffs: seq<Eligible>, plan: Plan, next: nat, c: nat)
    requires Sound(ffs, plan, next) && c < |plan.chains|
    ensures ChainRuns(plan.chains[c], next + c)
    ensures forall p :: 0 <= p < |plan.chains[c].links| ==> plan.chains[c].links[p].ff in ffs
  {
    hide ChainRuns, Sum, LaidAt, OneDomain;
    LaidChain(ffs, plan.lens, plan.chains[c], next, c);
  }

  lemma FfBelow(m: Module, ffs: seq<Eligible>, ff: Eligible, next: nat)
    requires FfsFit(m, ffs) && ff in ffs && Below(m, next)
    ensures FfFits(m, ff) && ff.q < next
  {
    PinsBelow(m.cells[ff.inst], next);
  }

  lemma PlanLink(m: Module, ffs: seq<Eligible>, plan: Plan, next: nat, c: nat, p: nat)
    requires Sound(ffs, plan, next) && FfsFit(m, ffs) && Below(m, next)
    requires c < |plan.chains| && p < |plan.chains[c].links|
    ensures LinkFits(m, plan.chains[c].links[p], next + |plan.chains| + 1)
    ensures plan.chains[c].scanOut < next
  {
    var links := plan.chains[c].links;
    hide Sound, FfsFit, Below, FlopShape, OnlyQ;
    PlanRuns(ffs, plan, next, c);
    FfBelow(m, ffs, links[p].ff, next);
    FfBelow(m, ffs, links[|links| - 1].ff, next);
    if p > 0 {
      FfBelow(m, ffs, links[p - 1].ff, next);
    }
  }

  lemma PlanFits(m: Module, ffs: seq<Eligible>, plan: Plan, next: nat)
    requires Sound(ffs, plan, next) && FfsFit(m, ffs) && Below(m, next)
    ensures LinksFit(m, AllLinks(plan.chains), next + |plan.chains| + 1)
    ensures forall c :: 0 <= c < |plan.chains| ==> plan.chains[c].scanOut < next
  {
    var links := AllLinks(plan.chains);
    LinksInOrder(ffs, plan.lens, plan.chains, next);
    assert LinksDiffer(links);
    hide AllLinks, Sum, Laid, FfsFit, Below, LinkFits, LinksDiffer, OneDomain;
    forall c | 0 <= c < |plan.chains| ensures plan.chains[c].scanOut < next {
      PlanLink(m, ffs, plan, next, c, 0);
    }
    forall i | 0 <= i < |links| ensures LinkFits(m, links[i], next + |plan.chains| + 1) {
      var c, p := LinkPlace(plan.chains, i);
      PlanLink(m, ffs, plan, next, c, p);
    }
  }

  lemma JobPlanned(ffs: seq<Eligible>, plan: Plan, j: Job)
    requires Sound(ffs, plan, j.next) && FfsFit(j.m, ffs) && Below(j.m, j.next)
    requires j.chains == plan.chains && |plan.chains| == |j.ins| == |j.outs|
    requires NamesFree(j.m.ports.Keys, j.ins + j.outs + [j.sePort])
    ensures j.Valid() && ChainsRun(j)
  {
    hide *;
    PlanFits(j.m, ffs, plan, j.next);
    forall c | 0 <= c < |j.chains| ensures ChainRuns(j.chains[c], j.next + c) {
      PlanRuns(ffs, plan, j.next, c);
    }
    JobFits(j);
  }

  lemma JobFits(j: Job)
    requires Below(j.m, j.next) && |j.chains| == |j.ins| == |j.outs| && NamesFree(j.m.ports.Keys, j.ins + j.outs + [j.sePort])
    requires LinksFit(j.m, AllLinks(j.chains), j.next + |j.chains| + 1)
    requires forall c :: 0 <= c < |j.chains| ==> j.chains[c].scanOut < j.next && ChainRuns(j.chains[c], j.next + c)
    ensures j.Valid() && ChainsRun(j)
  {
    hide LinksFit, Below, NamesFree, AllLinks, ChainRuns;
  }

  /** Plan and stitch: either a reason to refuse, or a netlist whose chains are the
      plan's, with the original untouched while scan enable is low. */
  method StitchModule(m: Module, ffs: seq<Eligible>, asked: int, limit: Option<int>,
                      scanIn: Name, scanOut: Name, scanEnable: Name) returns (plan: Plan, ghost j: Job, r: Module)
    requires FfsFit(m, ffs) && ByClock(ffs)
    ensures plan.Planned? ==> j.Valid() && ChainsRun(j) && j.m == m && j.chains == plan.chains && r == j.Stitched()
    ensures plan.Planned? ==> Sound(ffs, plan, j.next) && j.sePort == scanEnable
    ensures plan.Planned? ==> NamedFrom(scanIn, j.ins) && NamedFrom(scanOut, j.outs) && |j.ins| == |j.outs| == |plan.chains|
    ensures plan.Refused? ==> r == m
    ensures asked == 1 && limit.Some? && limit.value >= 1 && ffs != [] ==> plan.Planned? || plan == Refused(NamesTaken)
  {
    hide LinksFit, Below, NamesFree, AllLinks, ChainRuns, PortNames, FfsFit, ByClock, Laid, Sum, OneDomain, CanKeep, Wanted, Domains;
    var next := ViewBuilder.NextNetId(m);
    r := m;
    ghost var nets: seq<nat>, sizes: seq<nat>;
    plan, nets, sizes := BuildPlan(ffs, asked, limit, m.ports.Keys, scanIn, scanOut, scanEnable, next);
    if plan.Planned? {
      var job := Job(m, plan.chains, PortNames(scanIn, |plan.chains|), PortNames(scanOut, |plan.chains|), scanEnable, next);
      j := job;
      JobPlanned(ffs, plan, job);
      PortsNamed(scanIn, |plan.chains|);
      PortsNamed(scanOut, |plan.chains|);
      hide Job.Stitched, Job.Links, Job.Valid, ChainsRun, Sound;
      r := StitchScan(job);
    } else {
      j := Job(m, [], [], [], scanEnable, next);
    }
  }
}
