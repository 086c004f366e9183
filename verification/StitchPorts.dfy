/** Where the nets that stitching adds for its ports sit: on the scan pins of the planned
    flops and nowhere else (faultflow/scan/stitch.py). */
module StitchPorts {
  import opened Netlist
  import opened ScanView
  import opened ScanPlan
  import opened Stitch
  import opened StitchDesign
  import opened StitchRuns
  import opened StitchChains

  ghost predicate Has(c: Cell, p: Pin, n: nat) { p in c.conns && Net(n) in c.conns[p] }

  lemma BelowHas(c: Cell, k: nat, p: Pin, n: nat)
    requires CellBelow(c, k) && k <= n
    ensures !Has(c, p, n) && OneBit(c, p) != Net(n)
  {
    if p in c.conns {
      assert BitsBelow(c.conns[p], k);
    }
  }

  // The gates of a hold-mux have none of the scan nets.
  lemma GateFree(inst: Name, c: Cell, lo: nat, k: nat, n: nat, x: Name, p: Pin)
    requires CellBelow(c, lo) && lo <= n < k && x in Gates(inst, c, k) && FlopShape(c)
    ensures !Has(Gates(inst, c, k)[x], p, n)
  {
    BelowHas(c, lo, D, n);
    BelowHas(c, lo, EN, n);
    BelowHas(c, lo, Q, n);
    hide CellBelow, OneBit;
  }

  // Of the scan flop's pins only its scan input and enable have them.
  lemma ScanFree(c: Cell, lo: nat, k: nat, feed: Bit, se: nat, n: nat, p: Pin)
    requires CellBelow(c, lo) && lo <= n < k && FlopShape(c)
    requires Has(ScanCell(c, NewD(c, k), feed, se), p, n)
    ensures p == SDI || p == SE
  {
    BelowHas(c, lo, D, n);
    BelowHas(c, lo, CLK, n);
    BelowHas(c, lo, Q, n);
    BelowHas(c, lo, CTRL, n);
    hide CellBelow, OneBit;
  }

  lemma StepFree(s: Stitching, link: Link, se: nat, lo: nat, n: nat, x: Name, p: Pin)
    requires link.ff.inst in s.m.cells && FlopShape(s.m.cells[link.ff.inst]) && CellBelow(s.m.cells[link.ff.inst], lo) && lo <= n < s.next
    requires x in StitchLink(s, link, se).m.cells && Has(StitchLink(s, link, se).m.cells[x], p, n)
    ensures (x == link.ff.inst && (p == SDI || p == SE)) || (x != link.ff.inst && x in s.m.cells && Has(s.m.cells[x], p, n))
  {
    var inst, c := link.ff.inst, s.m.cells[link.ff.inst];
    hide ScanCell, NewD, Gates, CellBelow, Has, FlopShape;
    assert c.kind.Flop? by { ShapeFlop(c); }
    if x == inst {
      ScanFree(c, lo, s.next, Net(link.feed), se, n, p);
    } else if x in Gates(inst, c, s.next) {
      GateFree(inst, c, lo, s.next, n, x, p);
    }
  }

  lemma ShapeFlop(c: Cell)
    requires FlopShape(c)
    ensures c.kind.Flop?
  {}

  lemma {:induction false} LinksFree(m: Module, k: nat, links: seq<Link>, se: nat, lo: nat, n: nat, x: Name, p: Pin)
    requires Below(m, k) && se < k && LinksFit(m, links, k) && lo <= n < k
    requires forall y :: y in m.cells ==> CellBelow(m.cells[y], lo)
    requires x in StitchLinks(Stitching(m, k), links, se).m.cells && Has(StitchLinks(Stitching(m, k), links, se).m.cells[x], p, n)
    ensures Linked(links, x) && (p == SDI || p == SE)
    decreases |links|
  {
    hide Below, LinkFits, SoFar, StitchReady, StitchLink, Linked, CellBelow, Has, FlopShape;
    if links == [] {
      BelowHas(m.cells[x], lo, p, n);
    } else {
      var i := |links| - 1;
      var before, link := StitchLinks(Stitching(m, k), links[..i], se), links[i];
      assert links == links[..i] + [link];
      PrefixFits(m, links, k, i);
      StitchedSoFar(m, k, links[..i], se);
      NotYet(links, i);
      NextReady(m, k, links[..i], before, link, se);
      FitsShape(m, link, k);
      hide StitchLinks, LinksFit;
      LinkedMore(links[..i], link);
      StepFree(before, link, se, lo, n, x, p);
      if x != link.ff.inst {
        LinksFree(m, k, links[..i], se, lo, n, x, p);
      }
    }
  }

  lemma FitsShape(m: Module, link: Link, k: nat)
    requires LinkFits(m, link, k)
    ensures FlopShape(m.cells[link.ff.inst])
  {}

  /** The nets of the scan inputs and of scan enable are on scan pins of planned flops only. */
  lemma ScanNetsFree(j: Job, n: nat, x: Name, p: Pin)
    requires j.Valid() && j.next <= n <= j.Se() && |j.chains| == |j.outs|
    requires x in j.Stitched().cells && p in j.Stitched().cells[x].conns && Net(n) in j.Stitched().cells[x].conns[p]
    ensures Linked(j.Links(), x) && (p == SDI || p == SE)
  {
    InputsReady(j);
    ScannedIs(j);
    assert j.Stitched().cells == j.Scanned().cells && j.WithInputs().cells == j.m.cells;
    assert forall y :: y in j.m.cells ==> CellBelow(j.m.cells[y], j.next);
    assert Has(j.Stitched().cells[x], p, n);
    hide Job.Valid, Job.Stitched, Job.Scanned, Job.WithInputs, Job.Links, StitchLinks, LinksFit, Below, CellBelow, Has, Linked;
    LinksFree(j.WithInputs(), j.Se() + 1, j.Links(), j.Se(), j.next, n, x, p);
  }
}
