/** Clocks of the stitched netlist (faultflow/scan/stitch.py), and whole runs with the
    edges read off each netlist's own clock nets, as the sequential simulator does
    (src/core/sim/golden_ref/golden_ref_sim.cpp). */
module StitchClocks {
  import opened Netlist
  import opened NetlistEval
  import opened ScanView
  import opened ScanPlan
  import opened Stitch
  import opened StitchDesign
  import opened StitchRuns
  import opened StitchThreads
  import opened StitchChains

  /* ---- the pins that stay ---- */

  // A cell of the original is as it was, or is the planned scan flop.
  ghost predicate Kept(c: Cell, c': Cell, se: nat)
  {
    c' == c || (FlopShape(c) && OnlyQ(c) && exists d, feed :: c' == ScanCell(c, d, feed, se))
  }

  lemma CellKept(j: Job, inst: Name)
    requires j.Valid() && inst in j.m.cells
    ensures inst in j.Stitched().cells && Kept(j.m.cells[inst], j.Stitched().cells[inst], j.Se())
  {
    hide *;
    ScannedIs(j);
    InputsReady(j);
    StitchedSoFar(j.WithInputs(), j.Se() + 1, j.Links(), j.Se());
    CellsSame(j);
    OneKept(j.WithInputs(), j.Se() + 1, j.Links(), j.Se(), inst);
  }

  lemma CellsSame(j: Job)
    requires j.Valid()
    ensures j.Stitched().cells == j.Scanned().cells && j.WithInputs().cells == j.m.cells
  {}

  lemma OneKept(m: Module, k: nat, links: seq<Link>, se: nat, inst: Name)
    requires Below(m, k) && se < k && LinksFit(m, links, k) && inst in m.cells
    requires SoFar(m, k, links, StitchLinks(Stitching(m, k), links, se))
    ensures var m' := StitchLinks(Stitching(m, k), links, se).m; inst in m'.cells && Kept(m.cells[inst], m'.cells[inst], se)
  {
    hide Below, StitchLinks, ScanCell, NewD, FlopShape, OnlyQ;
    if Linked(links, inst) {
      var i :| 0 <= i < |links| && links[i].ff.inst == inst;
      assert LinkFits(m, links[i], k);
      LinksStitched(m, k, links, se, i);
      var k' := StitchedAs(m, StitchLinks(Stitching(m, k), links, se).m, links[i], se);
    }
  }

  /** Every flop of the original is clocked by the same net after stitching. */
  lemma ClocksKept(j: Job, inst: Name)
    requires j.Valid() && inst in j.m.cells && CLK in j.m.cells[inst].conns
    ensures inst in j.Stitched().cells && CLK in j.Stitched().cells[inst].conns
    ensures j.Stitched().cells[inst].conns[CLK] == j.m.cells[inst].conns[CLK]
  {
    Sizes(j);
    hide Job.Valid, Job.Stitched, Kept;
    CellKept(j, inst);
    if j.Stitched().cells[inst] != j.m.cells[inst] {
      KeptPins(j.m.cells[inst], j.Stitched().cells[inst], j.Se());
    }
  }

  lemma KeptPins(c: Cell, c': Cell, se: nat)
    requires Kept(c, c', se) && c' != c
    ensures FlopShape(c) && OnlyQ(c) && c'.kind == Scan(c.kind.ctl) && c'.outs == {Q}
    ensures CLK in c'.conns && c'.conns[CLK] == c.conns[CLK] && SE in c'.conns && c'.conns[SE] == [Net(se)]
    ensures !c.kind.ctl.NoControl? ==> CTRL in c'.conns && c'.conns[CTRL] == c.conns[CTRL]
  {}

  /** The clock net planned for a flop is the one it is on in the stitched netlist. */
  lemma PlannedClock(j: Job, c: nat, p: nat)
    requires j.Valid() && c < |j.chains| && p < |j.chains[c].links|
    ensures var ff := j.chains[c].links[p].ff;
            && ff.inst in j.Stitched().cells && CLK in j.Stitched().cells[ff.inst].conns
            && j.Stitched().cells[ff.inst].conns[CLK] == [Net(ff.clock)]
  {
    hide Job.Stitched;
    var link := j.chains[c].links[p];
    LinkAt(j.chains, c, p);
    assert LinkFits(j.m, link, j.Se() + 1);
    ClocksKept(j, link.ff.inst);
  }

  /** All flops of a planned chain are on one clock net of the stitched netlist. */
  lemma OneClockEach(j: Job, c: nat, p: nat, q: nat)
    requires j.Valid() && c < |j.chains| && OneDomain(j.chains[c]) && p < |j.chains[c].links| && q < |j.chains[c].links|
    ensures var cells, links := j.Stitched().cells, j.chains[c].links;
            && links[p].ff.inst in cells && links[q].ff.inst in cells
            && CLK in cells[links[p].ff.inst].conns && CLK in cells[links[q].ff.inst].conns
            && cells[links[p].ff.inst].conns[CLK] == cells[links[q].ff.inst].conns[CLK]
  {
    PlannedClock(j, c, p);
    PlannedClock(j, c, q);
    hide Job.Valid, Job.Stitched;
    if p < q {
      assert j.chains[c].links[p].ff.clock == j.chains[c].links[q].ff.clock;
    } else if q < p {
      assert j.chains[c].links[q].ff.clock == j.chains[c].links[p].ff.clock;
    }
  }

  /* ---- runs ---- */

  predicate Flopped(c: Cell) { c.kind.Flop? || c.kind.Scan? }

  // Without an edge a flop keeps its state, but for an asynchronous control, which a
  // scan flop heeds only with scan enable off.
  function HeldVal(c: Cell, s: bool, v: Valuation): bool
  {
    match c.kind
    case Flop(ctl, _) => Override(ctl, PinVal(v, c, CTRL), s)
    case Scan(ctl) => if PinVal(v, c, SE) then s else Override(ctl, PinVal(v, c, CTRL), s)
    case _ => s
  }

  // The clock pin rose between two valuations.
  predicate Rises(c: Cell, before: Valuation, v: Valuation) { Flopped(c) && !PinVal(before, c, CLK) && PinVal(v, c, CLK) }

  ghost function Edge(m: Module, st: State, before: Valuation, v: Valuation): State
  {
    (inst: Name) =>
      if inst !in m.cells then st(inst)
      else if Rises(m.cells[inst], before, v) then NextVal(m.cells[inst], st(inst), v) else HeldVal(m.cells[inst], st(inst), v)
  }

  /** What an edge does, pin by pin. A scan flop whose clock rises takes its scan input
      with scan enable on, and else D, unless a control holds it; a flop whose clock does
      not rise keeps its state, unless a control holds it and scan enable is off. */
  lemma ScanEdge(m: Module, st: State, before: Valuation, v: Valuation, x: Name)
    requires x in m.cells && m.cells[x].kind.Scan?
    ensures var c := m.cells[x];
            var rises := !PinVal(before, c, CLK) && PinVal(v, c, CLK);
            Edge(m, st, before, v)(x) ==
              if PinVal(v, c, SE) then (if rises then PinVal(v, c, SDI) else st(x))
              else if c.kind.ctl.Reset? && !PinVal(v, c, CTRL) then false
              else if c.kind.ctl.Set? && !PinVal(v, c, CTRL) then true
              else if rises then PinVal(v, c, D) else st(x)
  {
    var after := Edge(m, st, before, v);
    assert after(x) == if Rises(m.cells[x], before, v) then NextVal(m.cells[x], st(x), v) else HeldVal(m.cells[x], st(x), v);
  }

  /** A library flop likewise, holding its state at an edge while its enable is off. */
  lemma FlopEdge(m: Module, st: State, before: Valuation, v: Valuation, x: Name)
    requires x in m.cells && m.cells[x].kind.Flop?
    ensures var c := m.cells[x];
            var rises := !PinVal(before, c, CLK) && PinVal(v, c, CLK);
            var loads := c.kind.en.NoEnable? || (c.kind.en.High? && PinVal(v, c, EN)) || (c.kind.en.Low? && !PinVal(v, c, EN));
            Edge(m, st, before, v)(x) ==
              if c.kind.ctl.Reset? && !PinVal(v, c, CTRL) then false
              else if c.kind.ctl.Set? && !PinVal(v, c, CTRL) then true
              else if rises && loads then PinVal(v, c, D) else st(x)
  {
    var after := Edge(m, st, before, v);
    assert after(x) == if Rises(m.cells[x], before, v) then NextVal(m.cells[x], st(x), v) else HeldVal(m.cells[x], st(x), v);
  }

  // One simulated cycle: the inputs, and whether the fault acts in it.
  datatype Cycle = Cycle(env: Inputs, active: bool)

  function FaultIn(c: Cycle, f: Fault): Fault { if c.active then f else NoFault }

  // The state after the cycles, and the values the next one's edges are seen against:
  // all 0 at the start.
  ghost function After(lib: Library, m: Module, rank: nat -> nat, f: Fault, cycles: seq<Cycle>, st0: State): State
    decreases |cycles|, 0
  {
    if cycles == [] then st0
    else
      var n := |cycles| - 1;
      var st := After(lib, m, rank, f, cycles[..n], st0);
      Edge(m, st, Last(lib, m, rank, f, cycles[..n], st0), Evaluated(lib, m, FaultIn(cycles[n], f), cycles[n].env, st, rank))
  }

  ghost function Last(lib: Library, m: Module, rank: nat -> nat, f: Fault, cycles: seq<Cycle>, st0: State): Valuation
    decreases |cycles|, 1
  {
    if cycles == [] then (n: nat) => false
    else
      var c := cycles[|cycles| - 1];
      Evaluated(lib, m, FaultIn(c, f), c.env, After(lib, m, rank, f, cycles, st0), rank)
  }

  // Scan enable stays low.
  ghost predicate Functional(cycles: seq<Cycle>, sePort: Name)
  {
    forall i :: 0 <= i < |cycles| ==> !cycles[i].env(sePort, 0)
  }

  // Two valuations that a cell of the original and its stitched form see alike.
  ghost predicate SeenAlike(c: Cell, c': Cell, v: Valuation, v': Valuation)
  {
    && (Flopped(c) <==> Flopped(c')) && (Flopped(c) ==> PinVal(v', c', CLK) == PinVal(v, c, CLK))
    && (forall s: bool :: HeldVal(c', s, v') == HeldVal(c, s, v))
  }

  lemma KeptSeen(c: Cell, c': Cell, se: nat, v: Valuation, v': Valuation)
    requires Kept(c, c', se) && (forall p :: PinVal(v', c, p) == PinVal(v, c, p)) && !v'(se)
    ensures SeenAlike(c, c', v, v')
  {
    if c' != c {
      KeptPins(c, c', se);
      hide Kept;
      assert PinVal(v', c', CLK) == PinVal(v', c, CLK) && !PinVal(v', c', SE);
      assert !c.kind.ctl.NoControl? ==> PinVal(v', c', CTRL) == PinVal(v', c, CTRL);
    }
  }

  lemma PinsAgree(lib: Library, m: Module, rank: nat -> nat, f: Fault, env: Inputs, st: State, v: Valuation, w: Valuation, inst: Name)
    requires Acyclic(m, rank) && Settled(lib, m, f, env, st, v) && Settled(lib, m, f, env, st, w) && inst in m.cells
    ensures forall p :: PinVal(v, m.cells[inst], p) == PinVal(w, m.cells[inst], p)
  {
    var c := m.cells[inst];
    hide Settled;
    forall p | p in c.conns && |c.conns[p]| > 0 ensures BitVal(v, c.conns[p][0]) == BitVal(w, c.conns[p][0]) {
      if c.conns[p][0].Net? {
        SettledUnique(lib, m, f, env, st, rank, v, w, c.conns[p][0].id);
      }
    }
  }

  // In one functional cycle the clocks and the controls are seen alike too.
  lemma CycleSeen(lib: Library, j: Job, rank: nat -> nat, rank': nat -> nat, f: Fault, env: Inputs, st: State, st': State, inst: Name)
    requires j.Valid() && Acyclic(j.m, rank) && Acyclic(j.Stitched(), rank')
    requires FaultBelow(f, j.next) && HoldsFree(j.m, f) && !env(j.sePort, 0) && SameState(j.m, st, st') && inst in j.m.cells
    ensures var v, v' := Evaluated(lib, j.m, f, env, st, rank), Evaluated(lib, j.Stitched(), f, env, st', rank');
            inst in j.Stitched().cells && SeenAlike(j.m.cells[inst], j.Stitched().cells[inst], v, v')
  {
    var m' := j.Stitched();
    hide Acyclic, Settled, HoldsFree, Evaluated, Job.Valid, Job.Stitched, SeenAlike, Kept;
    var v, v' := Evaluated(lib, j.m, f, env, st, rank), Evaluated(lib, m', f, env, st', rank');
    EvaluatedSettles(lib, j.m, f, env, st, rank) by { AcyclicParts(j.m, rank); }
    EvaluatedSettles(lib, m', f, env, st', rank') by { AcyclicParts(m', rank'); }
    StitchedBack(lib, j, f, env, st', v');
    StatesSettle(lib, j.m, f, env, st, st', v');
    PinsAgree(lib, j.m, rank, f, env, st, v, v', inst);
    SeLow(lib, j, f, env, st', v');
    CellKept(j, inst);
    KeptSeen(j.m.cells[inst], m'.cells[inst], j.Se(), v, v');
  }

  lemma AcyclicParts(m: Module, rank: nat -> nat)
    requires Acyclic(m, rank)
    ensures SingleDriver(m) && Ranked(m, rank)
  {}

  // The edge of one cycle, seen against the cycle before.
  lemma EdgeAgrees(lib: Library, j: Job, rank: nat -> nat, rank': nat -> nat, f: Fault, env: Inputs, st: State, st': State, before: Valuation, before': Valuation)
    requires j.Valid() && Acyclic(j.m, rank) && Acyclic(j.Stitched(), rank')
    requires FaultBelow(f, j.next) && HoldsFree(j.m, f) && !env(j.sePort, 0) && SameState(j.m, st, st')
    requires forall inst :: inst in j.m.cells ==> inst in j.Stitched().cells && ClockSeen(j.m.cells[inst], j.Stitched().cells[inst], before, before')
    ensures SameState(j.m, Edge(j.m, st, before, Evaluated(lib, j.m, f, env, st, rank)),
                           Edge(j.Stitched(), st', before', Evaluated(lib, j.Stitched(), f, env, st', rank')))
  {
    var m' := j.Stitched();
    hide Acyclic, HoldsFree, Evaluated, Job.Valid, Job.Stitched, FaultBelow, NextVal, HeldVal;
    var v, v' := Evaluated(lib, j.m, f, env, st, rank), Evaluated(lib, m', f, env, st', rank');
    CycleAgrees(lib, j, rank, rank', f, env, st, st');
    forall inst | inst in j.m.cells ensures Edge(j.m, st, before, v)(inst) == Edge(m', st', before', v')(inst) {
      CycleSeen(lib, j, rank, rank', f, env, st, st', inst);
      assert ClockSeen(j.m.cells[inst], m'.cells[inst], before, before');
    }
  }

  ghost predicate ClockSeen(c: Cell, c': Cell, v: Valuation, v': Valuation)
  {
    (Flopped(c) <==> Flopped(c')) && (Flopped(c) ==> PinVal(v', c', CLK) == PinVal(v, c, CLK))
  }

  lemma StartSeen(j: Job, inst: Name)
    requires j.Valid() && inst in j.m.cells
    ensures inst in j.Stitched().cells && ClockSeen(j.m.cells[inst], j.Stitched().cells[inst], (n: nat) => false, (n: nat) => false)
  {
    Sizes(j);
    var zero: Valuation := (n: nat) => false;
    hide Job.Valid, Job.Stitched, Kept;
    CellKept(j, inst);
    var c, c' := j.m.cells[inst], j.Stitched().cells[inst];
    KeptSeen(c, c', j.Se(), zero, zero);
  }

  lemma LastSeen(lib: Library, j: Job, rank: nat -> nat, rank': nat -> nat, f: Fault, cycles: seq<Cycle>, st0: State)
    requires j.Valid() && Acyclic(j.m, rank) && Acyclic(j.Stitched(), rank')
    requires FaultBelow(f, j.next) && HoldsFree(j.m, f) && Functional(cycles, j.sePort)
    requires SameState(j.m, After(lib, j.m, rank, f, cycles, st0), After(lib, j.Stitched(), rank', f, cycles, st0))
    ensures forall inst :: inst in j.m.cells ==>
              inst in j.Stitched().cells
              && ClockSeen(j.m.cells[inst], j.Stitched().cells[inst], Last(lib, j.m, rank, f, cycles, st0), Last(lib, j.Stitched(), rank', f, cycles, st0))
  {
    Sizes(j);
    hide Acyclic, HoldsFree, Evaluated, Job.Valid, Job.Stitched, FaultBelow, After, HeldVal;
    forall inst | inst in j.m.cells
      ensures inst in j.Stitched().cells
      ensures ClockSeen(j.m.cells[inst], j.Stitched().cells[inst], Last(lib, j.m, rank, f, cycles, st0), Last(lib, j.Stitched(), rank', f, cycles, st0))
    {
      if cycles == [] {
        StartSeen(j, inst);
      } else {
        var c := cycles[|cycles| - 1];
        FaultActs(j, c, f);
        CycleSeen(lib, j, rank, rank', FaultIn(c, f), c.env, After(lib, j.m, rank, f, cycles, st0), After(lib, j.Stitched(), rank', f, cycles, st0), inst);
      }
    }
  }

  lemma FaultActs(j: Job, c: Cycle, f: Fault)
    requires FaultBelow(f, j.next) && HoldsFree(j.m, f)
    ensures FaultBelow(FaultIn(c, f), j.next) && HoldsFree(j.m, FaultIn(c, f))
  {}

  /** Over every input sequence with scan enable low, the fault acting in whichever
      cycles, with each flop ticking at the rising edges of its own clock pin: the
      stitched netlist goes through the original's states, and after every cycle
      shows the same on every original port. */
  lemma {:induction false} RunsAgree(lib: Library, j: Job, rank: nat -> nat, rank': nat -> nat, f: Fault, cycles: seq<Cycle>, st0: State)
    requires j.Valid() && Acyclic(j.m, rank) && Acyclic(j.Stitched(), rank')
    requires FaultBelow(f, j.next) && HoldsFree(j.m, f) && Functional(cycles, j.sePort)
    ensures SameState(j.m, After(lib, j.m, rank, f, cycles, st0), After(lib, j.Stitched(), rank', f, cycles, st0))
    ensures cycles != [] ==> forall name :: name in j.m.ports ==>
              BitsVal(Last(lib, j.Stitched(), rank', f, cycles, st0), j.m.ports[name].bits) == BitsVal(Last(lib, j.m, rank, f, cycles, st0), j.m.ports[name].bits)
    decreases |cycles|
  {
    Sizes(j);
    hide Acyclic, HoldsFree, Evaluated, Job.Valid, Job.Stitched, FaultBelow, Edge, ClockSeen, BitsVal;
    if cycles != [] {
      var n, m' := |cycles| - 1, j.Stitched();
      var c := cycles[n];
      RunsAgree(lib, j, rank, rank', f, cycles[..n], st0);
      LastSeen(lib, j, rank, rank', f, cycles[..n], st0);
      FaultActs(j, c, f);
      EdgeAgrees(lib, j, rank, rank', FaultIn(c, f), c.env, After(lib, j.m, rank, f, cycles[..n], st0), After(lib, m', rank', f, cycles[..n], st0),
                 Last(lib, j.m, rank, f, cycles[..n], st0), Last(lib, m', rank', f, cycles[..n], st0));
      CycleAgrees(lib, j, rank, rank', FaultIn(c, f), c.env, After(lib, j.m, rank, f, cycles, st0), After(lib, m', rank', f, cycles, st0));
    }
  }
}
