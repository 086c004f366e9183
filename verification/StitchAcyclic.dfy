/** Stitching keeps a netlist acyclic, with one driver per net and no net left
    undriven (faultflow/scan/stitch.py). */
module StitchAcyclic {
  import opened Netlist
  import opened NetlistEval
  import opened ScanView
  import opened Stitch

  // The rank of the hold-mux's nets, above everything they read.
  ghost function MuxRank(c: Cell, k: nat, rank: nat -> nat): nat -> nat
  {
    if !Muxed(c) then rank
    else
      var d := if OneBit(c, D).Net? then rank(OneBit(c, D).id) else 0;
      var top := d + rank(QNet(c)) + rank(OneBit(c, EN).id);
      (n: nat) => if n < k then rank(n) else if n == k then top + 1 else if n == k + 3 then top + 3 else top + 2
  }

  // The gate that drives a net of the mux.
  function GateOf(inst: Name, k: nat, n: nat): Name
  {
    if n == k then Made(EnInv, inst) else if n == k + 1 then Made(EnD, inst) else if n == k + 2 then Made(EnQ, inst) else Made(EnOr, inst)
  }

  // A gate of the mux drives one net only, at its pin Y.
  lemma GateDrives(inst: Name, c: Cell, k: nat, x: Name, p: Pin, i: nat, n: nat)
    requires FlopShape(c) && x in Gates(inst, c, k)
    requires var g := Gates(inst, c, k)[x]; p in g.conns && p in g.outs && i < |g.conns[p]| && g.conns[p][i] == Net(n)
    ensures Muxed(c) && k <= n < k + 4 && x == GateOf(inst, k, n) && p == Y && i == 0
  {
    hide HoldMux;
    MuxCells(inst, OneBit(c, D), QNet(c), OneBit(c, EN).id, c.kind.en, k);
  }

  lemma MuxDriven(inst: Name, c: Cell, k: nat, n: nat)
    requires FlopShape(c) && Muxed(c) && k <= n < k + 4
    ensures var x := GateOf(inst, k, n);
            x in Gates(inst, c, k) && var g := Gates(inst, c, k)[x]; Y in g.conns && Y in g.outs && g.conns[Y] == [Net(n)]
  {
    hide HoldMux;
    MuxCells(inst, OneBit(c, D), QNet(c), OneBit(c, EN).id, c.kind.en, k);
  }

  // Which nets a gate of the mux touches.
  lemma GateReads(inst: Name, c: Cell, k: nat, x: Name, p: Pin, n: nat)
    requires FlopShape(c) && x in Gates(inst, c, k)
    requires p in Gates(inst, c, k)[x].conns && Net(n) in Gates(inst, c, k)[x].conns[p]
    ensures Muxed(c)
    ensures Net(n) == OneBit(c, D) || n == QNet(c) || n == OneBit(c, EN).id || k <= n < k + 4
  {
    hide HoldMux;
    MuxCells(inst, OneBit(c, D), QNet(c), OneBit(c, EN).id, c.kind.en, k);
  }

  lemma GateRanked(inst: Name, c: Cell, k: nat, rank: nat -> nat, x: Name, p: Pin, i: nat, n: nat)
    requires FlopShape(c) && CellBelow(c, k) && x in Gates(inst, c, k)
    requires var g := Gates(inst, c, k)[x];
             p in g.conns && p in g.outs && i < |g.conns[p]| && g.conns[p][i].Net? && FollowsNet(g, n)
    ensures MuxRank(c, k, rank)(n) < MuxRank(c, k, rank)(Gates(inst, c, k)[x].conns[p][i].id)
  {
    hide HoldMux;
    PinsBelow(c, k);
    MuxCells(inst, OneBit(c, D), QNet(c), OneBit(c, EN).id, c.kind.en, k);
  }

  // Sites of the stitched module that drive an old net drove it before.
  lemma OldDriver(m: Module, k: nat, inst: Name, feed: Bit, se: nat, s: Site, n: nat)
    requires Stitchable(m, k, inst) && Drives(StitchFlop(m, k, inst, feed, se), s, n) && n < k
    ensures Drives(m, s, n)
  {
    var c, g := m.cells[inst], Gates(inst, m.cells[inst], k);
    if s.CellPin? && s.inst == inst {
      assert s.p == Q && s.i == 0 && n == QNet(c);
      assert c.conns[Q][0] == Net(QNet(c));
    } else if s.CellPin? && s.inst in g {
      GateDrives(inst, c, k, s.inst, s.p, s.i, n);
    }
  }

  lemma NewDriver(m: Module, k: nat, inst: Name, feed: Bit, se: nat, s: Site, n: nat)
    requires StitchReady(m, k, inst, se) && Drives(StitchFlop(m, k, inst, feed, se), s, n) && n >= k
    ensures s == CellPin(GateOf(inst, k, n), Y, 0)
  {
    hide FlopShape, Gates;
    var c, g := m.cells[inst], Gates(inst, m.cells[inst], k);
    PinsBelow(c, k);
    if s.CellPin? && s.inst in g {
      GateDrives(inst, c, k, s.inst, s.p, s.i, n);
    }
  }

  // Nothing loses its driver.
  lemma StaysDriven(m: Module, k: nat, inst: Name, feed: Bit, se: nat, n: nat)
    requires StitchReady(m, k, inst, se) && Driven(m, n)
    ensures Driven(StitchFlop(m, k, inst, feed, se), n)
  {
    var m' := StitchFlop(m, k, inst, feed, se);
    var s :| Drives(m, s, n);
    hide Gates;
    if s.CellPin? && s.inst == inst {
      assert s.p == Q && s.i == 0;
      assert m'.cells[inst].conns[Q] == [Net(n)];
    }
    assert Drives(m', s, n);
  }

  lemma StaysSingle(m: Module, k: nat, inst: Name, feed: Bit, se: nat)
    requires StitchReady(m, k, inst, se) && SingleDriver(m)
    ensures SingleDriver(StitchFlop(m, k, inst, feed, se))
  {
    var m' := StitchFlop(m, k, inst, feed, se);
    hide StitchReady, StitchFlop, Drives;
    forall s, t, n: nat | Drives(m', s, n) && Drives(m', t, n) ensures s == t {
      if n < k {
        OldDriver(m, k, inst, feed, se, s, n);
        OldDriver(m, k, inst, feed, se, t, n);
      } else {
        NewDriver(m, k, inst, feed, se, s, n);
        NewDriver(m, k, inst, feed, se, t, n);
      }
    }
  }

  lemma MuxNetDriven(m: Module, k: nat, inst: Name, feed: Bit, se: nat, n: nat)
    requires StitchReady(m, k, inst, se) && Muxed(m.cells[inst]) && k <= n < k + 4
    ensures Driven(StitchFlop(m, k, inst, feed, se), n)
  {
    hide Gates, ScanCell, NewD;
    var c := m.cells[inst];
    MuxDriven(inst, c, k, n);
    var m' := StitchFlop(m, k, inst, feed, se);
    var x := GateOf(inst, k, n);
    assert m'.cells[x] == Gates(inst, c, k)[x];
    assert m'.cells[x].conns[Y][0] == Net(n);
    assert Drives(m', CellPin(x, Y, 0), n);
  }

  // The nets at a flop's pins are driven.
  lemma PinsDriven(m: Module, inst: Name)
    requires Closed(m) && inst in m.cells && FlopShape(m.cells[inst])
    ensures var c := m.cells[inst];
            && Driven(m, QNet(c)) && (OneBit(c, D).Net? ==> Driven(m, OneBit(c, D).id)) && Driven(m, OneBit(c, CLK).id)
            && (!c.kind.en.NoEnable? && OneBit(c, EN).Net? ==> Driven(m, OneBit(c, EN).id))
            && (!c.kind.ctl.NoControl? ==> Driven(m, OneBit(c, CTRL).id))
  {
    var c := m.cells[inst];
    assert c.conns[Q][0].Net? && c.conns[CLK][0].Net?;
    assert c.conns[D][0].Net? ==> Driven(m, c.conns[D][0].id);
    assert !c.kind.en.NoEnable? && c.conns[EN][0].Net? ==> Driven(m, c.conns[EN][0].id);
    assert !c.kind.ctl.NoControl? ==> Driven(m, c.conns[CTRL][0].id);
  }

  // Which nets the scan flop touches.
  lemma ScanTouches(c: Cell, k: nat, feed: nat, se: nat, p: Pin, i: nat)
    requires FlopShape(c)
    requires var x := ScanCell(c, NewD(c, k), Net(feed), se); p in x.conns && i < |x.conns[p]| && x.conns[p][i].Net?
    ensures var n := ScanCell(c, NewD(c, k), Net(feed), se).conns[p][i].id;
            || n == QNet(c) || n == feed || n == se || n == OneBit(c, CLK).id
            || Net(n) == OneBit(c, D) || (!c.kind.ctl.NoControl? && Net(n) == OneBit(c, CTRL)) || (Muxed(c) && n == k + 3)
  {}

  // Whatever the scan flop or a gate of the mux touches is driven.
  lemma TouchedDriven(m: Module, k: nat, inst: Name, feed: nat, se: nat, x: Name, p: Pin, i: nat)
    requires StitchReady(m, k, inst, se) && Closed(m) && Driven(m, feed) && Driven(m, se)
    requires var m' := StitchFlop(m, k, inst, Net(feed), se);
             x in m'.cells && p in m'.cells[x].conns && i < |m'.cells[x].conns[p]| && m'.cells[x].conns[p][i].Net?
    ensures var n := StitchFlop(m, k, inst, Net(feed), se).cells[x].conns[p][i].id;
            Driven(m, n) || (k <= n < k + 4 && Muxed(m.cells[inst]))
  {
    var c, m' := m.cells[inst], StitchFlop(m, k, inst, Net(feed), se);
    PinsDriven(m, inst);
    hide Driven, Gates, ScanCell, NewD, OnlyQ, Below, FlopShape;
    var n := m'.cells[x].conns[p][i].id;
    if x == inst {
      ScanTouches(c, k, feed, se, p, i);
    } else if x in Gates(inst, c, k) {
      GateReads(inst, c, k, x, p, n);
    }
  }

  lemma StaysClosed(m: Module, k: nat, inst: Name, feed: nat, se: nat)
    requires StitchReady(m, k, inst, se) && Closed(m) && Driven(m, feed) && Driven(m, se)
    ensures Closed(StitchFlop(m, k, inst, Net(feed), se))
  {
    var m' := StitchFlop(m, k, inst, Net(feed), se);
    hide Driven, StitchReady;
    forall x, p, i | x in m'.cells && p in m'.cells[x].conns && 0 <= i < |m'.cells[x].conns[p]| && m'.cells[x].conns[p][i].Net?
      ensures Driven(m', m'.cells[x].conns[p][i].id)
    {
      var n := m'.cells[x].conns[p][i].id;
      TouchedDriven(m, k, inst, feed, se, x, p, i);
      if Driven(m, n) {
        StaysDriven(m, k, inst, Net(feed), se, n);
      } else {
        MuxNetDriven(m, k, inst, Net(feed), se, n);
      }
    }
    forall name, i | name in m'.ports && 0 <= i < |m'.ports[name].bits| && m'.ports[name].bits[i].Net?
      ensures Driven(m', m'.ports[name].bits[i].id)
    {
      StaysDriven(m, k, inst, Net(feed), se, m'.ports[name].bits[i].id);
    }
  }

  // The scan flop's output follows its control and scan enable.
  lemma ScanFollows(c: Cell, d: Bit, feed: Bit, se: nat, n: nat)
    requires FlopShape(c) && FollowsNet(ScanCell(c, d, feed, se), n)
    ensures n == se || (!c.kind.ctl.NoControl? && Net(n) == OneBit(c, CTRL) && FollowsNet(c, n))
  {
    var x := ScanCell(c, d, feed, se);
    var p :| p in x.conns && Follows(x, p) && Net(n) in x.conns[p];
    if p == CTRL {
      assert c.conns[CTRL][0] == OneBit(c, CTRL);
    }
  }

  lemma ScanDrives(c: Cell, d: Bit, feed: Bit, se: nat, p: Pin, i: nat)
    requires c.kind.Flop?
    requires var x := ScanCell(c, d, feed, se); p in x.conns && p in x.outs && i < |x.conns[p]|
    ensures ScanCell(c, d, feed, se).conns[p][i] == Net(QNet(c))
  {}

  lemma StaysRanked(m: Module, k: nat, inst: Name, feed: Bit, se: nat, rank: nat -> nat)
    requires StitchReady(m, k, inst, se) && Ranked(m, rank) && rank(se) < rank(QNet(m.cells[inst]))
    ensures Ranked(StitchFlop(m, k, inst, feed, se), MuxRank(m.cells[inst], k, rank))
  {
    var m', r := StitchFlop(m, k, inst, feed, se), MuxRank(m.cells[inst], k, rank);
    hide StitchReady, StitchFlop, MuxRank, FollowsNet, Ranked;
    forall x, p, i, n: nat | x in m'.cells && p in m'.cells[x].conns && p in m'.cells[x].outs
                        && 0 <= i < |m'.cells[x].conns[p]| && m'.cells[x].conns[p][i].Net? && FollowsNet(m'.cells[x], n)
      ensures r(n) < r(m'.cells[x].conns[p][i].id)
    {
      PinRanked(m, k, inst, feed, se, rank, x, p, i, n);
    }
  }

  // One output of the stitched netlist outranks what it follows.
  lemma PinRanked(m: Module, k: nat, inst: Name, feed: Bit, se: nat, rank: nat -> nat, x: Name, p: Pin, i: nat, n: nat)
    requires StitchReady(m, k, inst, se) && Ranked(m, rank) && rank(se) < rank(QNet(m.cells[inst]))
    requires var m' := StitchFlop(m, k, inst, feed, se);
             && x in m'.cells && p in m'.cells[x].conns && p in m'.cells[x].outs && i < |m'.cells[x].conns[p]|
             && m'.cells[x].conns[p][i].Net? && FollowsNet(m'.cells[x], n)
    ensures var r := MuxRank(m.cells[inst], k, rank);
            r(n) < r(StitchFlop(m, k, inst, feed, se).cells[x].conns[p][i].id)
  {
    var c, m' := m.cells[inst], StitchFlop(m, k, inst, feed, se);
    var g, r := Gates(inst, c, k), MuxRank(c, k, rank);
    assert FlopShape(c) && CellBelow(c, k);
    PinsBelow(c, k);
    assert forall n: nat :: n < k ==> r(n) == rank(n);
    assert m'.cells[inst] == ScanCell(c, NewD(c, k), feed, se);
    hide Gates, MuxRank, FollowsNet, NewD, FlopShape, Ranked, StitchReady, Below, ScanCell;
    if x == inst {
      ScanFollows(c, NewD(c, k), feed, se, n);
      FlopRanked(m, inst, rank, n);
      ScanDrives(c, NewD(c, k), feed, se, p, i);
    } else if x in g {
      GateRanked(inst, c, k, rank, x, p, i, n);
    } else {
      OldRanked(m, k, rank, x, p, i, n);
    }
  }

  lemma FlopRanked(m: Module, inst: Name, rank: nat -> nat, n: nat)
    requires Ranked(m, rank) && inst in m.cells && FlopShape(m.cells[inst])
    ensures FollowsNet(m.cells[inst], n) ==> rank(n) < rank(QNet(m.cells[inst]))
  {
    assert m.cells[inst].conns[Q][0] == Net(QNet(m.cells[inst]));
  }

  lemma OldRanked(m: Module, k: nat, rank: nat -> nat, x: Name, p: Pin, i: nat, n: nat)
    requires Below(m, k) && Ranked(m, rank)
    requires x in m.cells && p in m.cells[x].conns && p in m.cells[x].outs && i < |m.cells[x].conns[p]|
    requires m.cells[x].conns[p][i].Net? && FollowsNet(m.cells[x], n)
    ensures n < k && m.cells[x].conns[p][i].id < k && rank(n) < rank(m.cells[x].conns[p][i].id)
  {
    assert CellBelow(m.cells[x], k) && BitsBelow(m.cells[x].conns[p], k);
    var q :| q in m.cells[x].conns && Follows(m.cells[x], q) && Net(n) in m.cells[x].conns[q];
    assert BitsBelow(m.cells[x].conns[q], k);
  }

  /** One flop stitched: still acyclic, one driver per net, every net driven. */
  lemma StaysAcyclic(m: Module, k: nat, inst: Name, feed: nat, se: nat, rank: nat -> nat)
    requires StitchReady(m, k, inst, se) && Acyclic(m, rank) && rank(se) < rank(QNet(m.cells[inst]))
    requires Driven(m, feed) && Driven(m, se)
    ensures Acyclic(StitchFlop(m, k, inst, Net(feed), se), MuxRank(m.cells[inst], k, rank))
    ensures forall n: nat :: n < k ==> MuxRank(m.cells[inst], k, rank)(n) == rank(n)
  {
    StaysSingle(m, k, inst, Net(feed), se);
    StaysClosed(m, k, inst, feed, se);
    StaysRanked(m, k, inst, Net(feed), se, rank);
  }

  /** Were another output of the flop connected, its net would be left without a
      driver, where StaysDriven shows that nothing else is. */
  lemma OtherOutputLost(m: Module, k: nat, inst: Name, feed: Bit, se: nat, p: Pin, i: nat)
    requires Stitchable(m, k, inst) && SingleDriver(m)
    requires p in m.cells[inst].outs && p in m.cells[inst].conns && p != Q && i < |m.cells[inst].conns[p]|
    requires m.cells[inst].conns[p][i].Net?
    ensures !Driven(StitchFlop(m, k, inst, feed, se), m.cells[inst].conns[p][i].id)
  {
    var c, m' := m.cells[inst], StitchFlop(m, k, inst, feed, se);
    var n := c.conns[p][i].id;
    assert CellBelow(c, k) && BitsBelow(c.conns[p], k);
    assert Drives(m, CellPin(inst, p, i), n);
    forall s ensures !Drives(m', s, n) {
      if Drives(m', s, n) {
        OldDriver(m, k, inst, feed, se, s, n);
      }
    }
  }

  // No output but Q has a net.
  ghost predicate QAlone(c: Cell)
  {
    forall p, i :: p in c.outs && p in c.conns && p != Q && 0 <= i < |c.conns[p]| ==> c.conns[p][i].Lit?
  }

  /** Every net keeps a driver exactly when the flop has no other output connected. */
  lemma DriversKept(m: Module, k: nat, inst: Name, feed: Bit, se: nat)
    requires Stitchable(m, k, inst) && SingleDriver(m)
    ensures (forall n: nat :: Driven(m, n) ==> Driven(StitchFlop(m, k, inst, feed, se), n)) <==> QAlone(m.cells[inst])
  {
    var m', c := StitchFlop(m, k, inst, feed, se), m.cells[inst];
    if QAlone(c) {
      forall n: nat | Driven(m, n) ensures Driven(m', n) {
        var s :| Drives(m, s, n);
        KeptDriver(m, k, inst, feed, se, s, n);
      }
    } else {
      var p, i: nat :| p in c.outs && p in c.conns && p != Q && i < |c.conns[p]| && c.conns[p][i].Net?;
      assert Drives(m, CellPin(inst, p, i), c.conns[p][i].id);
      OtherOutputLost(m, k, inst, feed, se, p, i);
    }
  }

  lemma KeptDriver(m: Module, k: nat, inst: Name, feed: Bit, se: nat, s: Site, n: nat)
    requires Stitchable(m, k, inst) && QAlone(m.cells[inst]) && Drives(m, s, n)
    ensures Drives(StitchFlop(m, k, inst, feed, se), s, n)
  {
    var m' := StitchFlop(m, k, inst, feed, se);
    hide Gates;
    if s.CellPin? && s.inst == inst {
      assert s.p == Q && s.i == 0;
      assert m'.cells[inst].conns[Q] == [Net(n)];
    }
  }

  /* ---- a flop with its inverted output connected ---- */

  const TWICE: Name := Text("ff")

  const TWO_OUTPUTS: Module :=
    Module(map[Text("d") := Port(Input, [Net(0)]), Text("clk") := Port(Input, [Net(1)])],
           map[TWICE := Cell(Flop(NoControl, NoEnable), {Q, Y}, map[D := [Net(0)], CLK := [Net(1)], Q := [Net(2)], Y := [Net(3)]])])

  lemma TwoOutputsDrive(s: Site, n: nat)
    ensures Drives(TWO_OUTPUTS, s, n) <==>
              || (s == PortBit(Text("d"), 0) && n == 0) || (s == PortBit(Text("clk"), 0) && n == 1)
              || (s == CellPin(TWICE, Q, 0) && n == 2) || (s == CellPin(TWICE, Y, 0) && n == 3)
  {
    var c := TWO_OUTPUTS.cells[TWICE];
    assert c.conns[Q][0] == Net(2) && c.conns[Y][0] == Net(3);
    assert TWO_OUTPUTS.ports[Text("d")].bits[0] == Net(0) && TWO_OUTPUTS.ports[Text("clk")].bits[0] == Net(1);
  }

  /** Stitching it leaves net 3 without its driver. */
  lemma SecondOutputLost(feed: Bit, se: nat)
    ensures Stitchable(TWO_OUTPUTS, 4, TWICE) && SingleDriver(TWO_OUTPUTS) && Driven(TWO_OUTPUTS, 3)
    ensures !Driven(StitchFlop(TWO_OUTPUTS, 4, TWICE, feed, se), 3)
  {
    forall s, n: nat ensures Drives(TWO_OUTPUTS, s, n) <==>
                               || (s == PortBit(Text("d"), 0) && n == 0) || (s == PortBit(Text("clk"), 0) && n == 1)
                               || (s == CellPin(TWICE, Q, 0) && n == 2) || (s == CellPin(TWICE, Y, 0) && n == 3)
    {
      TwoOutputsDrive(s, n);
    }
    assert Drives(TWO_OUTPUTS, CellPin(TWICE, Y, 0), 3);
    assert Stitchable(TWO_OUTPUTS, 4, TWICE) by { TwoOutputsReady(); }
    assert TWO_OUTPUTS.cells[TWICE].conns[Y][0] == Net(3);
    hide Drives, Stitchable;
    OtherOutputLost(TWO_OUTPUTS, 4, TWICE, feed, se, Y, 0);
  }

  lemma TwoOutputsReady()
    ensures Stitchable(TWO_OUTPUTS, 4, TWICE)
  {
    var c := TWO_OUTPUTS.cells[TWICE];
    assert CellBelow(c, 4);
    assert !Muxed(c);
  }
}
