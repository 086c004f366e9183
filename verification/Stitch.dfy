/** Scan stitching (faultflow/scan/stitch.py): library flops become scan flops,
    a clock enable becomes a hold-mux in front of D. This module defines the
    replacement of one flop and proves that with scan enable low it keeps the
    settled valuations and every captured value. */
module Stitch {
  import opened Netlist
  import opened ScanView

  // A flop stitching accepts: single-bit pins, a net at clock, output and control.
  ghost predicate FlopShape(c: Cell)
  {
    && c.kind.Flop?
    && Q in c.outs && Q in c.conns && |c.conns[Q]| == 1 && c.conns[Q][0].Net?
    && D in c.conns && |c.conns[D]| == 1 && D !in c.outs
    && CLK in c.conns && |c.conns[CLK]| == 1 && c.conns[CLK][0].Net?
    && (!c.kind.ctl.NoControl? ==> CTRL in c.conns && |c.conns[CTRL]| == 1 && c.conns[CTRL][0].Net? && CTRL !in c.outs)
    && (!c.kind.en.NoEnable? ==> EN in c.conns && |c.conns[EN]| == 1 && EN !in c.outs)
  }

  ghost predicate OnlyQ(c: Cell) { forall p :: p in c.outs && p in c.conns ==> p == Q }

  /* ---- the hold-mux ---- */

  // enable active ? D : Q, from INV, AND2 and OR2.
  function HoldMux(inst: Name, d: Bit, q: nat, en: nat, level: Enable, k: nat): (g: map<Name, Cell>)
    ensures forall x :: x in g ==> x.Made? && x.base == inst && (x.tag.EnInv? || x.tag.EnD? || x.tag.EnQ? || x.tag.EnOr?)
  {
    var onD := if level.High? then Net(en) else Net(k);
    var onQ := if level.High? then Net(k) else Net(en);
    map[Made(EnInv, inst) := InvCell(Net(en), k),
        Made(EnD, inst) := Gate2(And2, d, onD, k + 1),
        Made(EnQ, inst) := Gate2(And2, Net(q), onQ, k + 2),
        Made(EnOr, inst) := Gate2(Or2, Net(k + 1), Net(k + 2), k + 3)]
  }

  predicate Muxed(c: Cell) { c.kind.Flop? && !c.kind.en.NoEnable? && OneBit(c, EN).Net? }

  // The enable is tied to a constant that never loads.
  predicate Frozen(c: Cell) { c.kind.Flop? && !c.kind.en.NoEnable? && OneBit(c, EN).Lit? && OneBit(c, EN).value != c.kind.en.High? }

  // The flop's next state reads its own output.
  predicate Holds(c: Cell) { Muxed(c) || Frozen(c) }

  function Gates(inst: Name, c: Cell, k: nat): (g: map<Name, Cell>)
    ensures forall x :: x in g ==> x.Made? && x.base == inst && (x.tag.EnInv? || x.tag.EnD? || x.tag.EnQ? || x.tag.EnOr?)
  {
    if Muxed(c) then HoldMux(inst, OneBit(c, D), QNet(c), OneBit(c, EN).id, c.kind.en, k) else map[]
  }

  function NewD(c: Cell, k: nat): Bit
  {
    if Muxed(c) then Net(k + 3) else if Frozen(c) then Net(QNet(c)) else OneBit(c, D)
  }

  function Used(c: Cell): nat { if Muxed(c) then 4 else 0 }

  function ScanCell(c: Cell, d: Bit, feed: Bit, se: nat): Cell
    requires c.kind.Flop?
  {
    Cell(Scan(c.kind.ctl), {Q},
         map[CLK := [OneBit(c, CLK)], D := [d], SDI := [feed], SE := [Net(se)], Q := [Net(QNet(c))]]
         + (if c.kind.ctl.NoControl? then map[] else map[CTRL := [OneBit(c, CTRL)]]))
  }

  function StitchFlop(m: Module, k: nat, inst: Name, feed: Bit, se: nat): Module
    requires inst in m.cells && m.cells[inst].kind.Flop?
  {
    var c := m.cells[inst];
    Module(m.ports, m.cells + Gates(inst, c, k) + map[inst := ScanCell(c, NewD(c, k), feed, se)])
  }

  // A flop that can be stitched at this point, with names and ids free.
  ghost predicate Stitchable(m: Module, k: nat, inst: Name)
  {
    && Below(m, k) && inst in m.cells && FlopShape(m.cells[inst])
    && (forall x :: x in Gates(inst, m.cells[inst], k) ==> x !in m.cells && x != inst)
  }

  ghost predicate StitchReady(m: Module, k: nat, inst: Name, se: nat)
  {
    Stitchable(m, k, inst) && OnlyQ(m.cells[inst]) && se < k
  }

  /* ---- one flop's values ---- */

  // What a library flop asks of a valuation, and what it captures.
  lemma FlopMeaning(lib: Library, f: Fault, c: Cell, s: bool, v: Valuation)
    requires FlopShape(c) && OnlyQ(c)
    ensures CellOk(lib, f, c, s, v) <==> (Free(f, QNet(c)) ==> v(QNet(c)) == Override(c.kind.ctl, BitVal(v, OneBit(c, CTRL)), s))
    ensures NextVal(c, s, v) == Override(c.kind.ctl, BitVal(v, OneBit(c, CTRL)),
                                         if c.kind.en.NoEnable? || BitVal(v, OneBit(c, EN)) == c.kind.en.High? then BitVal(v, OneBit(c, D)) else s)
  {
    assert c.conns[Q][0] == Net(QNet(c));
    assert PinVal(v, c, D) == BitVal(v, OneBit(c, D));
    assert !c.kind.ctl.NoControl? ==> PinVal(v, c, CTRL) == BitVal(v, OneBit(c, CTRL));
    assert !c.kind.en.NoEnable? ==> PinVal(v, c, EN) == BitVal(v, OneBit(c, EN));
  }

  // The same of the scan flop, with scan enable low.
  lemma ScanMeaning(lib: Library, f: Fault, c: Cell, d: Bit, feed: Bit, se: nat, s: bool, v: Valuation)
    requires FlopShape(c) && !v(se)
    ensures var x := ScanCell(c, d, feed, se);
            && (CellOk(lib, f, x, s, v) <==> (Free(f, QNet(c)) ==> v(QNet(c)) == Override(c.kind.ctl, BitVal(v, OneBit(c, CTRL)), s)))
            && NextVal(x, s, v) == Override(c.kind.ctl, BitVal(v, OneBit(c, CTRL)), BitVal(v, d))
  {
    var x := ScanCell(c, d, feed, se);
    assert x.conns[Q] == [Net(QNet(c))] && x.conns[Q][0] == Net(QNet(c));
    assert !PinVal(v, x, SE);
    assert PinVal(v, x, D) == BitVal(v, d);
    assert !c.kind.ctl.NoControl? ==> PinVal(v, x, CTRL) == BitVal(v, OneBit(c, CTRL));
  }

  ghost predicate GatesOk(lib: Library, f: Fault, g: map<Name, Cell>, st: State, v: Valuation)
  {
    forall x :: x in g ==> CellOk(lib, f, g[x], st(x), v)
  }

  ghost predicate MuxValues(d: Bit, q: nat, en: nat, level: Enable, k: nat, v: Valuation)
  {
    && v(k) == !v(en)
    && v(k + 1) == (BitVal(v, d) && v(en) == level.High?)
    && v(k + 2) == (v(q) && v(en) != level.High?)
    && v(k + 3) == (v(k + 1) || v(k + 2))
  }

  lemma MuxCells(inst: Name, d: Bit, q: nat, en: nat, level: Enable, k: nat)
    ensures var g := HoldMux(inst, d, q, en, level, k);
            && g.Keys == {Made(EnInv, inst), Made(EnD, inst), Made(EnQ, inst), Made(EnOr, inst)}
            && g[Made(EnInv, inst)] == InvCell(Net(en), k)
            && g[Made(EnD, inst)] == Gate2(And2, d, if level.High? then Net(en) else Net(k), k + 1)
            && g[Made(EnQ, inst)] == Gate2(And2, Net(q), if level.High? then Net(k) else Net(en), k + 2)
            && g[Made(EnOr, inst)] == Gate2(Or2, Net(k + 1), Net(k + 2), k + 3)
  {
    hide InvCell, Gate2;
  }

  // Each gate of the mux on its own.
  lemma MuxGates(lib: Library, f: Fault, inst: Name, d: Bit, q: nat, en: nat, level: Enable, k: nat, st: State, v: Valuation)
    requires FaultBelow(f, k)
    ensures var g := HoldMux(inst, d, q, en, level, k);
            && g.Keys == {Made(EnInv, inst), Made(EnD, inst), Made(EnQ, inst), Made(EnOr, inst)}
            && (CellOk(lib, f, g[Made(EnInv, inst)], st(Made(EnInv, inst)), v) <==> v(k) == !v(en))
            && (CellOk(lib, f, g[Made(EnD, inst)], st(Made(EnD, inst)), v)
                <==> v(k + 1) == (BitVal(v, d) && if level.High? then v(en) else v(k)))
            && (CellOk(lib, f, g[Made(EnQ, inst)], st(Made(EnQ, inst)), v)
                <==> v(k + 2) == (v(q) && if level.High? then v(k) else v(en)))
            && (CellOk(lib, f, g[Made(EnOr, inst)], st(Made(EnOr, inst)), v) <==> v(k + 3) == (v(k + 1) || v(k + 2)))
  {
    hide CellOk, InvCell, Gate2, HoldMux;
    MuxCells(inst, d, q, en, level, k);
    var onD := if level.High? then Net(en) else Net(k);
    var onQ := if level.High? then Net(k) else Net(en);
    InvOk(lib, f, Net(en), k, st(Made(EnInv, inst)), v);
    Gate2Ok(lib, f, And2, d, onD, k + 1, st(Made(EnD, inst)), v);
    Gate2Ok(lib, f, And2, Net(q), onQ, k + 2, st(Made(EnQ, inst)), v);
    Gate2Ok(lib, f, Or2, Net(k + 1), Net(k + 2), k + 3, st(Made(EnOr, inst)), v);
  }

  // The hold-mux settles exactly when its output is D or Q by the enable.
  lemma MuxMeaning(lib: Library, f: Fault, inst: Name, d: Bit, q: nat, en: nat, level: Enable, k: nat, st: State, v: Valuation)
    requires FaultBelow(f, k)
    ensures GatesOk(lib, f, HoldMux(inst, d, q, en, level, k), st, v) <==> MuxValues(d, q, en, level, k, v)
  {
    hide CellOk, HoldMux;
    MuxGates(lib, f, inst, d, q, en, level, k, st, v);
  }

  // Holding reads the output net, so a fault there must not sit on a holding flop.
  ghost predicate HoldFree(f: Fault, c: Cell) { Holds(c) ==> Free(f, QNet(c)) }

  /** A stitched flop captures what the library flop would, its hold included. */
  lemma SameCapture(lib: Library, f: Fault, inst: Name, c: Cell, k: nat, feed: Bit, se: nat, st: State, v: Valuation)
    requires FlopShape(c) && OnlyQ(c) && FaultBelow(f, k) && !v(se) && HoldFree(f, c)
    requires GatesOk(lib, f, Gates(inst, c, k), st, v)
    requires CellOk(lib, f, c, st(inst), v)
    ensures NextVal(ScanCell(c, NewD(c, k), feed, se), st(inst), v) == NextVal(c, st(inst), v)
  {
    var s := st(inst);
    FlopMeaning(lib, f, c, s, v);
    ScanMeaning(lib, f, c, NewD(c, k), feed, se, s, v);
    if Muxed(c) {
      MuxMeaning(lib, f, inst, OneBit(c, D), QNet(c), OneBit(c, EN).id, c.kind.en, k, st, v);
    }
  }

  // The flop takes D this cycle.
  predicate Loads(c: Cell, v: Valuation) { c.kind.Flop? && (c.kind.en.NoEnable? || BitVal(v, OneBit(c, EN)) == c.kind.en.High?) }

  /** Under any fault: the stitched flop captures what the library flop would exactly
      when its output is not stuck, or it does not hold, or it holds the stuck value. */
  lemma CaptureExact(lib: Library, f: Fault, inst: Name, c: Cell, k: nat, feed: Bit, se: nat, st: State, v: Valuation)
    requires FlopShape(c) && OnlyQ(c) && FaultBelow(f, k) && !v(se) && (f.Stuck? ==> v(f.net) == f.value)
    requires GatesOk(lib, f, Gates(inst, c, k), st, v)
    requires CellOk(lib, f, c, st(inst), v)
    ensures NextVal(ScanCell(c, NewD(c, k), feed, se), st(inst), v) == NextVal(c, st(inst), v) <==>
              || Free(f, QNet(c)) || Loads(c, v)
              || Override(c.kind.ctl, BitVal(v, OneBit(c, CTRL)), st(inst)) == Override(c.kind.ctl, BitVal(v, OneBit(c, CTRL)), f.value)
  {
    var s := st(inst);
    FlopMeaning(lib, f, c, s, v);
    ScanMeaning(lib, f, c, NewD(c, k), feed, se, s, v);
    if Muxed(c) {
      MuxMeaning(lib, f, inst, OneBit(c, D), QNet(c), OneBit(c, EN).id, c.kind.en, k, st, v);
    }
    hide CellOk, NextVal, FlopShape, OnlyQ, GatesOk, Gates, ScanCell;
  }

  // A flop with an enable, at 1 and told to hold.
  const HOLDING: Cell := Cell(Flop(NoControl, High), {Q}, map[D := [Net(0)], EN := [Net(1)], Q := [Net(2)], CLK := [Net(3)]])

  /** Its output stuck at 0: the library flop keeps its 1, the stitched one captures
      the 0 that the hold-mux reads back. */
  lemma StuckHoldLost(lib: Library, inst: Name)
    ensures var f, st, v := Stuck(2, false), (x: Name) => true, (n: nat) => n == 4;
            && GatesOk(lib, f, Gates(inst, HOLDING, 4), st, v) && CellOk(lib, f, HOLDING, st(inst), v)
            && NextVal(HOLDING, st(inst), v) && !NextVal(ScanCell(HOLDING, NewD(HOLDING, 4), Net(0), 0), st(inst), v)
  {
    var f, st, v := Stuck(2, false), (x: Name) => true, (n: nat) => n == 4;
    assert FlopShape(HOLDING) && OnlyQ(HOLDING) && OneBit(HOLDING, EN) == Net(1) && QNet(HOLDING) == 2 && OneBit(HOLDING, D) == Net(0);
    FlopMeaning(lib, f, HOLDING, true, v);
    MuxMeaning(lib, f, inst, Net(0), 2, 1, High, 4, st, v);
    ScanMeaning(lib, f, HOLDING, Net(7), Net(0), 0, true, v);
  }

  /* ---- one flop in its module ---- */

  // Every flop of the original captures the same.
  ghost predicate SameNexts(m: Module, m': Module, st: State, v: Valuation)
  {
    forall inst :: inst in m.cells ==> inst in m'.cells && NextVal(m'.cells[inst], st(inst), v) == NextVal(m.cells[inst], st(inst), v)
  }

  lemma StitchBack(lib: Library, m: Module, k: nat, inst: Name, feed: Bit, se: nat, f: Fault, env: Inputs, st: State, v: Valuation)
    requires StitchReady(m, k, inst, se) && FaultBelow(f, k) && HoldFree(f, m.cells[inst]) && !v(se)
    requires Settled(lib, StitchFlop(m, k, inst, feed, se), f, env, st, v)
    ensures Settled(lib, m, f, env, st, v) && SameNexts(m, StitchFlop(m, k, inst, feed, se), st, v)
  {
    hide CellOk, NextVal, Below, ScanCell, NewD, BitVal, FaultBelow, Gates;
    var c, m' := m.cells[inst], StitchFlop(m, k, inst, feed, se);
    hide FlopShape;
    var g := Gates(inst, c, k);
    FlopMeaning(lib, f, c, st(inst), v);
    ScanMeaning(lib, f, c, NewD(c, k), feed, se, st(inst), v);
    assert CellOk(lib, f, m'.cells[inst], st(inst), v);
    assert GatesOk(lib, f, g, st, v) by {
      forall x | x in g ensures CellOk(lib, f, g[x], st(x), v) {
        assert m'.cells[x] == g[x];
      }
    }
    SameCapture(lib, f, inst, c, k, feed, se, st, v);
    forall x | x in m.cells ensures CellOk(lib, f, m.cells[x], st(x), v) {
      assert x != inst ==> m'.cells[x] == m.cells[x];
    }
  }

  // The values the new gates take.
  ghost function Extend(c: Cell, k: nat, v: Valuation): Valuation
  {
    if !Muxed(c) then v
    else
      var on := v(OneBit(c, EN).id) == c.kind.en.High?;
      var d, q := BitVal(v, OneBit(c, D)), v(QNet(c));
      (n: nat) =>
        if n == k then !v(OneBit(c, EN).id)
        else if n == k + 1 then d && on
        else if n == k + 2 then q && !on
        else if n == k + 3 then (d && on) || (q && !on)
        else v(n)
  }

  lemma PinsBelow(c: Cell, k: nat)
    requires FlopShape(c) && CellBelow(c, k)
    ensures QNet(c) < k
    ensures OneBit(c, D).Net? ==> OneBit(c, D).id < k
    ensures !c.kind.en.NoEnable? && OneBit(c, EN).Net? ==> OneBit(c, EN).id < k
    ensures !c.kind.ctl.NoControl? && OneBit(c, CTRL).Net? ==> OneBit(c, CTRL).id < k
  {
    assert BitsBelow(c.conns[Q], k) && BitsBelow(c.conns[D], k);
  }

  lemma ExtendGates(lib: Library, f: Fault, inst: Name, c: Cell, k: nat, st: State, v: Valuation)
    requires FlopShape(c) && CellBelow(c, k) && FaultBelow(f, k)
    ensures GatesOk(lib, f, Gates(inst, c, k), st, Extend(c, k, v)) && AgreeBelow(v, Extend(c, k, v), k)
  {
    hide CellOk;
    PinsBelow(c, k);
    if Muxed(c) {
      MuxMeaning(lib, f, inst, OneBit(c, D), QNet(c), OneBit(c, EN).id, c.kind.en, k, st, Extend(c, k, v));
    }
  }

  lemma StitchForth(lib: Library, m: Module, k: nat, inst: Name, feed: Bit, se: nat, f: Fault, env: Inputs, st: State, v: Valuation)
    returns (w: Valuation)
    requires StitchReady(m, k, inst, se) && FaultBelow(f, k) && !v(se)
    requires Settled(lib, m, f, env, st, v)
    ensures AgreeBelow(v, w, k) && Settled(lib, StitchFlop(m, k, inst, feed, se), f, env, st, w)
  {
    hide CellOk, NextVal, ScanCell, NewD, Extend, BitVal, FaultBelow, Gates;
    var c, m' := m.cells[inst], StitchFlop(m, k, inst, feed, se);
    hide FlopShape;
    var g := Gates(inst, c, k);
    assert CellBelow(c, k);
    w := Extend(c, k, v);
    ExtendGates(lib, f, inst, c, k, st, v);
    SettledAgree(lib, m, f, env, st, v, w, k);
    FlopMeaning(lib, f, c, st(inst), w);
    ScanMeaning(lib, f, c, NewD(c, k), feed, se, st(inst), w);
    forall x | x in m'.cells ensures CellOk(lib, f, m'.cells[x], st(x), w) {
      if x == inst {
        assert m'.cells[x] == ScanCell(c, NewD(c, k), feed, se);
      } else if x in g {
        assert m'.cells[x] == g[x];
      } else {
        assert m'.cells[x] == m.cells[x];
      }
    }
  }
}
