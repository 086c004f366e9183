/** The reduced scan view (faultflow/scan/atpg_view.py): every scan flop is cut
    into a pseudo-input that drives its readers and a pseudo-output that shows
    what it would capture. This module defines the cut of one flop and proves
    that it keeps the settled valuations, faults included. */
module ScanView {
  import opened Netlist

  /* ---- generated gates ---- */

  function BufCell(a: Bit, y: nat): Cell { Cell(Buf, {Y}, map[A := [a], Y := [Net(y)]]) }

  function InvCell(a: Bit, y: nat): Cell { Cell(Inv, {Y}, map[A := [a], Y := [Net(y)]]) }

  function Gate2(kind: Kind, a: Bit, b: Bit, y: nat): Cell
  {
    Cell(kind, {Y}, map[A := [a], B := [b], Y := [Net(y)]])
  }

  lemma BufOk(lib: Library, f: Fault, a: Bit, y: nat, s: bool, v: Valuation)
    ensures CellOk(lib, f, BufCell(a, y), s, v) <==> (Free(f, y) ==> v(y) == BitVal(v, a))
  {
    var c := BufCell(a, y);
    assert c.conns[Y][0] == Net(y);
  }

  lemma InvOk(lib: Library, f: Fault, a: Bit, y: nat, s: bool, v: Valuation)
    ensures CellOk(lib, f, InvCell(a, y), s, v) <==> (Free(f, y) ==> v(y) == !BitVal(v, a))
  {
    var c := InvCell(a, y);
    assert c.conns[Y][0] == Net(y);
  }

  lemma Gate2Ok(lib: Library, f: Fault, kind: Kind, a: Bit, b: Bit, y: nat, s: bool, v: Valuation)
    requires kind.And2? || kind.Or2?
    ensures CellOk(lib, f, Gate2(kind, a, b, y), s, v) <==>
              (Free(f, y) ==> v(y) == if kind.And2? then BitVal(v, a) && BitVal(v, b) else BitVal(v, a) || BitVal(v, b))
  {
    var c := Gate2(kind, a, b, y);
    assert c.conns[Y][0] == Net(y);
  }

  /* ---- cutting one flop ---- */

  // The net ids the cut of one flop takes, in the order they are handed out.
  datatype Ids = Ids(branch: nat, ppi: nat, qinv: nat, drive: nat, ppo: nat,
                     dbranch: nat, dinv: nat, dmux: nat, next: nat)

  function IdsFrom(ctl: Control, branchD: bool, k: nat): Ids
  {
    var ppi := if ctl.NoControl? then k else k + 1;
    var drive := match ctl case NoControl => ppi case Reset => ppi + 1 case Set => ppi + 2;
    var ppo := drive + 1;
    var free := if branchD then ppo + 2 else ppo + 1;
    var dmux := if ctl.Set? then free + 1 else free;
    Ids(k, ppi, ppi + 1, drive, ppo, ppo + 1, free, dmux, if ctl.NoControl? then free else dmux + 1)
  }

  // A scan flop as stitching makes it: single-bit pins, Q its only output.
  ghost predicate ScanShape(c: Cell, se: nat)
  {
    && c.kind.Scan? && c.outs == {Q}
    && Q in c.conns && |c.conns[Q]| == 1 && c.conns[Q][0].Net?
    && D in c.conns && |c.conns[D]| == 1
    && SE in c.conns && c.conns[SE] == [Net(se)]
    && (!c.kind.ctl.NoControl? ==> CTRL in c.conns && |c.conns[CTRL]| == 1)
  }

  // An async control comes from a net.
  ghost predicate ControlNet(c: Cell) { c.kind.Scan? && !c.kind.ctl.NoControl? ==> CTRL in c.conns && |c.conns[CTRL]| == 1 && c.conns[CTRL][0].Net? }

  function OneBit(c: Cell, p: Pin): Bit
  {
    if p in c.conns && |c.conns[p]| == 1 then c.conns[p][0] else Lit(false)
  }

  function QNet(c: Cell): nat
  {
    var b := OneBit(c, Q);
    if b.Net? then b.id else 0
  }

  // The cell names the view makes out of a flop's.
  predicate ViewTag(t: Tag)
  {
    t.CtrlBranch? || t.QMux? || t.QInv? || t.DBranch? || t.DMux? || t.DInv? || t.Observe? || t.QPo?
  }

  // The gates on the flop's output: control active ? control value : pseudo-input.
  function QGates(inst: Name, ctl: Control, line: Bit, ids: Ids): (g: map<Name, Cell>)
    ensures forall x :: x in g ==> x.Made? && x.base == inst && (x.tag.CtrlBranch? || x.tag.QInv? || x.tag.QMux?)
  {
    match ctl
    case NoControl => map[]
    case Reset =>
      map[Made(CtrlBranch, inst) := BufCell(line, ids.branch),
          Made(QMux, inst) := Gate2(And2, Net(ids.ppi), Net(ids.branch), ids.drive)]
    case Set =>
      map[Made(CtrlBranch, inst) := BufCell(line, ids.branch),
          Made(QInv, inst) := InvCell(Net(ids.branch), ids.qinv),
          Made(QMux, inst) := Gate2(Or2, Net(ids.ppi), Net(ids.qinv), ids.drive)]
  }

  // The gates on the flop's input: control active ? control value : D, observed at ppo.
  function DGates(inst: Name, ctl: Control, d: Bit, branchD: bool, ids: Ids): (g: map<Name, Cell>)
    ensures forall x :: x in g ==> x.Made? && x.base == inst
                                   && (x.tag.DBranch? || x.tag.DInv? || x.tag.DMux? || x.tag.Observe?)
  {
    var tap := if branchD then Net(ids.dbranch) else d;
    var seen := if ctl.NoControl? then tap else Net(ids.dmux);
    (if branchD then map[Made(DBranch, inst) := BufCell(d, ids.dbranch)] else map[])
    + DMuxGates(inst, ctl, tap, ids)
    + map[Made(Observe, inst) := BufCell(seen, ids.ppo)]
  }

  function DMuxGates(inst: Name, ctl: Control, tap: Bit, ids: Ids): (g: map<Name, Cell>)
    ensures forall x :: x in g ==> x.Made? && x.base == inst && (x.tag.DInv? || x.tag.DMux?)
  {
    match ctl
    case NoControl => map[]
    case Reset => map[Made(DMux, inst) := Gate2(And2, tap, Net(ids.branch), ids.dmux)]
    case Set => map[Made(DInv, inst) := InvCell(Net(ids.branch), ids.dinv),
                    Made(DMux, inst) := Gate2(Or2, tap, Net(ids.dinv), ids.dmux)]
  }

  // D needs a branch of its own when its net has other sites, or is a constant.
  function BranchD(c: Cell, shared: bool): bool { shared || OneBit(c, D).Lit? }

  function CutIds(m: Module, k: nat, inst: Name, shared: bool): Ids
    requires inst in m.cells && m.cells[inst].kind.Scan?
  {
    var c := m.cells[inst];
    IdsFrom(c.kind.ctl, BranchD(c, shared), k)
  }

  function Rewired(m: Module, k: nat, inst: Name, shared: bool, keep: set<Name>): Module
    requires inst in m.cells && m.cells[inst].kind.Scan?
  {
    Substitute(m, QNet(m.cells[inst]), CutIds(m, k, inst, shared).drive, keep)
  }

  function NewGates(m: Module, k: nat, inst: Name, shared: bool, keep: set<Name>): (g: map<Name, Cell>)
    requires inst in m.cells && m.cells[inst].kind.Scan?
    ensures forall x :: x in g ==> x.Made? && x.base == inst && ViewTag(x.tag) && !x.tag.QPo?
  {
    var ids := CutIds(m, k, inst, shared);
    var c := Rewired(m, k, inst, shared, keep).cells[inst];
    QGates(inst, c.kind.ctl, OneBit(c, CTRL), ids) + DGates(inst, c.kind.ctl, OneBit(c, D), BranchD(c, shared), ids)
  }

  function Cut(m: Module, k: nat, inst: Name, shared: bool, keep: set<Name>): Module
    requires inst in m.cells && m.cells[inst].kind.Scan?
  {
    var ids := CutIds(m, k, inst, shared);
    var r := Rewired(m, k, inst, shared, keep);
    Module(r.ports[Made(Ppi, inst) := Port(Input, [Net(ids.ppi)])][Made(Ppo, inst) := Port(Output, [Net(ids.ppo)])],
           (r.cells - {inst}) + NewGates(m, k, inst, shared, keep))
  }

  /* ---- the cut keeps settled valuations ---- */

  // The module the cut starts from: the flop is there, its net is its own, and
  // none of the names the cut makes is taken.
  ghost predicate CutReady(m: Module, k: nat, inst: Name, se: nat, keep: set<Name>)
  {
    && Below(m, k) && se < k
    && inst in m.cells && ScanShape(m.cells[inst], se) && QNet(m.cells[inst]) != se
    && KeptPortsAvoid(m, QNet(m.cells[inst]), keep)
    && Made(Ppi, inst) !in m.ports && Made(Ppo, inst) !in m.ports
    && (forall t :: ViewTag(t) ==> Made(t, inst) !in m.cells)
  }

  function Without(m: Module, inst: Name): Module { Module(m.ports, m.cells - {inst}) }

  // The value every new net takes.
  function Extended(v: Valuation, k: nat, c: Cell, ids: Ids, s: bool): Valuation
    requires c.kind.Scan?
  {
    var ctl := c.kind.ctl;
    var line, d := BitVal(v, OneBit(c, CTRL)), BitVal(v, OneBit(c, D));
    (n: nat) =>
      if n < k then v(n)
      else if n == ids.drive then v(QNet(c))
      else if n == ids.ppi then s
      else if n == ids.ppo then Override(ctl, line, d)
      else if !ctl.NoControl? && n == ids.branch then line
      else if ctl.Set? && (n == ids.qinv || n == ids.dinv) then !line
      else if !ctl.NoControl? && n == ids.dmux then Override(ctl, line, d)
      else d
  }

  lemma OneBitSub(c: Cell, p: Pin, q: nat, r: nat, v: Valuation)
    ensures OneBit(SubCell(c, q, r), p) == SubBit(OneBit(c, p), q, r)
    ensures BitVal(v, OneBit(SubCell(c, q, r), p)) == BitVal(Pull(v, q, r), OneBit(c, p))
  {
  }

  // The gates and the pseudo-input drive the flop's net as the flop did.
  lemma DriveMeans(lib: Library, f: Fault, env: Inputs, st: State, v: Valuation,
                   inst: Name, ctl: Control, line: Bit, ids: Ids)
    requires ctl.NoControl? ==> ids.drive == ids.ppi
    requires !ctl.NoControl? ==> Free(f, ids.ppi) && Free(f, ids.branch)
    requires ctl.Set? ==> Free(f, ids.qinv)
    requires PortOk(f, env, Made(Ppi, inst), Port(Input, [Net(ids.ppi)]), v)
    requires forall x :: x in QGates(inst, ctl, line, ids) ==> CellOk(lib, f, QGates(inst, ctl, line, ids)[x], st(x), v)
    ensures Free(f, ids.drive) ==> v(ids.drive) == Override(ctl, BitVal(v, line), env(Made(Ppi, inst), 0))
  {
    var port, g := Port(Input, [Net(ids.ppi)]), QGates(inst, ctl, line, ids);
    assert port.bits[0] == Net(ids.ppi);
    if !ctl.NoControl? {
      var cb, qi, qm := Made(CtrlBranch, inst), Made(QInv, inst), Made(QMux, inst);
      assert CellOk(lib, f, g[cb], st(cb), v);
      BufOk(lib, f, line, ids.branch, st(cb), v);
      assert CellOk(lib, f, g[qm], st(qm), v);
      if ctl.Reset? {
        Gate2Ok(lib, f, And2, Net(ids.ppi), Net(ids.branch), ids.drive, st(qm), v);
      } else {
        assert CellOk(lib, f, g[qi], st(qi), v);
        InvOk(lib, f, Net(ids.branch), ids.qinv, st(qi), v);
        Gate2Ok(lib, f, Or2, Net(ids.ppi), Net(ids.qinv), ids.drive, st(qm), v);
      }
    }
  }

  // The pseudo-output shows what the flop would capture.
  lemma ObserveMeans(lib: Library, f: Fault, st: State, v: Valuation,
                     inst: Name, ctl: Control, line: Bit, d: Bit, branchD: bool, ids: Ids)
    requires Free(f, ids.ppo) && (branchD ==> Free(f, ids.dbranch))
    requires !ctl.NoControl? ==> Free(f, ids.dmux) && v(ids.branch) == BitVal(v, line)
    requires ctl.Set? ==> Free(f, ids.dinv)
    requires forall x :: x in DGates(inst, ctl, d, branchD, ids) ==>
               CellOk(lib, f, DGates(inst, ctl, d, branchD, ids)[x], st(x), v)
    ensures v(ids.ppo) == Override(ctl, BitVal(v, line), BitVal(v, d))
  {
    var g := DGates(inst, ctl, d, branchD, ids);
    var tap := if branchD then Net(ids.dbranch) else d;
    var seen := if ctl.NoControl? then tap else Net(ids.dmux);
    var db, di, dm, ob := Made(DBranch, inst), Made(DInv, inst), Made(DMux, inst), Made(Observe, inst);
    if branchD {
      assert CellOk(lib, f, g[db], st(db), v);
      BufOk(lib, f, d, ids.dbranch, st(db), v);
    }
    assert BitVal(v, tap) == BitVal(v, d);
    assert CellOk(lib, f, g[ob], st(ob), v);
    BufOk(lib, f, seen, ids.ppo, st(ob), v);
    if !ctl.NoControl? {
      assert CellOk(lib, f, g[dm], st(dm), v);
      if ctl.Reset? {
        Gate2Ok(lib, f, And2, tap, Net(ids.branch), ids.dmux, st(dm), v);
      } else {
        assert CellOk(lib, f, g[di], st(di), v);
        InvOk(lib, f, Net(ids.branch), ids.dinv, st(di), v);
        Gate2Ok(lib, f, Or2, tap, Net(ids.dinv), ids.dmux, st(dm), v);
      }
    }
  }

  // What the cut leaves of the rest of the module.
  lemma CutKeeps(m: Module, k: nat, inst: Name, shared: bool, keep: set<Name>, se: nat)
    requires CutReady(m, k, inst, se, keep)
    ensures var rest := Substitute(Without(m, inst), QNet(m.cells[inst]), CutIds(m, k, inst, shared).drive, keep);
            && Cut(m, k, inst, shared, keep).cells == rest.cells + NewGates(m, k, inst, shared, keep)
            && rest.cells.Keys !! NewGates(m, k, inst, shared, keep).Keys
            && Cut(m, k, inst, shared, keep).ports
               == rest.ports[Made(Ppi, inst) := Port(Input, [Net(CutIds(m, k, inst, shared).ppi)])]
                            [Made(Ppo, inst) := Port(Output, [Net(CutIds(m, k, inst, shared).ppo)])]
  {
    var r := Rewired(m, k, inst, shared, keep);
    var rest := Substitute(Without(m, inst), QNet(m.cells[inst]), CutIds(m, k, inst, shared).drive, keep);
    assert r.cells - {inst} == rest.cells;
  }

  // Every settled valuation of the view is one of the netlist it was cut from.
  lemma CutBack(lib: Library, m: Module, f: Fault, env: Inputs, st: State, v: Valuation,
                k: nat, inst: Name, shared: bool, keep: set<Name>, se: nat)
    requires CutReady(m, k, inst, se, keep) && FaultBelow(f, k)
    requires var q, ids := QNet(m.cells[inst]), CutIds(m, k, inst, shared);
             Settled(lib, Cut(m, k, inst, shared, keep), SubFault(f, q, ids.drive), env, st, v)
    requires !v(se) && env(Made(Ppi, inst), 0) == st(inst)
    ensures var q, ids := QNet(m.cells[inst]), CutIds(m, k, inst, shared);
            var w := Pull(v, q, ids.drive);
            && Settled(lib, m, f, env, st, w) && !w(se)
            && v(ids.ppo) == NextVal(m.cells[inst], st(inst), w)
  {
    hide NewGates;
    hide CellOk;
    hide PortOk;
    hide SubBits;
    hide SubCell;
    var c := m.cells[inst];
    var q, ids := QNet(c), CutIds(m, k, inst, shared);
    var w, g := Pull(v, q, ids.drive), SubFault(f, q, ids.drive);
    var view := Cut(m, k, inst, shared, keep);
    var rest := Substitute(Without(m, inst), q, ids.drive, keep);
    CutKeeps(m, k, inst, shared, keep, se);
    assert Settled(lib, rest, g, env, st, v) by {
      forall name | name in rest.ports ensures PortOk(g, env, name, rest.ports[name], v) {
        assert PortOk(g, env, name, view.ports[name], v);
      }
      forall x | x in rest.cells ensures CellOk(lib, g, rest.cells[x], st(x), v) {
        assert CellOk(lib, g, view.cells[x], st(x), v);
      }
    }
    SettledSub(lib, Without(m, inst), f, env, st, v, q, ids.drive, keep, k);
    assert Settled(lib, Without(m, inst), f, env, st, w);
    CutFlop(lib, m, f, env, st, v, k, inst, shared, keep, se);
    forall x | x in m.cells ensures CellOk(lib, f, m.cells[x], st(x), w) {
      if x != inst {
        assert CellOk(lib, f, Without(m, inst).cells[x], st(x), w);
      }
    }
    forall name | name in m.ports ensures PortOk(f, env, name, m.ports[name], w) {
      assert PortOk(f, env, name, Without(m, inst).ports[name], w);
    }
  }

  // The new gates and the pseudo-input are part of the view.
  lemma GatesSettled(lib: Library, m: Module, g: Fault, env: Inputs, st: State, v: Valuation,
                     k: nat, inst: Name, shared: bool, keep: set<Name>, se: nat)
    requires CutReady(m, k, inst, se, keep)
    requires Settled(lib, Cut(m, k, inst, shared, keep), g, env, st, v)
    ensures var ids := CutIds(m, k, inst, shared);
            var c := SubCell(m.cells[inst], QNet(m.cells[inst]), ids.drive);
            var qg := QGates(inst, c.kind.ctl, OneBit(c, CTRL), ids);
            var dg := DGates(inst, c.kind.ctl, OneBit(c, D), BranchD(c, shared), ids);
            && (forall x :: x in qg ==> CellOk(lib, g, qg[x], st(x), v))
            && (forall x :: x in dg ==> CellOk(lib, g, dg[x], st(x), v))
            && PortOk(g, env, Made(Ppi, inst), Port(Input, [Net(ids.ppi)]), v)
  {
    hide QGates;
    hide DGates;
    hide CellOk;
    hide SubBits;
    hide Below;
    var ids := CutIds(m, k, inst, shared);
    var view, c := Cut(m, k, inst, shared, keep), SubCell(m.cells[inst], QNet(m.cells[inst]), ids.drive);
    assert Rewired(m, k, inst, shared, keep).cells[inst] == c;
    var qg := QGates(inst, c.kind.ctl, OneBit(c, CTRL), ids);
    var dg := DGates(inst, c.kind.ctl, OneBit(c, D), BranchD(c, shared), ids);
    assert NewGates(m, k, inst, shared, keep) == qg + dg;
    forall x | x in qg ensures CellOk(lib, g, qg[x], st(x), v) {
      assert x !in dg && view.cells[x] == qg[x];
    }
    forall x | x in dg ensures CellOk(lib, g, dg[x], st(x), v) {
      assert view.cells[x] == dg[x];
    }
    assert view.ports[Made(Ppi, inst)] == Port(Input, [Net(ids.ppi)]);
  }

  lemma CutFlop(lib: Library, m: Module, f: Fault, env: Inputs, st: State, v: Valuation,
                k: nat, inst: Name, shared: bool, keep: set<Name>, se: nat)
    requires CutReady(m, k, inst, se, keep) && FaultBelow(f, k)
    requires var q, ids := QNet(m.cells[inst]), CutIds(m, k, inst, shared);
             Settled(lib, Cut(m, k, inst, shared, keep), SubFault(f, q, ids.drive), env, st, v)
    requires !v(se) && env(Made(Ppi, inst), 0) == st(inst)
    ensures var q, ids := QNet(m.cells[inst]), CutIds(m, k, inst, shared);
            var w := Pull(v, q, ids.drive);
            && CellOk(lib, f, m.cells[inst], st(inst), w)
            && v(ids.ppo) == NextVal(m.cells[inst], st(inst), w)
  {
    var q, ids := QNet(m.cells[inst]), CutIds(m, k, inst, shared);
    GatesSettled(lib, m, SubFault(f, q, ids.drive), env, st, v, k, inst, shared, keep, se);
    FlopFromGates(lib, f, env, st, v, inst, m.cells[inst], k, shared, se);
  }

  lemma FlopFromGates(lib: Library, f: Fault, env: Inputs, st: State, v: Valuation,
                      inst: Name, c: Cell, k: nat, shared: bool, se: nat)
    requires ScanShape(c, se) && CellBelow(c, k) && se < k && QNet(c) != se && FaultBelow(f, k)
    requires !v(se) && env(Made(Ppi, inst), 0) == st(inst)
    requires var ids := IdsFrom(c.kind.ctl, BranchD(c, shared), k);
             var g, c' := SubFault(f, QNet(c), ids.drive), SubCell(c, QNet(c), ids.drive);
             var qg := QGates(inst, c.kind.ctl, OneBit(c', CTRL), ids);
             var dg := DGates(inst, c.kind.ctl, OneBit(c', D), BranchD(c', shared), ids);
             && (forall x :: x in qg ==> CellOk(lib, g, qg[x], st(x), v))
             && (forall x :: x in dg ==> CellOk(lib, g, dg[x], st(x), v))
             && PortOk(g, env, Made(Ppi, inst), Port(Input, [Net(ids.ppi)]), v)
    ensures var ids := IdsFrom(c.kind.ctl, BranchD(c, shared), k);
            var w := Pull(v, QNet(c), ids.drive);
            && CellOk(lib, f, c, st(inst), w)
            && v(ids.ppo) == NextVal(c, st(inst), w)
  {
    var ids := IdsFrom(c.kind.ctl, BranchD(c, shared), k);
    var q := QNet(c);
    var w, g, c' := Pull(v, q, ids.drive), SubFault(f, q, ids.drive), SubCell(c, q, ids.drive);
    var ctl, line, d := c.kind.ctl, OneBit(c', CTRL), OneBit(c', D);
    OneBitSub(c, CTRL, q, ids.drive, v);
    OneBitSub(c, D, q, ids.drive, v);
    DriveMeans(lib, g, env, st, v, inst, ctl, line, ids);
    if !ctl.NoControl? {
      var cb, qg := Made(CtrlBranch, inst), QGates(inst, ctl, line, ids);
      assert CellOk(lib, g, qg[cb], st(cb), v);
      BufOk(lib, g, line, ids.branch, st(cb), v);
    }
    ObserveMeans(lib, g, st, v, inst, ctl, line, d, BranchD(c', shared), ids);
    FlopMeans(lib, f, c, se, st(inst), w);
    assert q < k by {
      assert c.conns[Q][0].Net?;
    }
  }

  // With scan enable off, what a scan flop drives and what it captures.
  lemma FlopMeans(lib: Library, f: Fault, c: Cell, se: nat, s: bool, w: Valuation)
    requires ScanShape(c, se) && !w(se)
    ensures CellOk(lib, f, c, s, w) <==>
              (Free(f, QNet(c)) ==> w(QNet(c)) == Override(c.kind.ctl, BitVal(w, OneBit(c, CTRL)), s))
    ensures NextVal(c, s, w) == Override(c.kind.ctl, BitVal(w, OneBit(c, CTRL)), BitVal(w, OneBit(c, D)))
  {
    assert !PinVal(w, c, SE);
    assert c.conns[Q][0] == Net(QNet(c));
  }

  lemma ExtendedPulls(w: Valuation, k: nat, c: Cell, ids: Ids, s: bool)
    requires c.kind.Scan? && QNet(c) < k <= ids.drive
    ensures AgreeBelow(Pull(Extended(w, k, c, ids, s), QNet(c), ids.drive), w, k)
  {
  }

  // The new gates hold under the extended valuation.
  lemma GatesFromFlop(lib: Library, f: Fault, env: Inputs, st: State, w: Valuation,
                      inst: Name, c: Cell, k: nat, shared: bool, se: nat)
    requires ScanShape(c, se) && CellBelow(c, k) && se < k && FaultBelow(f, k)
    requires !w(se) && env(Made(Ppi, inst), 0) == st(inst) && CellOk(lib, f, c, st(inst), w)
    ensures var ids := IdsFrom(c.kind.ctl, BranchD(c, shared), k);
            var v := Extended(w, k, c, ids, st(inst));
            var g, c' := SubFault(f, QNet(c), ids.drive), SubCell(c, QNet(c), ids.drive);
            var qg := QGates(inst, c.kind.ctl, OneBit(c', CTRL), ids);
            var dg := DGates(inst, c.kind.ctl, OneBit(c', D), BranchD(c', shared), ids);
            && (forall x :: x in qg ==> CellOk(lib, g, qg[x], st(x), v))
            && (forall x :: x in dg ==> CellOk(lib, g, dg[x], st(x), v))
            && PortOk(g, env, Made(Ppi, inst), Port(Input, [Net(ids.ppi)]), v)
            && v(ids.ppo) == NextVal(c, st(inst), w)
  {
    var ids := IdsFrom(c.kind.ctl, BranchD(c, shared), k);
    var q, v := QNet(c), Extended(w, k, c, ids, st(inst));
    var g, c', ctl := SubFault(f, q, ids.drive), SubCell(c, q, ids.drive), c.kind.ctl;
    var line, d := OneBit(c', CTRL), OneBit(c', D);
    assert q < k by { assert c.conns[Q][0].Net?; }
    ExtendedPulls(w, k, c, ids, st(inst));
    OneBitSub(c, CTRL, q, ids.drive, v);
    OneBitSub(c, D, q, ids.drive, v);
    assert BitsBelow(c.conns[D], k) && (!ctl.NoControl? ==> BitsBelow(c.conns[CTRL], k));
    assert BitVal(v, d) == BitVal(w, OneBit(c, D));
    assert !ctl.NoControl? ==> BitVal(v, line) == BitVal(w, OneBit(c, CTRL));
    FlopMeans(lib, f, c, se, st(inst), w);
    QGatesHold(lib, g, st, v, inst, ctl, line, ids, st(inst));
    DGatesHold(lib, g, st, v, inst, ctl, line, d, BranchD(c', shared), ids);
  }

  lemma QGatesHold(lib: Library, g: Fault, st: State, v: Valuation, inst: Name, ctl: Control, line: Bit, ids: Ids, s: bool)
    requires !ctl.NoControl? ==> v(ids.branch) == BitVal(v, line) && v(ids.ppi) == s
    requires ctl.Set? ==> v(ids.qinv) == !BitVal(v, line)
    requires Free(g, ids.drive) ==> v(ids.drive) == Override(ctl, BitVal(v, line), s)
    ensures forall x :: x in QGates(inst, ctl, line, ids) ==> CellOk(lib, g, QGates(inst, ctl, line, ids)[x], st(x), v)
  {
    hide CellOk;
    hide BufCell;
    hide InvCell;
    hide Gate2;
    var cb, qi, qm := Made(CtrlBranch, inst), Made(QInv, inst), Made(QMux, inst);
    BufOk(lib, g, line, ids.branch, st(cb), v);
    InvOk(lib, g, Net(ids.branch), ids.qinv, st(qi), v);
    Gate2Ok(lib, g, And2, Net(ids.ppi), Net(ids.branch), ids.drive, st(qm), v);
    Gate2Ok(lib, g, Or2, Net(ids.ppi), Net(ids.qinv), ids.drive, st(qm), v);
  }

  lemma DGatesHold(lib: Library, g: Fault, st: State, v: Valuation, inst: Name, ctl: Control, line: Bit, d: Bit,
                   branchD: bool, ids: Ids)
    requires !ctl.NoControl? ==> v(ids.branch) == BitVal(v, line)
    requires ctl.Set? ==> v(ids.dinv) == !BitVal(v, line)
    requires !ctl.NoControl? ==> v(ids.dmux) == Override(ctl, BitVal(v, line), BitVal(v, d))
    requires branchD ==> v(ids.dbranch) == BitVal(v, d)
    requires v(ids.ppo) == Override(ctl, BitVal(v, line), BitVal(v, d))
    ensures forall x :: x in DGates(inst, ctl, d, branchD, ids) ==>
              CellOk(lib, g, DGates(inst, ctl, d, branchD, ids)[x], st(x), v)
  {
    hide CellOk;
    hide BufCell;
    hide InvCell;
    hide Gate2;
    var tap := if branchD then Net(ids.dbranch) else d;
    var seen := if ctl.NoControl? then tap else Net(ids.dmux);
    var db, di, dm, ob := Made(DBranch, inst), Made(DInv, inst), Made(DMux, inst), Made(Observe, inst);
    BufOk(lib, g, d, ids.dbranch, st(db), v);
    InvOk(lib, g, Net(ids.branch), ids.dinv, st(di), v);
    Gate2Ok(lib, g, And2, tap, Net(ids.branch), ids.dmux, st(dm), v);
    Gate2Ok(lib, g, Or2, tap, Net(ids.dinv), ids.dmux, st(dm), v);
    BufOk(lib, g, seen, ids.ppo, st(ob), v);
  }

  // Every settled valuation of the netlist extends to one of the view.
  lemma CutForth(lib: Library, m: Module, f: Fault, env: Inputs, st: State, w: Valuation,
                 k: nat, inst: Name, shared: bool, keep: set<Name>, se: nat)
    requires CutReady(m, k, inst, se, keep) && FaultBelow(f, k)
    requires Settled(lib, m, f, env, st, w)
    requires !w(se) && env(Made(Ppi, inst), 0) == st(inst)
    ensures var q, ids := QNet(m.cells[inst]), CutIds(m, k, inst, shared);
            var v := Extended(w, k, m.cells[inst], ids, st(inst));
            && Settled(lib, Cut(m, k, inst, shared, keep), SubFault(f, q, ids.drive), env, st, v) && !v(se)
            && v(ids.ppo) == NextVal(m.cells[inst], st(inst), w)
            && AgreeBelow(Pull(v, q, ids.drive), w, k)
  {
    var c := m.cells[inst];
    var q, ids := QNet(c), CutIds(m, k, inst, shared);
    var v, g := Extended(w, k, c, ids, st(inst)), SubFault(f, q, ids.drive);
    assert q < k by { assert c.conns[Q][0].Net?; }
    ExtendedPulls(w, k, c, ids, st(inst));
    assert Settled(lib, Without(m, inst), f, env, st, w);
    SettledAgree(lib, Without(m, inst), f, env, st, w, Pull(v, q, ids.drive), k);
    SettledSub(lib, Without(m, inst), f, env, st, v, q, ids.drive, keep, k);
    GatesFromFlop(lib, f, env, st, w, inst, c, k, shared, se);
    CutSettles(lib, m, g, env, st, v, k, inst, shared, keep, se);
  }

  lemma CutSettles(lib: Library, m: Module, g: Fault, env: Inputs, st: State, v: Valuation,
                   k: nat, inst: Name, shared: bool, keep: set<Name>, se: nat)
    requires CutReady(m, k, inst, se, keep)
    requires var ids := CutIds(m, k, inst, shared);
             var c := SubCell(m.cells[inst], QNet(m.cells[inst]), ids.drive);
             var qg := QGates(inst, c.kind.ctl, OneBit(c, CTRL), ids);
             var dg := DGates(inst, c.kind.ctl, OneBit(c, D), BranchD(c, shared), ids);
             && (forall x :: x in qg ==> CellOk(lib, g, qg[x], st(x), v))
             && (forall x :: x in dg ==> CellOk(lib, g, dg[x], st(x), v))
             && PortOk(g, env, Made(Ppi, inst), Port(Input, [Net(ids.ppi)]), v)
             && Settled(lib, Substitute(Without(m, inst), QNet(m.cells[inst]), ids.drive, keep), g, env, st, v)
    ensures Settled(lib, Cut(m, k, inst, shared, keep), g, env, st, v)
  {
    hide QGates, DGates, BranchD, OneBit, CellOk, Below, SubBits, KeptPortsAvoid;
    var ids := CutIds(m, k, inst, shared);
    var view, c := Cut(m, k, inst, shared, keep), SubCell(m.cells[inst], QNet(m.cells[inst]), ids.drive);
    var rest := Substitute(Without(m, inst), QNet(m.cells[inst]), ids.drive, keep);
    CutKeeps(m, k, inst, shared, keep, se);
    assert Rewired(m, k, inst, shared, keep).cells[inst] == c;
    forall x | x in view.cells ensures CellOk(lib, g, view.cells[x], st(x), v) {
      if x in rest.cells {
        assert view.cells[x] == rest.cells[x];
      }
    }
    forall name | name in view.ports ensures PortOk(g, env, name, view.ports[name], v) {
      if name in rest.ports {
        assert view.ports[name] == rest.ports[name];
      }
    }
  }
}
