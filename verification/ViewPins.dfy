/** What the D and control branches of the reduced view are for (faultflow/scan/atpg_view.py
    _resolve_d_observe_boundary, _add_ctrl_branch): a net of its own for one flop's D or
    control pin, so that this pin can be stuck while every other reader of its net is not. */
module ViewPins {
  import opened Netlist
  import opened ScanView
  import opened ViewMeaning
  import opened ViewDrop
  import opened ViewFinish

  /* ---- one pin tied ---- */

  function TiedPin(c: Cell, p: Pin, b: bool): Cell { c.(conns := c.conns[p := [Lit(b)]]) }

  // The netlist with one pin of a flop stuck: what it reads there is the constant.
  function PinStuck(g: Module, inst: Name, pin: Pin, b: bool): Module
    requires inst in g.cells
  {
    g.(cells := g.cells[inst := TiedPin(g.cells[inst], pin, b)])
  }

  // The pins that can have a branch, its cell and its net.
  function TapTag(pin: Pin): Tag { if pin == D then DBranch else CtrlBranch }

  function TapId(ids: Ids, pin: Pin): nat { if pin == D then ids.dbranch else ids.branch }

  predicate HasTap(c: Cell, shared: bool, pin: Pin)
  {
    if pin == D then BranchD(c, shared) else pin == CTRL && c.kind.Scan? && !c.kind.ctl.NoControl?
  }

  // Two modules that differ in one tied pin.
  ghost predicate DiffersAt(m: Module, m': Module, x: Name, p: Pin, b: bool)
  {
    x in m.cells && p in m.cells[x].conns && m'.ports == m.ports && m'.cells == m.cells[x := TiedPin(m.cells[x], p, b)]
  }

  lemma SubTied(c: Cell, p: Pin, b: bool, q: nat, r: nat)
    ensures SubCell(TiedPin(c, p, b), q, r) == TiedPin(SubCell(c, q, r), p, b)
  {
    var a, z := SubCell(TiedPin(c, p, b), q, r).conns, TiedPin(SubCell(c, q, r), p, b).conns;
    assert SubBits([Lit(b)], q, r) == [Lit(b)];
    assert a.Keys == z.Keys;
    assert a == z;
  }

  lemma SubDiffers(m: Module, m': Module, x: Name, p: Pin, b: bool, q: nat, r: nat, keep: set<Name>)
    requires DiffersAt(m, m', x, p, b)
    ensures DiffersAt(Substitute(m, q, r, keep), Substitute(m', q, r, keep), x, p, b)
  {
    SubTied(m.cells[x], p, b, q, r);
    hide SubBits, TiedPin;
    var a, z := Substitute(m, q, r, keep), Substitute(m', q, r, keep);
    assert a.ports == z.ports;
    assert z.cells == a.cells[x := TiedPin(a.cells[x], p, b)];
  }

  lemma RewiredDiffers(m: Module, m': Module, k: nat, inst: Name, shared: bool, keep: set<Name>, x: Name, p: Pin, b: bool)
    requires inst in m.cells && m.cells[inst].kind.Scan? && DiffersAt(m, m', x, p, b) && p != Q
    requires x == inst ==> HasTap(m.cells[inst], shared, p)
    ensures inst in m'.cells && m'.cells[inst].kind == m.cells[inst].kind && CutIds(m', k, inst, shared) == CutIds(m, k, inst, shared)
    ensures DiffersAt(Rewired(m, k, inst, shared, keep), Rewired(m', k, inst, shared, keep), x, p, b)
  {
    assert QNet(m'.cells[inst]) == QNet(m.cells[inst]) && BranchD(m'.cells[inst], shared) == BranchD(m.cells[inst], shared);
    hide QNet, BranchD, IdsFrom, Substitute;
    SubDiffers(m, m', x, p, b, QNet(m.cells[inst]), CutIds(m, k, inst, shared).drive, keep);
  }

  // The gates of a cut have names of their own.
  lemma NotAGate(m: Module, k: nat, inst: Name, se: nat, keep: set<Name>, x: Name, gates: map<Name, Cell>)
    requires CutReady(m, k, inst, se, keep) && x in m.cells && forall y :: y in gates ==> y.Made? && y.base == inst && ViewTag(y.tag)
    ensures x !in gates
  {
    assert forall y :: y in gates ==> y == Made(y.tag, inst);
  }

  lemma ReadyScan(m: Module, k: nat, inst: Name, se: nat, keep: set<Name>)
    requires CutReady(m, k, inst, se, keep)
    ensures inst in m.cells && m.cells[inst].kind.Scan? && D in m.cells[inst].conns && |m.cells[inst].conns[D]| == 1
  {}

  // Cutting another flop leaves the difference where it is.
  lemma CutOther(m: Module, m': Module, k: nat, inst: Name, shared: bool, keep: set<Name>, se: nat, x: Name, p: Pin, b: bool)
    requires CutReady(m, k, inst, se, keep) && x != inst && DiffersAt(m, m', x, p, b) && p != Q
    ensures inst in m'.cells && m'.cells[inst].kind.Scan? && m.cells[inst].kind.Scan?
    ensures DiffersAt(Cut(m, k, inst, shared, keep), Cut(m', k, inst, shared, keep), x, p, b)
    ensures CutIds(m', k, inst, shared) == CutIds(m, k, inst, shared)
  {
    hide *;
    ReadyScan(m, k, inst, se, keep);
    RewiredDiffers(m, m', k, inst, shared, keep, x, p, b);
    CutParts(m, k, inst, shared, keep);
    CutParts(m', k, inst, shared, keep);
    var r, r' := Rewired(m, k, inst, shared, keep), Rewired(m', k, inst, shared, keep);
    RewiredBranch(m, k, inst, shared, keep);
    SameElsewhere(r, r', x, p, b, inst);
    var c, ids := r.cells[inst], CutIds(m, k, inst, shared);
    var gates := QGates(inst, c.kind.ctl, OneBit(c, CTRL), ids) + DGates(inst, c.kind.ctl, OneBit(c, D), BranchD(c, shared), ids);
    GateNames(inst, c, shared, ids);
    DiffersIn(m, m', x, p, b);
    NotAGate(m, k, inst, se, keep, x, gates);
    JoinOther(r, r', x, p, b, inst, gates, Cut(m, k, inst, shared, keep), Cut(m', k, inst, shared, keep));
  }

  lemma DiffersIn(m: Module, m': Module, x: Name, p: Pin, b: bool)
    requires DiffersAt(m, m', x, p, b)
    ensures x in m.cells && x in m'.cells && m'.cells[x] == TiedPin(m.cells[x], p, b) && m'.ports == m.ports && m'.cells.Keys == m.cells.Keys
  {}

  lemma SameElsewhere(m: Module, m': Module, x: Name, p: Pin, b: bool, y: Name)
    requires DiffersAt(m, m', x, p, b) && y != x && y in m.cells
    ensures y in m'.cells && m'.cells[y] == m.cells[y] && m'.ports == m.ports
  {}

  lemma GateNames(inst: Name, c: Cell, shared: bool, ids: Ids)
    requires c.kind.Scan?
    ensures var gates := QGates(inst, c.kind.ctl, OneBit(c, CTRL), ids) + DGates(inst, c.kind.ctl, OneBit(c, D), BranchD(c, shared), ids);
            forall y :: y in gates ==> y.Made? && y.base == inst && ViewTag(y.tag)
  {
    hide QGates, DGates, BranchD, OneBit;
  }

  lemma JoinOther(r: Module, r': Module, x: Name, p: Pin, b: bool, inst: Name, gates: map<Name, Cell>, v: Module, v': Module)
    requires DiffersAt(r, r', x, p, b) && x != inst && x !in gates
    requires v.cells == (r.cells - {inst}) + gates && v'.cells == (r'.cells - {inst}) + gates && v.ports == v'.ports
    ensures DiffersAt(v, v', x, p, b)
  {
    hide TiedPin;
    assert v'.cells == v.cells[x := TiedPin(v.cells[x], p, b)];
  }

  // Cutting the flop itself moves the difference to the branch of the pin.
  lemma CutOwn(m: Module, m': Module, k: nat, inst: Name, shared: bool, keep: set<Name>, se: nat, pin: Pin, b: bool)
    requires CutReady(m, k, inst, se, keep) && DiffersAt(m, m', inst, pin, b) && HasTap(m.cells[inst], shared, pin)
    ensures inst in m'.cells && m'.cells[inst].kind.Scan? && m.cells[inst].kind.Scan?
    ensures DiffersAt(Cut(m, k, inst, shared, keep), Cut(m', k, inst, shared, keep), Made(TapTag(pin), inst), A, b)
    ensures CutIds(m', k, inst, shared) == CutIds(m, k, inst, shared)
    ensures IsBuffer(Cut(m, k, inst, shared, keep), Made(TapTag(pin), inst), TapId(CutIds(m, k, inst, shared), pin))
  {
    TapPins(m.cells[inst], shared, pin);
    hide *;
    ReadyScan(m, k, inst, se, keep);
    CutParts(m, k, inst, shared, keep);
    OwnParts(m, m', k, inst, shared, keep, se, pin, b);
    RewiredTap(m, k, inst, shared, keep, pin);
    RewiredBranch(m, k, inst, shared, keep);
    var c, ids := Rewired(m, k, inst, shared, keep).cells[inst], CutIds(m, k, inst, shared);
    TapNames(pin, ids);
    OwnGates(Rewired(m, k, inst, shared, keep).cells - {inst}, inst, c, shared, pin, b, ids);
    TiedThere(Cut(m, k, inst, shared, keep), Cut(m', k, inst, shared, keep), Made(TapTag(pin), inst), OneBit(c, pin), TapId(ids, pin), b);
  }

  // The gates of the flop, with the constant on a pin.
  function OwnCells(inst: Name, c: Cell, shared: bool, line: Bit, d: Bit, ids: Ids): map<Name, Cell>
    requires c.kind.Scan?
  {
    QGates(inst, c.kind.ctl, line, ids) + DGates(inst, c.kind.ctl, d, BranchD(c, shared), ids)
  }

  lemma OwnParts(m: Module, m': Module, k: nat, inst: Name, shared: bool, keep: set<Name>, se: nat, pin: Pin, b: bool)
    requires CutReady(m, k, inst, se, keep) && DiffersAt(m, m', inst, pin, b) && HasTap(m.cells[inst], shared, pin)
    ensures inst in m'.cells && m'.cells[inst].kind.Scan? && m.cells[inst].kind.Scan? && inst in Rewired(m, k, inst, shared, keep).cells
    ensures CutIds(m', k, inst, shared) == CutIds(m, k, inst, shared)
    ensures var r, ids := Rewired(m, k, inst, shared, keep), CutIds(m, k, inst, shared);
            var c := r.cells[inst];
            && c.kind.Scan? && Cut(m', k, inst, shared, keep).ports == Cut(m, k, inst, shared, keep).ports
            && Cut(m, k, inst, shared, keep).cells == (r.cells - {inst}) + OwnCells(inst, c, shared, OneBit(c, CTRL), OneBit(c, D), ids)
            && Cut(m', k, inst, shared, keep).cells == (r.cells - {inst})
                 + OwnCells(inst, c, shared, if pin == CTRL then Lit(b) else OneBit(c, CTRL), if pin == D then Lit(b) else OneBit(c, D), ids)
  {
    TapPins(m.cells[inst], shared, pin);
    hide *;
    ReadyScan(m, k, inst, se, keep);
    RewiredDiffers(m, m', k, inst, shared, keep, inst, pin, b);
    CutParts(m, k, inst, shared, keep);
    CutParts(m', k, inst, shared, keep);
    var r, r' := Rewired(m, k, inst, shared, keep), Rewired(m', k, inst, shared, keep);
    DiffersIn(r, r', inst, pin, b);
    OwnElsewhere(r, r', inst, pin, b);
    RewiredBranch(m, k, inst, shared, keep);
    RewiredTap(m, k, inst, shared, keep, pin);
    var c, ids := r.cells[inst], CutIds(m, k, inst, shared);
    TiedParts(c, pin, b, shared);
    OwnIs(inst, c, shared, OneBit(c, CTRL), OneBit(c, D), ids);
    OwnIs(inst, c, shared, if pin == CTRL then Lit(b) else OneBit(c, CTRL), if pin == D then Lit(b) else OneBit(c, D), ids);
  }

  lemma OwnIs(inst: Name, c: Cell, shared: bool, line: Bit, d: Bit, ids: Ids)
    requires c.kind.Scan?
    ensures OwnCells(inst, c, shared, line, d, ids) == QGates(inst, c.kind.ctl, line, ids) + DGates(inst, c.kind.ctl, d, BranchD(c, shared), ids)
  {}

  lemma OwnGates(rest: map<Name, Cell>, inst: Name, c: Cell, shared: bool, pin: Pin, b: bool, ids: Ids)
    requires c.kind.Scan? && HasTap(c, shared, pin)
    ensures var x := Made(TapTag(pin), inst);
            var own := OwnCells(inst, c, shared, OneBit(c, CTRL), OneBit(c, D), ids);
            var own' := OwnCells(inst, c, shared, if pin == CTRL then Lit(b) else OneBit(c, CTRL), if pin == D then Lit(b) else OneBit(c, D), ids);
            && x in rest + own && (rest + own)[x] == BufCell(OneBit(c, pin), TapId(ids, pin))
            && rest + own' == (rest + own)[x := BufCell(Lit(b), TapId(ids, pin))]
  {
    TapPins(c, shared, pin);
    TapNames(pin, ids);
    hide TapTag, TapId, HasTap, BranchD, OneBit, QGates, DGates, BufCell;
    if pin == D {
      GatesDiffer(inst, c.kind.ctl, OneBit(c, D), b, ids);
      JoinDiffers(rest, QGates(inst, c.kind.ctl, OneBit(c, CTRL), ids), DGates(inst, c.kind.ctl, OneBit(c, D), true, ids),
                  DGates(inst, c.kind.ctl, Lit(b), true, ids), Made(DBranch, inst), BufCell(Lit(b), ids.dbranch));
    } else {
      ControlDiffers(inst, c.kind.ctl, OneBit(c, CTRL), b, ids);
      JoinFirst(rest, QGates(inst, c.kind.ctl, OneBit(c, CTRL), ids), QGates(inst, c.kind.ctl, Lit(b), ids),
                DGates(inst, c.kind.ctl, OneBit(c, D), BranchD(c, shared), ids), Made(CtrlBranch, inst), BufCell(Lit(b), ids.branch));
    }
  }

  lemma TapPins(c: Cell, shared: bool, pin: Pin)
    requires HasTap(c, shared, pin)
    ensures pin == D || pin == CTRL
    ensures pin != Q && (pin == CTRL ==> c.kind.Scan? && !c.kind.ctl.NoControl?) && (pin == D ==> BranchD(c, shared))
  {}

  lemma TapNames(pin: Pin, ids: Ids)
    ensures pin == D ==> TapTag(pin) == DBranch && TapId(ids, pin) == ids.dbranch
    ensures pin == CTRL ==> TapTag(pin) == CtrlBranch && TapId(ids, pin) == ids.branch
  {}

  lemma OwnElsewhere(r: Module, r': Module, inst: Name, pin: Pin, b: bool)
    requires DiffersAt(r, r', inst, pin, b)
    ensures r'.cells - {inst} == r.cells - {inst}
  {}

  lemma TiedParts(c: Cell, pin: Pin, b: bool, shared: bool)
    requires HasTap(c, shared, pin)
    ensures var c' := TiedPin(c, pin, b);
            && OneBit(c', pin) == Lit(b) && c'.kind == c.kind && BranchD(c', shared) == BranchD(c, shared)
            && (pin == D ==> BranchD(c, shared) && OneBit(c', CTRL) == OneBit(c, CTRL)) && (pin == CTRL ==> OneBit(c', D) == OneBit(c, D))
  {}

  // The control line is read by its branch alone.
  lemma ControlDiffers(inst: Name, ctl: Control, line: Bit, b: bool, ids: Ids)
    requires !ctl.NoControl?
    ensures var x := Made(CtrlBranch, inst);
            && x in QGates(inst, ctl, line, ids) && QGates(inst, ctl, line, ids)[x] == BufCell(line, ids.branch)
            && QGates(inst, ctl, Lit(b), ids) == QGates(inst, ctl, line, ids)[x := BufCell(Lit(b), ids.branch)]
  {
    hide BufCell, InvCell, Gate2;
  }

  lemma JoinFirst(rest: map<Name, Cell>, q: map<Name, Cell>, q': map<Name, Cell>, d: map<Name, Cell>, x: Name, c: Cell)
    requires x in q && q' == q[x := c] && x !in d
    ensures rest + (q' + d) == (rest + (q + d))[x := c] && x in rest + (q + d) && (rest + (q + d))[x] == q[x]
  {}

  lemma RewiredTap(m: Module, k: nat, inst: Name, shared: bool, keep: set<Name>, pin: Pin)
    requires inst in m.cells && m.cells[inst].kind.Scan? && D in m.cells[inst].conns && |m.cells[inst].conns[D]| == 1
    ensures inst in Rewired(m, k, inst, shared, keep).cells
    ensures HasTap(Rewired(m, k, inst, shared, keep).cells[inst], shared, pin) == HasTap(m.cells[inst], shared, pin)
  {
    RewiredBranch(m, k, inst, shared, keep);
    hide Rewired, BranchD;
  }

  lemma RewiredBranch(m: Module, k: nat, inst: Name, shared: bool, keep: set<Name>)
    requires inst in m.cells && m.cells[inst].kind.Scan? && D in m.cells[inst].conns && |m.cells[inst].conns[D]| == 1
    ensures inst in Rewired(m, k, inst, shared, keep).cells
    ensures BranchD(Rewired(m, k, inst, shared, keep).cells[inst], shared) == BranchD(m.cells[inst], shared)
    ensures Rewired(m, k, inst, shared, keep).cells[inst].kind == m.cells[inst].kind
  {
    BranchKept(m.cells[inst], QNet(m.cells[inst]), CutIds(m, k, inst, shared).drive, shared);
    hide BranchD, QNet, IdsFrom;
  }

  ghost predicate IsBuffer(m: Module, x: Name, n: nat) { x in m.cells && exists a :: m.cells[x] == BufCell(a, n) }

  lemma BranchKept(c: Cell, q: nat, r: nat, shared: bool)
    requires D in c.conns && |c.conns[D]| == 1
    ensures BranchD(SubCell(c, q, r), shared) == BranchD(c, shared)
  {}

  lemma CutParts(m: Module, k: nat, inst: Name, shared: bool, keep: set<Name>)
    requires inst in m.cells && m.cells[inst].kind.Scan?
    ensures var ids, r := CutIds(m, k, inst, shared), Rewired(m, k, inst, shared, keep);
            var c := r.cells[inst];
            && Cut(m, k, inst, shared, keep).cells == (r.cells - {inst}) + (QGates(inst, c.kind.ctl, OneBit(c, CTRL), ids) + DGates(inst, c.kind.ctl, OneBit(c, D), BranchD(c, shared), ids))
            && Cut(m, k, inst, shared, keep).ports == r.ports[Made(Ppi, inst) := Port(Input, [Net(ids.ppi)])][Made(Ppo, inst) := Port(Output, [Net(ids.ppo)])]
  {
    hide QGates, DGates, SubBits;
  }

  lemma GatesDiffer(inst: Name, ctl: Control, d: Bit, b: bool, ids: Ids)
    ensures var x := Made(DBranch, inst);
            && x in DGates(inst, ctl, d, true, ids) && DGates(inst, ctl, d, true, ids)[x] == BufCell(d, ids.dbranch)
            && DGates(inst, ctl, Lit(b), true, ids) == DGates(inst, ctl, d, true, ids)[x := BufCell(Lit(b), ids.dbranch)]
  {
    hide BufCell, DMuxGates;
    var x := Made(DBranch, inst);
    var rest := DMuxGates(inst, ctl, Net(ids.dbranch), ids) + map[Made(Observe, inst) := BufCell(if ctl.NoControl? then Net(ids.dbranch) else Net(ids.dmux), ids.ppo)];
    assert x !in rest;
    assert DGates(inst, ctl, d, true, ids) == map[x := BufCell(d, ids.dbranch)] + rest;
    assert DGates(inst, ctl, Lit(b), true, ids) == map[x := BufCell(Lit(b), ids.dbranch)] + rest;
  }

  lemma JoinDiffers(rest: map<Name, Cell>, q: map<Name, Cell>, d: map<Name, Cell>, d': map<Name, Cell>, x: Name, c: Cell)
    requires x in d && d' == d[x := c]
    ensures rest + (q + d') == (rest + (q + d))[x := c] && x in rest + (q + d) && (rest + (q + d))[x] == d[x]
  {}

  lemma TiedThere(m: Module, m': Module, x: Name, a: Bit, n: nat, b: bool)
    requires x in m.cells && m.cells[x] == BufCell(a, n) && m'.ports == m.ports && m'.cells == m.cells[x := BufCell(Lit(b), n)]
    ensures DiffersAt(m, m', x, A, b) && IsBuffer(m, x, n)
  {
    assert BufCell(a, n).conns[A := [Lit(b)]] == BufCell(Lit(b), n).conns;
  }

  /* ---- through all the cuts ---- */

  // The setup with the flop's pin stuck.
  function PinSetup(s: Setup, inst: Name, pin: Pin, b: bool): Setup
    requires inst in s.g.cells
  {
    s.(g := PinStuck(s.g, inst, pin, b))
  }

  lemma StuckDiffers(g: Module, inst: Name, pin: Pin, b: bool)
    requires inst in g.cells && pin in g.cells[inst].conns
    ensures DiffersAt(g, PinStuck(g, inst, pin, b), inst, pin, b)
  {}

  lemma TiedShape(c: Cell, se: nat, pin: Pin, b: bool)
    requires ScanShape(c, se) && (pin == D || pin == CTRL)
    ensures ScanShape(TiedPin(c, pin, b), se) && QNet(TiedPin(c, pin, b)) == QNet(c)
  {}

  lemma TiedBelow(c: Cell, pin: Pin, b: bool, k: nat)
    requires CellBelow(c, k)
    ensures CellBelow(TiedPin(c, pin, b), k)
  {
    var t := TiedPin(c, pin, b);
    forall p | p in t.conns ensures BitsBelow(t.conns[p], k) {
      assert p != pin ==> BitsBelow(c.conns[p], k);
    }
  }

  lemma StuckReady(m: Module, k: nat, inst: Name, pin: Pin, b: bool, x: Name, se: nat, keep: set<Name>)
    requires inst in m.cells && CutReady(m, k, x, se, keep) && (pin == D || pin == CTRL)
    requires inst == x || ScanShape(m.cells[inst], se)
    ensures CutReady(PinStuck(m, inst, pin, b), k, x, se, keep) && QNet(PinStuck(m, inst, pin, b).cells[x]) == QNet(m.cells[x])
  {
    var m' := PinStuck(m, inst, pin, b);
    TiedShape(m.cells[inst], se, pin, b);
    TiedBelow(m.cells[inst], pin, b, k);
    hide ScanShape, CellBelow, QNet, TiedPin;
  }

  lemma StuckValid(s: Setup, inst: Name, pin: Pin, b: bool)
    requires s.Valid() && inst in s.order && (pin == D || pin == CTRL)
    ensures inst in s.g.cells && PinSetup(s, inst, pin, b).Valid()
  {
    assert inst in Elems(s.order);
    var m' := PinStuck(s.g, inst, pin, b);
    TiedBelow(s.g.cells[inst], pin, b, s.next);
    assert Below(m', s.next) by { hide CellBelow, TiedPin, Ready; }
    forall x | x in Elems(s.order) ensures CutReady(m', s.next, x, s.se, s.keep) && QNet(m'.cells[x]) == QNet(s.g.cells[x]) {
      StuckReady(s.g, s.next, inst, pin, b, x, s.se, s.keep);
    }
    hide CutReady, PinStuck, QNet, Below;
  }

  // The index of a flop in the order, and the net of a pin's branch.
  ghost function IndexIn(order: seq<Name>, inst: Name): (i: nat)
    requires inst in order
    ensures i < |order| && order[i] == inst
  {
    var i :| 0 <= i < |order| && order[i] == inst; i
  }

  ghost function TapAt(s: Setup, j: nat, pin: Pin): nat
    requires j < |s.order|
  {
    var b, inst := s.At(j), s.order[j];
    if inst in b.m.cells && b.m.cells[inst].kind.Scan? then TapId(CutIds(b.m, b.next, inst, s.shared(inst)), pin) else 0
  }

  // One step of the build, cell by cell.
  lemma StepCells(s: Setup, i: nat, x: Name) returns (drive: nat)
    requires s.Valid() && i < |s.order| && x in s.At(i).m.cells && x != s.order[i]
    ensures s.At(i).next <= drive < s.At(i + 1).next && s.order[i] in s.At(i).m.cells && x in s.At(i + 1).m.cells
    ensures s.At(i + 1).m.cells[x] == SubCell(s.At(i).m.cells[x], QNet(s.At(i).m.cells[s.order[i]]), drive)
  {
    hide Setup.Valid, Setup.At, Cut, CutReady, SubCell, QNet, Below, SubFault, Setup.FaultAt, FaultBelow;
    assert FaultBelow(NoFault, s.next) by { NoFaultBelow(s.next); }
    var ids, b' := StepAt(s, NoFault, i);
    drive := ids.drive;
  }

  lemma NoFaultBelow(k: nat)
    ensures FaultBelow(NoFault, k)
  {}

  lemma StepNext(s: Setup, i: nat)
    requires s.Valid() && i < |s.order|
    ensures s.At(i).next <= s.At(i + 1).next
  {
    hide Setup.Valid, Setup.At, Cut, CutReady, SubCell, QNet, Below, SubFault, Setup.FaultAt, FaultBelow;
    assert FaultBelow(NoFault, s.next) by { NoFaultBelow(s.next); }
    var ids, b' := StepAt(s, NoFault, i);
  }

  lemma DPinSub(c: Cell, q: nat, r: nat)
    requires D in c.conns && |c.conns[D]| == 1
    ensures D in SubCell(c, q, r).conns && |SubCell(c, q, r).conns[D]| == 1
  {}

  lemma StartFlop(s: Setup, j: nat)
    requires s.Valid() && j < |s.order|
    ensures s.order[j] in s.g.cells && D in s.g.cells[s.order[j]].conns && |s.g.cells[s.order[j]].conns[D]| == 1
    ensures QNet(s.g.cells[s.order[j]]) < s.next
  {
    assert s.order[j] in Elems(s.order);
    OneBitBelow(s.g.cells[s.order[j]], Q, s.next);
    hide Below;
  }

  // A flop still uncut keeps its D pin's kind.
  lemma {:induction false} StillBranches(s: Setup, j: nat, i: nat)
    requires s.Valid() && i <= j < |s.order|
    ensures s.order[j] in s.g.cells && s.order[j] in s.At(i).m.cells && D in s.At(i).m.cells[s.order[j]].conns
    ensures |s.At(i).m.cells[s.order[j]].conns[D]| == 1
    ensures BranchD(s.At(i).m.cells[s.order[j]], s.shared(s.order[j])) == BranchD(s.g.cells[s.order[j]], s.shared(s.order[j]))
  {
    hide *;
    var inst := s.order[j];
    StartFlop(s, j);
    AtStart(s);
    if i > 0 {
      StillBranches(s, j, i - 1);
      OrderDiffers(s, i - 1, j);
      var drive := StepCells(s, i - 1, inst);
      var c, q := s.At(i - 1).m.cells[inst], QNet(s.At(i - 1).m.cells[s.order[i - 1]]);
      BranchKept(c, q, drive, s.shared(inst));
      DPinSub(c, q, drive);
    }
  }

  // And whether a pin of it gets a branch.
  lemma {:induction false} StillTapped(s: Setup, j: nat, pin: Pin, i: nat)
    requires s.Valid() && i <= j < |s.order| && s.order[j] in s.g.cells
    ensures s.order[j] in s.At(i).m.cells
    ensures HasTap(s.At(i).m.cells[s.order[j]], s.shared(s.order[j]), pin) == HasTap(s.g.cells[s.order[j]], s.shared(s.order[j]), pin)
    ensures HasTap(s.g.cells[s.order[j]], s.shared(s.order[j]), pin) ==> pin in s.At(i).m.cells[s.order[j]].conns
  {
    hide *;
    var inst := s.order[j];
    StillBranches(s, j, i);
    StartTap(s, j, pin);
    AtStart(s);
    if i > 0 {
      StillTapped(s, j, pin, i - 1);
      StillBranches(s, j, i - 1);
      OrderDiffers(s, i - 1, j);
      var drive := StepCells(s, i - 1, inst);
      TapSub(s.At(i - 1).m.cells[inst], QNet(s.At(i - 1).m.cells[s.order[i - 1]]), drive, s.shared(inst), pin);
    }
  }

  lemma StartTap(s: Setup, j: nat, pin: Pin)
    requires s.Valid() && j < |s.order| && s.order[j] in s.g.cells
    ensures HasTap(s.g.cells[s.order[j]], s.shared(s.order[j]), pin) ==> pin in s.g.cells[s.order[j]].conns
  {
    assert s.order[j] in Elems(s.order);
    hide Below, QNet;
  }

  lemma TapSub(c: Cell, q: nat, r: nat, shared: bool, pin: Pin)
    requires D in c.conns && |c.conns[D]| == 1
    ensures HasTap(SubCell(c, q, r), shared, pin) == HasTap(c, shared, pin) && SubCell(c, q, r).conns.Keys == c.conns.Keys
  {
    BranchKept(c, q, r, shared);
    hide BranchD;
  }

  // The two builds side by side.
  ghost predicate Beside(s: Setup, s': Setup, j: nat, pin: Pin, b: bool, i: nat)
    requires i <= |s.order| && s'.order == s.order && j < |s.order|
  {
    && s'.At(i).next == s.At(i).next
    && (if i <= j then DiffersAt(s.At(i).m, s'.At(i).m, s.order[j], pin, b)
        else DiffersAt(s.At(i).m, s'.At(i).m, Made(TapTag(pin), s.order[j]), A, b) && IsBuffer(s.At(i).m, Made(TapTag(pin), s.order[j]), TapAt(s, j, pin)))
  }

  lemma {:induction false} BesideAll(s: Setup, j: nat, pin: Pin, b: bool, i: nat)
    requires s.Valid() && j < |s.order| && i <= |s.order| && s.order[j] in s.g.cells
    requires HasTap(s.g.cells[s.order[j]], s.shared(s.order[j]), pin) && PinSetup(s, s.order[j], pin, b).Valid()
    ensures Beside(s, PinSetup(s, s.order[j], pin, b), j, pin, b, i)
  {
    var s', inst := PinSetup(s, s.order[j], pin, b), s.order[j];
    if i == 0 {
      AtStart(s);
      AtStart(s');
      StillTapped(s, j, pin, 0);
      StuckDiffers(s.g, inst, pin, b);
    } else {
      BesideAll(s, j, pin, b, i - 1);
      hide *;
      BesideStep(s, s', j, pin, b, i - 1);
    }
  }

  lemma StepOf(s: Setup, i: nat)
    requires s.Valid() && i < |s.order|
    ensures var b, inst := s.At(i), s.order[i];
            && CutReady(b.m, b.next, inst, s.se, s.keep) && inst in b.m.cells && b.m.cells[inst].kind.Scan?
            && s.At(i + 1).m == Cut(b.m, b.next, inst, s.shared(inst), s.keep) && s.At(i + 1).next == CutIds(b.m, b.next, inst, s.shared(inst)).next
  {
    var ids, b' := StepAt(s, NoFault, i);
    AtStep(s, NoFault, i);
    hide CutAll, Cut, Stepped;
  }

  lemma BesideIs(s: Setup, s': Setup, j: nat, pin: Pin, b: bool, i: nat)
    requires i <= |s.order| && s'.order == s.order && j < |s.order| && Beside(s, s', j, pin, b, i)
    ensures s'.At(i).next == s.At(i).next
    ensures i <= j ==> DiffersAt(s.At(i).m, s'.At(i).m, s.order[j], pin, b)
    ensures i > j ==> DiffersAt(s.At(i).m, s'.At(i).m, Made(TapTag(pin), s.order[j]), A, b) && IsBuffer(s.At(i).m, Made(TapTag(pin), s.order[j]), TapAt(s, j, pin))
  {
    hide DiffersAt, IsBuffer, Setup.At, TapAt;
  }

  lemma IsBeside(s: Setup, s': Setup, j: nat, pin: Pin, b: bool, i: nat)
    requires i <= |s.order| && s'.order == s.order && j < |s.order| && s'.At(i).next == s.At(i).next
    requires i <= j ==> DiffersAt(s.At(i).m, s'.At(i).m, s.order[j], pin, b)
    requires i > j ==> DiffersAt(s.At(i).m, s'.At(i).m, Made(TapTag(pin), s.order[j]), A, b) && IsBuffer(s.At(i).m, Made(TapTag(pin), s.order[j]), TapAt(s, j, pin))
    ensures Beside(s, s', j, pin, b, i)
  {
    hide DiffersAt, IsBuffer, Setup.At, TapAt;
  }

  lemma TapAtIs(s: Setup, j: nat, pin: Pin)
    requires j < |s.order| && s.order[j] in s.At(j).m.cells && s.At(j).m.cells[s.order[j]].kind.Scan?
    ensures TapAt(s, j, pin) == TapId(CutIds(s.At(j).m, s.At(j).next, s.order[j], s.shared(s.order[j])), pin)
  {
    hide CutIds, Setup.At;
  }

  lemma OrderDiffers(s: Setup, i: nat, j: nat)
    requires s.Valid() && i < |s.order| && j < |s.order| && i != j
    ensures s.order[i] != s.order[j]
  {}

  lemma InTail(order: seq<Name>, i: nat, j: nat)
    requires i <= j < |order|
    ensures order[j] in Elems(order[i..])
  {
    assert order[i..][j - i] == order[j];
  }

  lemma OtherQ(s: Setup, i: nat, j: nat)
    requires s.Valid() && i < j < |s.order|
    ensures s.order[j] in s.At(i).m.cells && s.order[j] in s.At(i + 1).m.cells
    ensures QNet(s.At(i + 1).m.cells[s.order[j]]) == QNet(s.At(i).m.cells[s.order[j]])
  {
    StillBranches(s, j, i);
    StillBranches(s, j, i + 1);
    StaysReady(s, i);
    InTail(s.order, i, i);
    InTail(s.order, i, j);
    OrderDiffers(s, i, j);
    assert PlainKeep(s.keep);
    hide Setup.Valid, Setup.At, Cut, CutReady, SubCell, QNet, Below, SubFault, Setup.FaultAt, FaultBelow, Stepped, Elems, PlainKeep, BranchD;
    assert FaultBelow(NoFault, s.next) by { NoFaultBelow(s.next); }
    var ids, b' := StepAt(s, NoFault, i);
    OtherReady(s.At(i), b', s.order[i], s.order[j], s.se, ids, s.keep);
  }

  // A flop's output net is the netlist's until it is cut.
  lemma {:induction false} OutputStays(s: Setup, j: nat, i: nat)
    requires s.Valid() && i <= j < |s.order|
    ensures s.order[j] in s.At(i).m.cells && QNet(s.At(i).m.cells[s.order[j]]) < s.next
  {
    hide *;
    StartFlop(s, j);
    AtStart(s);
    if i > 0 {
      OutputStays(s, j, i - 1);
      OtherQ(s, i - 1, j);
    }
  }

  // A branch is no flop of the order.
  lemma BranchNotFlop(s: Setup, j: nat, pin: Pin, i: nat)
    requires s.Valid() && j < i < |s.order|
    ensures Made(TapTag(pin), s.order[j]) != s.order[i]
  {
    StepOf(s, j);
    StillBranches(s, i, j);
    hide CutAll, Cut;
    assert ViewTag(TapTag(pin)) && Made(TapTag(pin), s.order[j]) !in s.At(j).m.cells;
  }

  lemma {:induction false} NextGrows(s: Setup, j: nat, i: nat)
    requires s.Valid() && j <= i <= |s.order|
    ensures s.At(j).next <= s.At(i).next
    decreases i
  {
    hide *;
    if j < i {
      NextGrows(s, j, i - 1);
      StepNext(s, i - 1);
    }
  }

  lemma BufferSub(a: Bit, n: nat, q: nat, r: nat)
    requires n != q
    ensures SubCell(BufCell(a, n), q, r) == BufCell(SubBit(a, q, r), n)
  {
    var x, y := SubCell(BufCell(a, n), q, r).conns, BufCell(SubBit(a, q, r), n).conns;
    assert x[A] == y[A] && x[Y] == y[Y];
    assert x == y;
  }

  lemma TapFresh(s: Setup, j: nat, pin: Pin)
    requires s.Valid() && j < |s.order| && s.order[j] in s.g.cells && HasTap(s.g.cells[s.order[j]], s.shared(s.order[j]), pin)
    ensures s.next <= s.At(j).next <= TapAt(s, j, pin) < s.At(j + 1).next
  {
    hide *;
    StepOf(s, j);
    StillTapped(s, j, pin, j);
    NextGrows(s, 0, j);
    AtStart(s);
    TapAtIs(s, j, pin);
    var b, inst := s.At(j), s.order[j];
    CutIdsAre(b.m, b.next, inst, s.shared(inst));
    TapOrder(b.m.cells[inst], s.shared(inst), pin, b.next);
  }

  lemma CutIdsAre(m: Module, k: nat, inst: Name, shared: bool)
    requires inst in m.cells && m.cells[inst].kind.Scan?
    ensures CutIds(m, k, inst, shared) == IdsFrom(m.cells[inst].kind.ctl, BranchD(m.cells[inst], shared), k)
  {}

  lemma StillBuffer(s: Setup, j: nat, pin: Pin, i: nat)
    requires s.Valid() && j < i < |s.order| && s.order[j] in s.g.cells && HasTap(s.g.cells[s.order[j]], s.shared(s.order[j]), pin)
    requires IsBuffer(s.At(i).m, Made(TapTag(pin), s.order[j]), TapAt(s, j, pin))
    ensures IsBuffer(s.At(i + 1).m, Made(TapTag(pin), s.order[j]), TapAt(s, j, pin))
  {
    var x, n := Made(TapTag(pin), s.order[j]), TapAt(s, j, pin);
    BranchNotFlop(s, j, pin, i);
    TapFresh(s, j, pin);
    OutputStays(s, i, i);
    hide CutAll, Cut, CutReady, TapAt, BufCell, SubCell, QNet, BranchD;
    var ids, b' := StepAt(s, NoFault, i);
    var q := QNet(s.At(i).m.cells[s.order[i]]);
    var a :| s.At(i).m.cells[x] == BufCell(a, n);
    BufferSub(a, n, q, ids.drive);
    assert b'.m.cells[x] == SubCell(s.At(i).m.cells[x], q, ids.drive);
  }

  lemma BesideStep(s: Setup, s': Setup, j: nat, pin: Pin, b: bool, i: nat)
    requires s.Valid() && s'.Valid() && i < |s.order| && j < |s.order| && s'.order == s.order && s'.shared == s.shared && s'.keep == s.keep
    requires s.order[j] in s.g.cells && HasTap(s.g.cells[s.order[j]], s.shared(s.order[j]), pin) && Beside(s, s', j, pin, b, i)
    ensures Beside(s, s', j, pin, b, i + 1)
  {
    hide *;
    var x, inst := s.order[i], s.order[j];
    var a, a' := s.At(i), s'.At(i);
    StepOf(s, i);
    StepOf(s', i);
    if i <= j {
      StillTapped(s, j, pin, i);
    }
    TapPins(s.g.cells[inst], s.shared(inst), pin);
    BesideIs(s, s', j, pin, b, i);
    if i == j {
      CutOwn(a.m, a'.m, a.next, inst, s.shared(inst), s.keep, s.se, pin, b);
      TapAtIs(s, j, pin);
    } else if i < j {
      OrderDiffers(s, i, j);
      CutOther(a.m, a'.m, a.next, x, s.shared(x), s.keep, s.se, inst, pin, b);
    } else {
      BranchNotFlop(s, j, pin, i);
      CutOther(a.m, a'.m, a.next, x, s.shared(x), s.keep, s.se, Made(TapTag(pin), inst), A, b);
      StillBuffer(s, j, pin, i);
    }
    IsBeside(s, s', j, pin, b, i + 1);
  }

  /* ---- the branch net has one driver ---- */

  ghost predicate DrivesNet(c: Cell, n: nat) { exists p :: p in c.outs && p in c.conns && Net(n) in c.conns[p] }

  ghost predicate OnlyDriver(m: Module, x: Name, n: nat)
  {
    && (forall y :: y in m.cells && DrivesNet(m.cells[y], n) ==> y == x)
    && (forall name :: name in m.ports && m.ports[name].dir.Input? ==> Net(n) !in m.ports[name].bits)
  }

  lemma SubDrives(c: Cell, q: nat, r: nat, n: nat)
    requires n != r && DrivesNet(SubCell(c, q, r), n)
    ensures DrivesNet(c, n)
  {
    var d := SubCell(c, q, r);
    var p :| p in d.outs && p in d.conns && Net(n) in d.conns[p];
    var i :| 0 <= i < |d.conns[p]| && d.conns[p][i] == Net(n);
    assert c.conns[p][i] == Net(n);
  }

  lemma SubHas(bits: seq<Bit>, q: nat, r: nat, n: nat)
    requires n != r && Net(n) in SubBits(bits, q, r)
    ensures Net(n) in bits
  {
    var i :| 0 <= i < |bits| && SubBits(bits, q, r)[i] == Net(n);
    assert bits[i] == Net(n);
  }

  lemma GateDrives(a: Bit, b: Bit, kind: Kind, y: nat, n: nat)
    ensures DrivesNet(BufCell(a, y), n) ==> n == y
    ensures DrivesNet(InvCell(a, y), n) ==> n == y
    ensures DrivesNet(Gate2(kind, a, b, y), n) ==> n == y
  {}

  // What the gates of a cut drive is fresh, and only a branch drives its net.
  lemma QGatesDrive(inst: Name, ctl: Control, line: Bit, branchD: bool, k: nat, y: Name, n: nat)
    requires var ids := IdsFrom(ctl, branchD, k); y in QGates(inst, ctl, line, ids) && DrivesNet(QGates(inst, ctl, line, ids)[y], n)
    ensures k <= n <= IdsFrom(ctl, branchD, k).drive && (n == IdsFrom(ctl, branchD, k).branch ==> y == Made(CtrlBranch, inst))
  {
    var ids := IdsFrom(ctl, branchD, k);
    GateDrives(line, line, And2, ids.branch, n);
    GateDrives(Net(ids.ppi), Net(ids.branch), And2, ids.drive, n);
    GateDrives(Net(ids.branch), line, And2, ids.qinv, n);
    GateDrives(Net(ids.ppi), Net(ids.qinv), Or2, ids.drive, n);
    hide DrivesNet, BufCell, InvCell, Gate2;
  }

  lemma DGatesDrive(inst: Name, ctl: Control, d: Bit, branchD: bool, k: nat, y: Name, n: nat)
    requires var ids := IdsFrom(ctl, branchD, k); y in DGates(inst, ctl, d, branchD, ids) && DrivesNet(DGates(inst, ctl, d, branchD, ids)[y], n)
    ensures var ids := IdsFrom(ctl, branchD, k); ids.drive < n && (branchD && n == ids.dbranch ==> y == Made(DBranch, inst))
  {
    var ids := IdsFrom(ctl, branchD, k);
    var tap := if branchD then Net(ids.dbranch) else d;
    var seen := if ctl.NoControl? then tap else Net(ids.dmux);
    GateDrives(d, d, And2, ids.dbranch, n);
    GateDrives(tap, Net(ids.branch), And2, ids.dmux, n);
    GateDrives(Net(ids.branch), d, And2, ids.dinv, n);
    GateDrives(tap, Net(ids.dinv), Or2, ids.dmux, n);
    GateDrives(seen, d, And2, ids.ppo, n);
    hide DrivesNet, BufCell, InvCell, Gate2;
  }

  lemma IdsOrder(ctl: Control, branchD: bool, k: nat)
    ensures var ids := IdsFrom(ctl, branchD, k); k <= ids.ppi <= ids.drive < ids.ppo && k <= ids.drive && (branchD ==> ids.ppo < ids.dbranch)
  {}

  // A net that nothing drives, or that a cut hands out, in the module after a cut.
  lemma CutDrives(m: Module, k: nat, inst: Name, shared: bool, keep: set<Name>, y: Name, n: nat)
    requires inst in m.cells && m.cells[inst].kind.Scan? && D in m.cells[inst].conns && |m.cells[inst].conns[D]| == 1
    requires y in Cut(m, k, inst, shared, keep).cells && DrivesNet(Cut(m, k, inst, shared, keep).cells[y], n)
    requires n != CutIds(m, k, inst, shared).drive
    ensures || (y in m.cells && y != inst && DrivesNet(m.cells[y], n))
            || (n >= k && forall pin :: HasTap(m.cells[inst], shared, pin) && n == TapId(CutIds(m, k, inst, shared), pin) ==> y == Made(TapTag(pin), inst))
  {
    var ids, r := CutIds(m, k, inst, shared), Rewired(m, k, inst, shared, keep);
    CutParts(m, k, inst, shared, keep);
    RewiredBranch(m, k, inst, shared, keep);
    var c, q := r.cells[inst], QNet(m.cells[inst]);
    hide Cut, QGates, DGates, DrivesNet, BranchD, QNet, OneBit, SubCell;
    IdsOrder(c.kind.ctl, BranchD(c, shared), k);
    hide IdsFrom;
    if y in DGates(inst, c.kind.ctl, OneBit(c, D), BranchD(c, shared), ids) {
      DGatesDrive(inst, c.kind.ctl, OneBit(c, D), BranchD(c, shared), k, y, n);
    } else if y in QGates(inst, c.kind.ctl, OneBit(c, CTRL), ids) {
      QGatesDrive(inst, c.kind.ctl, OneBit(c, CTRL), BranchD(c, shared), k, y, n);
    } else {
      assert r.cells[y] == SubCell(m.cells[y], q, ids.drive);
      SubDrives(m.cells[y], q, ids.drive, n);
    }
  }

  lemma CutInputs(m: Module, k: nat, inst: Name, shared: bool, keep: set<Name>, name: Name, n: nat)
    requires inst in m.cells && m.cells[inst].kind.Scan?
    requires name in Cut(m, k, inst, shared, keep).ports && Cut(m, k, inst, shared, keep).ports[name].dir.Input?
    requires Net(n) in Cut(m, k, inst, shared, keep).ports[name].bits && n != CutIds(m, k, inst, shared).drive && n != CutIds(m, k, inst, shared).ppi
    ensures name in m.ports && m.ports[name].dir.Input? && Net(n) in m.ports[name].bits
  {
    var ids, q := CutIds(m, k, inst, shared), QNet(m.cells[inst]);
    CutParts(m, k, inst, shared, keep);
    hide Cut, QNet, IdsFrom, BranchD, SubBits;
    assert name in m.ports;
    if name !in keep {
      SubHas(m.ports[name].bits, q, ids.drive, n);
    }
  }

  lemma FreshUndriven(m: Module, k: nat, n: nat)
    requires Below(m, k) && n >= k
    ensures forall y :: y in m.cells ==> !DrivesNet(m.cells[y], n)
    ensures forall name :: name in m.ports ==> Net(n) !in m.ports[name].bits
  {
    forall y | y in m.cells ensures !DrivesNet(m.cells[y], n) {
      forall p | p in m.cells[y].conns ensures Net(n) !in m.cells[y].conns[p] {
        assert CellBelow(m.cells[y], k) && BitsBelow(m.cells[y].conns[p], k);
      }
    }
    forall name | name in m.ports ensures Net(n) !in m.ports[name].bits {
      assert BitsBelow(m.ports[name].bits, k);
    }
  }

  lemma DriverStep(m: Module, k: nat, inst: Name, shared: bool, keep: set<Name>, x: Name, n: nat)
    requires inst in m.cells && m.cells[inst].kind.Scan? && D in m.cells[inst].conns && |m.cells[inst].conns[D]| == 1
    requires n < k && OnlyDriver(m, x, n)
    ensures OnlyDriver(Cut(m, k, inst, shared, keep), x, n)
  {
    var m', ids := Cut(m, k, inst, shared, keep), CutIds(m, k, inst, shared);
    IdsOrder(m.cells[inst].kind.ctl, BranchD(m.cells[inst], shared), k);
    hide Cut, IdsFrom, DrivesNet, BranchD;
    forall y | y in m'.cells && DrivesNet(m'.cells[y], n) ensures y == x {
      CutDrives(m, k, inst, shared, keep, y, n);
    }
    forall name | name in m'.ports && m'.ports[name].dir.Input? ensures Net(n) !in m'.ports[name].bits {
      if Net(n) in m'.ports[name].bits {
        CutInputs(m, k, inst, shared, keep, name, n);
      }
    }
  }

  lemma DriverMade(m: Module, k: nat, inst: Name, shared: bool, keep: set<Name>, pin: Pin)
    requires inst in m.cells && m.cells[inst].kind.Scan? && D in m.cells[inst].conns && |m.cells[inst].conns[D]| == 1
    requires Below(m, k) && HasTap(m.cells[inst], shared, pin)
    ensures OnlyDriver(Cut(m, k, inst, shared, keep), Made(TapTag(pin), inst), TapId(CutIds(m, k, inst, shared), pin))
  {
    var m', n := Cut(m, k, inst, shared, keep), TapId(CutIds(m, k, inst, shared), pin);
    TapOrder(m.cells[inst], shared, pin, k);
    FreshUndriven(m, k, n);
    hide Cut, IdsFrom, DrivesNet, BranchD, Below, HasTap;
    forall y | y in m'.cells && DrivesNet(m'.cells[y], n) ensures y == Made(TapTag(pin), inst) {
      CutDrives(m, k, inst, shared, keep, y, n);
    }
    forall name | name in m'.ports && m'.ports[name].dir.Input? ensures Net(n) !in m'.ports[name].bits {
      if Net(n) in m'.ports[name].bits {
        CutInputs(m, k, inst, shared, keep, name, n);
      }
    }
  }

  // A branch net is fresh, and neither the pseudo-input's nor what drives the readers.
  lemma TapOrder(c: Cell, shared: bool, pin: Pin, k: nat)
    requires c.kind.Scan? && HasTap(c, shared, pin)
    ensures var ids := IdsFrom(c.kind.ctl, BranchD(c, shared), k); k <= TapId(ids, pin) < ids.next && TapId(ids, pin) != ids.drive && TapId(ids, pin) != ids.ppi
  {}

  lemma {:induction false} DriverStays(s: Setup, j: nat, pin: Pin, i: nat)
    requires s.Valid() && j < i <= |s.order| && s.order[j] in s.g.cells && HasTap(s.g.cells[s.order[j]], s.shared(s.order[j]), pin)
    ensures OnlyDriver(s.At(i).m, Made(TapTag(pin), s.order[j]), TapAt(s, j, pin))
    decreases i
  {
    hide *;
    var b, inst := s.At(i - 1), s.order[i - 1];
    StepOf(s, i - 1);
    StillBranches(s, i - 1, i - 1);
    if i == j + 1 {
      StillTapped(s, j, pin, j);
    }
    ReadyBelow(b.m, b.next, inst, s.se, s.keep);
    if i == j + 1 {
      TapAtIs(s, j, pin);
      DriverMade(b.m, b.next, inst, s.shared(inst), s.keep, pin);
    } else {
      DriverStays(s, j, pin, i - 1);
      TapFresh(s, j, pin);
      NextGrows(s, j + 1, i - 1);
      DriverStep(b.m, b.next, inst, s.shared(inst), s.keep, Made(TapTag(pin), s.order[j]), TapAt(s, j, pin));
    }
  }

  lemma ReadyBelow(m: Module, k: nat, inst: Name, se: nat, keep: set<Name>)
    requires CutReady(m, k, inst, se, keep)
    ensures Below(m, k)
  {}

  /* ---- the two semantics ---- */

  // The branch net stuck is the branch buffer reading a constant.
  lemma PinIsStem(lib: Library, m: Module, m': Module, x: Name, n: nat, b: bool, env: Inputs, st: State, u: Valuation)
    requires DiffersAt(m, m', x, A, b) && IsBuffer(m, x, n) && OnlyDriver(m, x, n)
    ensures Settled(lib, m, Stuck(n, b), env, st, u) <==> Settled(lib, m', NoFault, env, st, u)
  {
    var a :| m.cells[x] == BufCell(a, n);
    assert m'.cells[x] == BufCell(Lit(b), n) by { assert BufCell(a, n).conns[A := [Lit(b)]] == BufCell(Lit(b), n).conns; }
    BufOk(lib, NoFault, Lit(b), n, st(x), u);
    BufOk(lib, Stuck(n, b), a, n, st(x), u);
    forall y | y in m.cells && y != x ensures CellOk(lib, Stuck(n, b), m.cells[y], st(y), u) <==> CellOk(lib, NoFault, m'.cells[y], st(y), u) {
      OtherCell(lib, m.cells[y], n, b, st(y), u);
    }
    forall name | name in m.ports ensures PortOk(Stuck(n, b), env, name, m.ports[name], u) <==> PortOk(NoFault, env, name, m'.ports[name], u) {
      OtherPort(m.ports[name], name, n, b, env, u);
    }
    hide CellOk, PortOk, BufCell, TiedPin;
  }

  lemma OtherCell(lib: Library, c: Cell, n: nat, b: bool, s: bool, u: Valuation)
    requires !DrivesNet(c, n)
    ensures CellOk(lib, Stuck(n, b), c, s, u) <==> CellOk(lib, NoFault, c, s, u)
  {
    forall p, i | p in c.conns && p in c.outs && 0 <= i < |c.conns[p]| && c.conns[p][i].Net? ensures c.conns[p][i].id != n {
      assert c.conns[p][i] in c.conns[p];
    }
  }

  lemma OtherPort(port: Port, name: Name, n: nat, b: bool, env: Inputs, u: Valuation)
    requires port.dir.Input? ==> Net(n) !in port.bits
    ensures PortOk(Stuck(n, b), env, name, port, u) <==> PortOk(NoFault, env, name, port, u)
  {
    forall i | 0 <= i < |port.bits| && port.dir.Input? && port.bits[i].Net? ensures port.bits[i].id != n {
      assert port.bits[i] in port.bits;
    }
  }

  /** Nothing settles differently for a stuck D pin: only what the flop captures does. */
  lemma StuckSettles(lib: Library, g: Module, inst: Name, b: bool, env: Inputs, st: State, w: Valuation)
    requires inst in g.cells && g.cells[inst].kind.Scan? && D !in g.cells[inst].outs
    ensures Settled(lib, g, NoFault, env, st, w) <==> Settled(lib, PinStuck(g, inst, D, b), NoFault, env, st, w)
  {
    var c := g.cells[inst];
    var c' := TiedPin(c, D, b);
    forall p, i: nat ensures OutVal(lib, c', p, i, st(inst), w) == OutVal(lib, c, p, i, st(inst), w) {
      assert PinVal(w, c', SE) == PinVal(w, c, SE) && PinVal(w, c', CTRL) == PinVal(w, c, CTRL);
    }
    assert CellOk(lib, NoFault, c', st(inst), w) <==> CellOk(lib, NoFault, c, st(inst), w) by { TiedCellOk(lib, c, b, st(inst), w); }
    hide CellOk, PortOk, TiedPin;
    var m' := PinStuck(g, inst, D, b);
    forall y | y in g.cells && y != inst ensures m'.cells[y] == g.cells[y] {}
    assert m'.cells[inst] == c' && m'.cells.Keys == g.cells.Keys && m'.ports == g.ports;
  }

  lemma TiedCellOk(lib: Library, c: Cell, b: bool, s: bool, w: Valuation)
    requires D !in c.outs && forall p, i: nat :: OutVal(lib, TiedPin(c, D, b), p, i, s, w) == OutVal(lib, c, p, i, s, w)
    ensures CellOk(lib, NoFault, TiedPin(c, D, b), s, w) <==> CellOk(lib, NoFault, c, s, w)
  {
    hide OutVal;
    var c' := TiedPin(c, D, b);
    assert forall p :: p in c.outs && p in c.conns ==> c'.conns[p] == c.conns[p];
    assert c'.outs == c.outs;
  }

  // The flop whose D is stuck captures the constant, its control still acting.
  lemma StuckCaptures(c: Cell, b: bool, s: bool, w: Valuation, se: nat)
    requires ScanShape(c, se) && !w(se)
    ensures NextVal(TiedPin(c, D, b), s, w) == Override(c.kind.ctl, BitVal(w, OneBit(c, CTRL)), b)
  {
    var c' := TiedPin(c, D, b);
    assert !PinVal(w, c', SE) && PinVal(w, c', D) == b;
    assert !c.kind.ctl.NoControl? ==> PinVal(w, c', CTRL) == BitVal(w, OneBit(c, CTRL));
  }

  // A flop whose control is stuck is held at its value or not at all, whatever the line does.
  lemma StuckControls(lib: Library, c: Cell, b: bool, s: bool, w: Valuation, se: nat)
    requires ScanShape(c, se) && !w(se)
    ensures OutVal(lib, TiedPin(c, CTRL, b), Q, 0, s, w) == Override(c.kind.ctl, b, s)
    ensures NextVal(TiedPin(c, CTRL, b), s, w) == Override(c.kind.ctl, b, BitVal(w, OneBit(c, D)))
  {
    var c' := TiedPin(c, CTRL, b);
    assert !PinVal(w, c', SE) && PinVal(w, c', CTRL) == b && PinVal(w, c', D) == BitVal(w, OneBit(c, D));
  }

  // The pin's branch is in the view.
  ghost predicate Branched(s: Setup, inst: Name, pin: Pin)
  {
    inst in s.order && inst in s.g.cells && HasTap(s.g.cells[inst], s.shared(inst), pin)
  }

  lemma EndsBeside(s: Setup, j: nat, pin: Pin, b: bool)
    requires s.Valid() && j < |s.order| && Branched(s, s.order[j], pin)
    ensures var s', x, n := PinSetup(s, s.order[j], pin, b), Made(TapTag(pin), s.order[j]), |s.order|;
            && s'.Valid() && DiffersAt(s.At(n).m, s'.At(n).m, x, A, b) && IsBuffer(s.At(n).m, x, TapAt(s, j, pin)) && OnlyDriver(s.At(n).m, x, TapAt(s, j, pin))
            && TapAt(s, j, pin) < s.At(n).next
  {
    hide *;
    BranchedIs(s, s.order[j], pin);
    StuckValid(s, s.order[j], pin, b);
    BesideAll(s, j, pin, b, |s.order|);
    SetupIs(s, s.order[j], pin, b);
    BesideIs(s, PinSetup(s, s.order[j], pin, b), j, pin, b, |s.order|);
    DriverStays(s, j, pin, |s.order|);
    TapFresh(s, j, pin);
    NextGrows(s, j + 1, |s.order|);
  }

  lemma BranchedIs(s: Setup, inst: Name, pin: Pin)
    requires Branched(s, inst, pin)
    ensures inst in s.order && inst in s.g.cells && HasTap(s.g.cells[inst], s.shared(inst), pin) && (pin == D || pin == CTRL)
  {}

  lemma SetupIs(s: Setup, inst: Name, pin: Pin, b: bool)
    requires inst in s.g.cells
    ensures var s' := PinSetup(s, inst, pin, b);
            s'.order == s.order && s'.next == s.next && s'.keep == s.keep && s'.se == s.se && s'.g == PinStuck(s.g, inst, pin, b) && s'.g.ports == s.g.ports
  {}

  /* ---- the law ---- */

  // The net of a pin's branch in the view.
  ghost function BranchNet(s: Setup, inst: Name, pin: Pin): nat
    requires inst in s.order
  {
    TapAt(s, IndexIn(s.order, inst), pin)
  }

  lemma StuckLoaded(s: Setup, inst: Name, pin: Pin, b: bool, env: Inputs, st: State)
    requires inst in s.g.cells && Loaded(s, env, st)
    ensures Loaded(PinSetup(s, inst, pin, b), env, st)
  {}

  lemma StuckPorts(s: Setup, p: Finish, inst: Name, pin: Pin, b: bool)
    requires FinishReady(s, p) && inst in s.g.cells && pin != Q
    ensures PortsOk(PinStuck(s.g, inst, pin, b), Elems(s.order), p, s.se)
  {
    hide Setup.Valid;
    var m' := PinStuck(s.g, inst, pin, b);
    forall x | x in m'.cells ensures x in s.g.cells && QNet(m'.cells[x]) == QNet(s.g.cells[x]) {}
    hide QNet;
  }

  lemma FlopFacts(s: Setup, inst: Name)
    requires s.Valid() && inst in s.order
    ensures inst in s.g.cells && ScanShape(s.g.cells[inst], s.se) && s.g.cells[inst].kind.Scan? && D !in s.g.cells[inst].outs
  {
    assert inst in Elems(s.order);
  }

  lemma TracksParts(lib: Library, s: Setup, f: Fault, env: Inputs, st: State, w: Valuation, v: Valuation)
    requires Tracks(lib, s, f, env, st, w, v, |s.order|)
    ensures Settled(lib, s.At(|s.order|).m, s.FaultAt(f, |s.order|), env, st, v)
    ensures Mirrors(s.g, w, s.At(|s.order|).m, v, Elems(s.order), st, s.keep)
  {
    assert s.order[..|s.order|] == s.order;
    hide Settled, Mirrors, SameNext;
  }

  // Both sides after the cuts.
  lemma CutsForth(lib: Library, s: Setup, p: Finish, inst: Name, pin: Pin, b: bool, env: Inputs, st: State, w: Valuation) returns (u: Valuation)
    requires FinishReady(s, p) && Branched(s, inst, pin) && Loaded(s, env, st) && !env(p.sePort, 0) && Settled(lib, PinStuck(s.g, inst, pin, b), NoFault, env, st, w)
    ensures Settled(lib, s.At(|s.order|).m, Stuck(BranchNet(s, inst, pin), b), env, st, u)
    ensures Mirrors(PinStuck(s.g, inst, pin, b), w, s.At(|s.order|).m, u, Elems(s.order), st, s.keep)
  {
    hide *;
    ReadyParts(s, p);
    BranchedIs(s, inst, pin);
    var s', j, n := PinSetup(s, inst, pin, b), IndexIn(s.order, inst), |s.order|;
    SetupIs(s, inst, pin, b);
    FlopFacts(s, inst);
    EndsBeside(s, j, pin, b);
    StuckLoaded(s, inst, pin, b, env, st);
    StuckPorts(s, p, inst, pin, b);
    EnableIsLow(lib, s'.g, env, st, w, p, s.se, Elems(s.order));
    NoFaultBelow(s.next);
    u := CutForthAll(lib, s', NoFault, env, st, w, n);
    TracksParts(lib, s', NoFault, env, st, w, u);
    NoFaultStays(s', n);
    PinIsStem(lib, s.At(n).m, s'.At(n).m, Made(TapTag(pin), inst), TapAt(s, j, pin), b, env, st, u);
    SamePorts(s.At(n).m, s'.At(n).m, Made(TapTag(pin), inst), b);
    MirrorsPorts(s'.g, w, s'.At(n).m, s.At(n).m, u, Elems(s.order), st, s.keep);
    BranchNetIs(s, inst, pin);
  }

  lemma BranchNetIs(s: Setup, inst: Name, pin: Pin)
    requires inst in s.order
    ensures BranchNet(s, inst, pin) == TapAt(s, IndexIn(s.order, inst), pin)
  {}

  lemma ReadyParts(s: Setup, p: Finish)
    requires FinishReady(s, p)
    ensures s.Valid() && PlainKeep(p.drop) && PortsOk(s.g, Elems(s.order), p, s.se) && Distinct(s.order)
  {}

  lemma EnableIsLow(lib: Library, m: Module, env: Inputs, st: State, v: Valuation, p: Finish, se: nat, rest: set<Name>)
    requires PortsOk(m, rest, p, se) && Settled(lib, m, NoFault, env, st, v) && !env(p.sePort, 0)
    ensures !v(se)
  {
    EnableLow(lib, m, NoFault, env, st, v, p, se, rest);
  }

  lemma SamePorts(m: Module, m': Module, x: Name, b: bool)
    requires DiffersAt(m, m', x, A, b)
    ensures m'.ports == m.ports
  {}

  lemma MirrorsPorts(g: Module, w: Valuation, m: Module, m': Module, v: Valuation, cut: set<Name>, st: State, keep: set<Name>)
    requires Mirrors(g, w, m, v, cut, st, keep) && m'.ports == m.ports
    ensures Mirrors(g, w, m', v, cut, st, keep)
  {
    forall name | name in g.ports && name !in keep ensures ShowsPort(g, w, m', v, name) {
      assert ShowsPort(g, w, m, v, name);
    }
    forall inst | inst in cut ensures ShowsCapture(g, w, m', v, inst, st) {
      assert ShowsCapture(g, w, m, v, inst, st);
    }
  }

  lemma StuckBranchReady(s: Setup, p: Finish, inst: Name, pin: Pin, b: bool)
    requires FinishReady(s, p) && Branched(s, inst, pin)
    ensures BranchReady(Dropped(s, p), Stuck(BranchNet(s, inst, pin), b), Elems(s.order), p.drives)
  {
    hide *;
    ReadyParts(s, p);
    BranchedIs(s, inst, pin);
    NoFaultBelow(s.next);
    DroppedReady(s, p, NoFault);
    DroppedIs(s, p);
    EndsBeside(s, IndexIn(s.order, inst), pin, b);
    BranchNetIs(s, inst, pin);
    ReadyFault(Dropped(s, p), ViewFault(s, NoFault), BranchNet(s, inst, pin), b, Elems(s.order), p.drives);
  }

  lemma ReadyFault(b: Build, f: Fault, n: nat, value: bool, todo: set<Name>, drives: Name -> nat)
    requires BranchReady(b, f, todo, drives) && n < b.next
    ensures BranchReady(b, Stuck(n, value), todo, drives)
  {
    hide Below;
  }

  /** With the branch of a D or control pin stuck, the view shows what the netlist shows
      with this one pin stuck and every other reader of its net as it was: every kept
      output, and on every pseudo-output what the flop then captures. */
  lemma PinForth(lib: Library, s: Setup, p: Finish, inst: Name, pin: Pin, b: bool, env: Inputs, st: State, w: Valuation) returns (v: Valuation)
    requires FinishReady(s, p) && Branched(s, inst, pin) && Loaded(s, env, st) && !env(p.sePort, 0)
    requires Settled(lib, PinStuck(s.g, inst, pin, b), NoFault, env, st, w)
    ensures Settled(lib, ReducedView(s, p), Stuck(BranchNet(s, inst, pin), b), env, st, v)
    ensures Mirrors(PinStuck(s.g, inst, pin, b), w, ReducedView(s, p), v, Elems(s.order), st, s.keep + p.drop)
  {
    hide *;
    ReadyParts(s, p);
    BranchedIs(s, inst, pin);
    var n, f := |s.order|, Stuck(BranchNet(s, inst, pin), b);
    var u := CutsForth(lib, s, p, inst, pin, b, env, st, w);
    DropForth(lib, s.At(n).m, p.drop, f, env, st, u);
    StuckBranchReady(s, p, inst, pin, b);
    DroppedIs(s, p);
    v := BranchForthAll(lib, s, p, f, env, st, u, n);
    ViewIs(s, p);
    DropMirrors(PinStuck(s.g, inst, pin, b), w, s.At(n).m, u, u, Elems(s.order), st, s.keep, p.drop, ReducedView(s, p), v);
  }

  lemma DroppedIs(s: Setup, p: Finish)
    ensures Dropped(s, p).m == DropDangling(s.At(|s.order|).m, p.drop) && Dropped(s, p).next == s.At(|s.order|).next
  {}

  lemma ViewIs(s: Setup, p: Finish)
    ensures BranchedAt(s, p, |s.order|).m == ReducedView(s, p)
  {
    assert s.order[..|s.order|] == s.order;
  }

  /** And whatever the view shows with the branch stuck, the netlist shows with this one
      pin stuck, when no dropped input is forwarded to a port that stays. */
  lemma PinBack(lib: Library, s: Setup, p: Finish, inst: Name, pin: Pin, b: bool, env: Inputs, st: State, v: Valuation) returns (w: Valuation)
    requires FinishReady(s, p) && NoForward(s, p.drop) && Branched(s, inst, pin) && Loaded(s, env, st) && !env(p.sePort, 0)
    requires Settled(lib, ReducedView(s, p), Stuck(BranchNet(s, inst, pin), b), env, st, v)
    ensures Settled(lib, PinStuck(s.g, inst, pin, b), NoFault, env, st, w)
    ensures Mirrors(PinStuck(s.g, inst, pin, b), w, ReducedView(s, p), v, Elems(s.order), st, s.keep + p.drop)
  {
    hide *;
    ReadyParts(s, p);
    BranchedIs(s, inst, pin);
    var n, f := |s.order|, Stuck(BranchNet(s, inst, pin), b);
    StuckBranchReady(s, p, inst, pin, b);
    ViewIs(s, p);
    DroppedIs(s, p);
    BranchBackAll(lib, s, p, f, env, st, v, n);
    CutDropSafe(s, p);
    DropBack(lib, s.At(n).m, p.drop, f, env, st, v);
    var u := Restored(s.At(n).m, p.drop, f, env, v);
    w := CutsBack(lib, s, p, inst, pin, b, env, st, u);
    forall name | name in s.At(n).m.ports && name !in p.drop
      ensures BitsVal(v, s.At(n).m.ports[name].bits) == BitsVal(u, s.At(n).m.ports[name].bits)
    {
      NotDangling(s.At(n).m, p.drop, name);
      RestoredPort(s.At(n).m, p.drop, f, env, v, name);
    }
    DropMirrors(PinStuck(s.g, inst, pin, b), w, s.At(n).m, u, v, Elems(s.order), st, s.keep, p.drop, ReducedView(s, p), v);
  }

  lemma CutsBack(lib: Library, s: Setup, p: Finish, inst: Name, pin: Pin, b: bool, env: Inputs, st: State, u: Valuation) returns (w: Valuation)
    requires FinishReady(s, p) && Branched(s, inst, pin) && Loaded(s, env, st) && !env(p.sePort, 0)
    requires Settled(lib, s.At(|s.order|).m, Stuck(BranchNet(s, inst, pin), b), env, st, u)
    ensures Settled(lib, PinStuck(s.g, inst, pin, b), NoFault, env, st, w)
    ensures Mirrors(PinStuck(s.g, inst, pin, b), w, s.At(|s.order|).m, u, Elems(s.order), st, s.keep)
  {
    hide *;
    ReadyParts(s, p);
    BranchedIs(s, inst, pin);
    var s', j, n := PinSetup(s, inst, pin, b), IndexIn(s.order, inst), |s.order|;
    SetupIs(s, inst, pin, b);
    FlopFacts(s, inst);
    EndsBeside(s, j, pin, b);
    BranchNetIs(s, inst, pin);
    PinIsStem(lib, s.At(n).m, s'.At(n).m, Made(TapTag(pin), inst), TapAt(s, j, pin), b, env, st, u);
    SamePorts(s.At(n).m, s'.At(n).m, Made(TapTag(pin), inst), b);
    StuckLoaded(s, inst, pin, b, env, st);
    PortsStayOk(s, p, n);
    PortsSame(s.At(n).m, s'.At(n).m, p, s.se, Elems(s.order[n..]));
    EnableIsLow(lib, s'.At(n).m, env, st, u, p, s.se, {});
    NoFaultBelow(s.next);
    NoFaultStays(s', n);
    w := CutBackAll(lib, s', NoFault, env, st, u, n);
    TracksParts(lib, s', NoFault, env, st, w, u);
    MirrorsPorts(s'.g, w, s'.At(n).m, s.At(n).m, u, Elems(s.order), st, s.keep);
  }

  lemma PortsSame(m: Module, m': Module, p: Finish, se: nat, rest: set<Name>)
    requires m'.ports == m.ports && PortsOk(m, rest, p, se)
    ensures PortsOk(m', {}, p, se)
  {}

  lemma NotDangling(m: Module, names: set<Name>, name: Name)
    requires name !in names
    ensures !Dangling(m, names, name)
  {}

  /* ---- where the branch is ---- */

  lemma {:induction false} BranchCells(b: Build, order: seq<Name>, drives: Name -> nat, single: Name -> bool, x: Name)
    requires !(x.Made? && x.tag.QPo?)
    ensures var m := BranchAll(b, order, drives, single).m; (x in m.cells <==> x in b.m.cells) && (x in b.m.cells ==> m.cells[x] == b.m.cells[x])
  {
    if order != [] {
      var n := |order| - 1;
      BranchCells(b, order[..n], drives, single, x);
      hide BufCell, ShownAt, SubBits;
    }
  }

  lemma ViewCells(s: Setup, p: Finish, x: Name)
    requires !(x.Made? && x.tag.QPo?)
    ensures var v, m := ReducedView(s, p), s.At(|s.order|).m; (x in v.cells <==> x in m.cells) && (x in m.cells ==> v.cells[x] == m.cells[x])
  {
    hide Setup.At, BranchAll;
    BranchCells(Dropped(s, p), s.order, p.drives, p.single, x);
  }

  lemma NoBranchMade(m: Module, k: nat, inst: Name, shared: bool, keep: set<Name>, se: nat, pin: Pin)
    requires CutReady(m, k, inst, se, keep) && !HasTap(m.cells[inst], shared, pin) && (pin == D || pin == CTRL)
    ensures m.cells[inst].kind.Scan? && Made(TapTag(pin), inst) !in Cut(m, k, inst, shared, keep).cells
  {
    ReadyScan(m, k, inst, se, keep);
    RewiredBranch(m, k, inst, shared, keep);
    CutParts(m, k, inst, shared, keep);
    var c, ids := Rewired(m, k, inst, shared, keep).cells[inst], CutIds(m, k, inst, shared);
    assert ViewTag(TapTag(pin)) && Made(TapTag(pin), inst) !in m.cells;
    hide Cut, QGates, DGates, BranchD, OneBit, IdsFrom, CutReady, Rewired;
    NoBranchGate(inst, c.kind.ctl, OneBit(c, CTRL), OneBit(c, D), BranchD(c, shared), ids);
  }

  lemma NoBranchGate(inst: Name, ctl: Control, line: Bit, d: Bit, branchD: bool, ids: Ids)
    ensures Made(DBranch, inst) !in QGates(inst, ctl, line, ids) && Made(CtrlBranch, inst) !in DGates(inst, ctl, d, branchD, ids)
    ensures !branchD ==> Made(DBranch, inst) !in DGates(inst, ctl, d, branchD, ids)
    ensures ctl.NoControl? ==> Made(CtrlBranch, inst) !in QGates(inst, ctl, line, ids)
  {
    hide DMuxGates, BufCell, InvCell, Gate2;
  }

  lemma StepNew(s: Setup, i: nat, x: Name)
    requires s.Valid() && i < |s.order| && x in s.At(i + 1).m.cells
    ensures x in s.At(i).m.cells || (x.Made? && x.base == s.order[i])
  {
    hide Setup.Valid, Setup.At, Cut, CutReady, SubCell, QNet, Below, SubFault, Setup.FaultAt, FaultBelow, ViewTag;
    assert FaultBelow(NoFault, s.next) by { NoFaultBelow(s.next); }
    var ids, b' := StepAt(s, NoFault, i);
  }

  lemma {:induction false} StaysAbsent(s: Setup, j: nat, pin: Pin, i: nat)
    requires s.Valid() && j < i <= |s.order| && Made(TapTag(pin), s.order[j]) !in s.At(j + 1).m.cells
    ensures Made(TapTag(pin), s.order[j]) !in s.At(i).m.cells
    decreases i
  {
    hide *;
    if i > j + 1 {
      StaysAbsent(s, j, pin, i - 1);
      OrderDiffers(s, i - 1, j);
      if Made(TapTag(pin), s.order[j]) in s.At(i).m.cells {
        StepNew(s, i - 1, Made(TapTag(pin), s.order[j]));
      }
    }
  }

  /** The view has a D branch for a flop exactly when its D is a constant or is to be
      branched, and a control branch exactly when it has a control, each a buffer onto a
      net of its own. */
  lemma BranchThere(s: Setup, p: Finish, inst: Name, pin: Pin)
    requires FinishReady(s, p) && inst in s.order && (pin == D || pin == CTRL)
    ensures Made(TapTag(pin), inst) in ReducedView(s, p).cells <==> Branched(s, inst, pin)
    ensures Branched(s, inst, pin) ==> IsBuffer(ReducedView(s, p), Made(TapTag(pin), inst), BranchNet(s, inst, pin))
  {
    var j := IndexIn(s.order, inst);
    ViewCells(s, p, Made(TapTag(pin), inst));
    hide ReducedView, Setup.At, PortsOk, TapAt;
    FlopFacts(s, inst);
    hide Setup.Valid;
    if Branched(s, inst, pin) {
      EndsBeside(s, j, pin, false);
    } else {
      StepOf(s, j);
      StillTapped(s, j, pin, j);
      hide Cut, CutReady, BranchD, HasTap;
      NoBranchMade(s.At(j).m, s.At(j).next, inst, s.shared(inst), s.keep, s.se, pin);
      StaysAbsent(s, j, pin, |s.order|);
    }
  }

  /* ---- where a stuck output sits ---- */

  // The net that drives a flop's readers in the view.
  ghost function DriveNet(s: Setup, j: nat): nat
    requires j < |s.order|
  {
    var b, inst := s.At(j), s.order[j];
    if inst in b.m.cells && b.m.cells[inst].kind.Scan? then CutIds(b.m, b.next, inst, s.shared(inst)).drive else 0
  }

  lemma StepFault(s: Setup, f: Fault, i: nat)
    requires s.Valid() && i < |s.order|
    ensures s.order[i] in s.At(i).m.cells && s.FaultAt(f, i + 1) == SubFault(s.FaultAt(f, i), QNet(s.At(i).m.cells[s.order[i]]), DriveNet(s, i))
    ensures s.At(i).next <= DriveNet(s, i) < s.At(i + 1).next
  {
    StepOf(s, i);
    AtStep(s, f, i);
    IdsOrder(s.At(i).m.cells[s.order[i]].kind.ctl, BranchD(s.At(i).m.cells[s.order[i]], s.shared(s.order[i])), s.At(i).next);
    hide CutAll, Cut, CutReady, SubFault, BranchD, MovedFault;
  }

  lemma OutputsApart(s: Setup, i: nat, j: nat)
    requires s.Valid() && i < |s.order| && j < |s.order| && i != j && s.order[i] in s.g.cells && s.order[j] in s.g.cells
    ensures QNet(s.g.cells[s.order[i]]) != QNet(s.g.cells[s.order[j]])
  {
    assert s.order[i] in Elems(s.order) && s.order[j] in Elems(s.order);
    hide CutReady, Below, QNet;
  }

  lemma {:induction false} OutputSame(s: Setup, j: nat, i: nat)
    requires s.Valid() && i <= j < |s.order|
    ensures s.order[j] in s.g.cells && s.order[j] in s.At(i).m.cells && QNet(s.At(i).m.cells[s.order[j]]) == QNet(s.g.cells[s.order[j]])
  {
    hide *;
    StartFlop(s, j);
    AtStart(s);
    if i > 0 {
      OutputSame(s, j, i - 1);
      OtherQ(s, i - 1, j);
    }
  }

  lemma {:induction false} StemMoves(s: Setup, j: nat, b: bool, i: nat)
    requires s.Valid() && j < |s.order| && i <= |s.order| && s.order[j] in s.g.cells
    ensures s.FaultAt(Stuck(QNet(s.g.cells[s.order[j]]), b), i) == if i <= j then Stuck(QNet(s.g.cells[s.order[j]]), b) else Stuck(DriveNet(s, j), b)
    decreases i
  {
    hide *;
    var n := QNet(s.g.cells[s.order[j]]);
    var f := Stuck(n, b);
    if i == 0 {
      FaultStart(s, f);
    } else {
      StemMoves(s, j, b, i - 1);
      StepFault(s, f, i - 1);
      OutputSame(s, i - 1, i - 1);
      var q, r := QNet(s.g.cells[s.order[i - 1]]), DriveNet(s, i - 1);
      SubStuck(n, b, q, r);
      if i - 1 < j {
        OutputsApart(s, i - 1, j);
      } else if i - 1 > j {
        SubStuck(DriveNet(s, j), b, q, r);
        StepFault(s, f, j);
        NextGrows(s, 0, j);
        AtStart(s);
        StartFlop(s, i - 1);
      }
    }
  }

  lemma FaultStart(s: Setup, f: Fault)
    ensures s.FaultAt(f, 0) == f
  {
    assert s.order[..0] == [];
  }

  lemma SubStuck(n: nat, b: bool, q: nat, r: nat)
    ensures SubFault(Stuck(n, b), q, r) == if n == q then Stuck(r, b) else Stuck(n, b)
  {}

  /** A flop's stuck output sits in the view on the net that drives its readers. */
  lemma StemSits(s: Setup, j: nat, b: bool)
    requires s.Valid() && j < |s.order| && s.order[j] in s.g.cells
    ensures ViewFault(s, Stuck(QNet(s.g.cells[s.order[j]]), b)) == Stuck(DriveNet(s, j), b)
  {
    StemMoves(s, j, b, |s.order|);
  }
}
