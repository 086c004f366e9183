/** build_scan_atpg_view as it runs: one pass over the scan records that edits
    the module in place through the index, then the two finishing passes. The
    result is the reduced view of ViewFinish. */
module ViewBuilder {
  import opened Netlist
  import opened BitIndexes
  import opened ScanView
  import opened ViewMeaning
  import opened ViewDrop
  import opened ViewFinish
  import opened ViewPins
  import opened ViewOutputs
  import opened ViewPorts

  /* ---- ids in use ---- */

  ghost predicate Occurs(m: Module, n: nat)
  {
    || (exists inst, p :: At(m.cells, inst, p, n))
    || (exists name :: OnPort(m.ports, name, n))
  }

  method MaxBit(bits: seq<Bit>, start: nat) returns (k: nat)
    ensures start <= k && BitsBelow(bits, k)
    ensures k == start || Net(k - 1) in bits
  {
    k := start;
    for i := 0 to |bits|
      invariant start <= k && BitsBelow(bits[..i], k)
      invariant k == start || (k > 0 && Net(k - 1) in bits[..i])
    {
      if bits[i].Net? && bits[i].id >= k {
        k := bits[i].id + 1;
      }
      assert bits[..i + 1] == bits[..i] + [bits[i]];
    }
    assert bits[..|bits|] == bits;
  }

  // One more than the largest net id in use, 0 for none.
  method NextNetId(m: Module) returns (k: nat)
    ensures Below(m, k)
    ensures k > 0 ==> Occurs(m, k - 1)
  {
    k := 0;
    var ports := m.ports.Keys;
    while ports != {}
      invariant ports <= m.ports.Keys
      invariant forall name :: name in m.ports && name !in ports ==> BitsBelow(m.ports[name].bits, k)
      invariant k > 0 ==> Occurs(m, k - 1)
    {
      var name :| name in ports;
      var k' := MaxBit(m.ports[name].bits, k);
      if k' != k {
        assert OnPort(m.ports, name, k' - 1);
      }
      k := k';
      ports := ports - {name};
    }
    var cells := m.cells.Keys;
    while cells != {}
      invariant cells <= m.cells.Keys
      invariant forall name :: name in m.ports ==> BitsBelow(m.ports[name].bits, k)
      invariant forall inst :: inst in m.cells && inst !in cells ==> CellBelow(m.cells[inst], k)
      invariant k > 0 ==> Occurs(m, k - 1)
    {
      var inst :| inst in cells;
      var conns := m.cells[inst].conns;
      var pins := conns.Keys;
      while pins != {}
        invariant pins <= conns.Keys
        invariant forall name :: name in m.ports ==> BitsBelow(m.ports[name].bits, k)
        invariant forall x :: x in m.cells && x !in cells ==> CellBelow(m.cells[x], k)
        invariant forall p :: p in conns && p !in pins ==> BitsBelow(conns[p], k)
        invariant k > 0 ==> Occurs(m, k - 1)
      {
        var p :| p in pins;
        var k' := MaxBit(conns[p], k);
        if k' != k {
          assert At(m.cells, inst, p, k' - 1);
        }
        k := k';
        pins := pins - {p};
      }
      cells := cells - {inst};
    }
  }

  /* ---- cutting one flop in place ---- */

  ghost predicate Fresh(idx: BitIndex, inst: Name)
    reads idx
  {
    forall t :: ViewTag(t) ==> Made(t, inst) !in idx.cells
  }

  // The output side: control branch, pseudo-input and control mux.
  method DriveReaders(idx: BitIndex, inst: Name, ctl: Control, line: Bit, k: nat) returns (drive: nat, branch: nat, next: nat)
    requires idx.Valid() && Fresh(idx, inst) && Made(Ppi, inst) !in idx.ports
    modifies idx`cells, idx`ports, idx`cellLocs
    ensures idx.Valid()
    ensures var ids := IdsFrom(ctl, false, k);
            && drive == ids.drive && (ctl.NoControl? || branch == ids.branch) && next == ids.drive + 1
            && idx.cells == old(idx.cells) + QGates(inst, ctl, line, ids)
            && idx.ports == old(idx.ports)[Made(Ppi, inst) := Port(Input, [Net(ids.ppi)])]
  {
    hide IndexesCells;
    hide IndexesPorts;
    hide BufCell;
    hide InvCell;
    hide Gate2;
    ghost var was := idx.cells;
    next, branch := k, k;
    if !ctl.NoControl? {
      idx.AddCell(Made(CtrlBranch, inst), BufCell(line, branch));
      next := next + 1;
    }
    var ppi := next;
    next := next + 1;
    idx.AddPort(Made(Ppi, inst), Port(Input, [Net(ppi)]));
    drive := ppi;
    if ctl.Reset? {
      drive, next := next, next + 1;
      idx.AddCell(Made(QMux, inst), Gate2(And2, Net(ppi), Net(branch), drive));
      AddTwo(was, Made(CtrlBranch, inst), BufCell(line, branch),
             Made(QMux, inst), Gate2(And2, Net(ppi), Net(branch), drive));
    } else if ctl.Set? {
      var inv := next;
      idx.AddCell(Made(QInv, inst), InvCell(Net(branch), inv));
      drive, next := next + 1, next + 2;
      idx.AddCell(Made(QMux, inst), Gate2(Or2, Net(ppi), Net(inv), drive));
      AddThree(was, Made(CtrlBranch, inst), BufCell(line, branch), Made(QInv, inst), InvCell(Net(branch), inv),
               Made(QMux, inst), Gate2(Or2, Net(ppi), Net(inv), drive));
    }
  }

  lemma AddTwo(a: map<Name, Cell>, x: Name, cx: Cell, y: Name, cy: Cell)
    requires x != y
    ensures a[x := cx][y := cy] == a + map[x := cx, y := cy]
  {
  }

  lemma AddThree(a: map<Name, Cell>, x: Name, cx: Cell, y: Name, cy: Cell, z: Name, cz: Cell)
    requires x != y && x != z && y != z
    ensures a[x := cx][y := cy][z := cz] == a + map[x := cx, y := cy, z := cz]
  {
  }

  // The capture side: pseudo-output, branch of a shared or constant D, control
  // mux and observe buffer.
  method ObserveCapture(idx: BitIndex, inst: Name, ctl: Control, d: Bit, branchD: bool, branch: nat, k: nat,
                        ghost ids: Ids) returns (next: nat)
    requires idx.Valid() && Made(Ppo, inst) !in idx.ports
    requires Made(DBranch, inst) !in idx.cells && Made(DInv, inst) !in idx.cells
    requires Made(DMux, inst) !in idx.cells && Made(Observe, inst) !in idx.cells
    requires ids == IdsFrom(ctl, branchD, ids.branch) && ids.ppo == k && (ctl.NoControl? || ids.branch == branch)
    modifies idx`cells, idx`ports, idx`cellLocs
    ensures idx.Valid()
    ensures next == ids.next
    ensures idx.cells == old(idx.cells) + DGates(inst, ctl, d, branchD, ids)
    ensures idx.ports == old(idx.ports)[Made(Ppo, inst) := Port(Output, [Net(ids.ppo)])]
  {
    hide IndexesCells;
    hide IndexesPorts;
    hide BufCell;
    hide InvCell;
    hide Gate2;
    hide DMuxGates;
    ghost var was := idx.cells;
    next := k;
    var ppo := next;
    next := next + 1;
    idx.AddPort(Made(Ppo, inst), Port(Output, [Net(ppo)]));
    var seen := d;
    if branchD {
      idx.AddCell(Made(DBranch, inst), BufCell(d, next));
      seen, next := Net(next), next + 1;
    }
    ghost var branched := if branchD then map[Made(DBranch, inst) := BufCell(d, ids.dbranch)] else map[];
    ghost var mux := DMuxGates(inst, ctl, seen, ids);
    assert idx.cells == was + branched;
    seen, next := CaptureMux(idx, inst, ctl, seen, branch, next, ids);
    idx.AddCell(Made(Observe, inst), BufCell(seen, ppo));
    assert idx.cells == was + branched + mux + map[Made(Observe, inst) := BufCell(seen, ppo)];
    JoinFour(was, branched, mux, map[Made(Observe, inst) := BufCell(seen, ppo)]);
  }

  lemma JoinFour(a: map<Name, Cell>, b: map<Name, Cell>, c: map<Name, Cell>, d: map<Name, Cell>)
    ensures a + b + c + d == a + (b + c + d)
  {
  }

  method CaptureMux(idx: BitIndex, inst: Name, ctl: Control, tap: Bit, branch: nat, k: nat, ghost ids: Ids)
    returns (seen: Bit, next: nat)
    requires idx.Valid() && Made(DInv, inst) !in idx.cells && Made(DMux, inst) !in idx.cells
    requires !ctl.NoControl? ==> ids.branch == branch && ids.dinv == k && ids.dmux == if ctl.Set? then k + 1 else k
    modifies idx`cells, idx`cellLocs
    ensures idx.Valid() && idx.cells == old(idx.cells) + DMuxGates(inst, ctl, tap, ids)
    ensures seen == if ctl.NoControl? then tap else Net(ids.dmux)
    ensures next == if ctl.NoControl? then k else ids.dmux + 1
  {
    hide IndexesCells;
    hide IndexesPorts;
    hide BufCell;
    hide InvCell;
    hide Gate2;
    seen, next := tap, k;
    if ctl.Reset? {
      idx.AddCell(Made(DMux, inst), Gate2(And2, tap, Net(branch), next));
      seen, next := Net(next), next + 1;
    } else if ctl.Set? {
      var inv := next;
      idx.AddCell(Made(DInv, inst), InvCell(Net(branch), inv));
      idx.AddCell(Made(DMux, inst), Gate2(Or2, tap, Net(inv), next + 1));
      seen, next := Net(next + 1), next + 2;
    }
  }

  // Pins are single bits, so no pin mixes a net with a constant.
  ghost predicate SinglePins(cells: map<Name, Cell>)
  {
    forall inst, p :: inst in cells && p in cells[inst].conns ==> |cells[inst].conns[p]| <= 1
  }

  lemma SinglePinsUnmixed(cells: map<Name, Cell>, q: nat)
    requires SinglePins(cells)
    ensures Unmixed(cells, q)
  {
  }

  lemma SinglePinsJoin(a: map<Name, Cell>, b: map<Name, Cell>)
    requires SinglePins(a) && SinglePins(b)
    ensures SinglePins(a + b)
  {
  }

  lemma QGatesSub(inst: Name, ctl: Control, line: Bit, ids: Ids, q: nat)
    requires q < ids.branch <= ids.ppi && q < ids.qinv && q < ids.drive
    ensures SubCells(QGates(inst, ctl, line, ids), q, ids.drive) == QGates(inst, ctl, SubBit(line, q, ids.drive), ids)
  {
    hide SubCell;
    hide BufCell;
    hide InvCell;
    hide Gate2;
    GateSub(line, ids.branch, q, ids.drive);
    GateSub(Net(ids.branch), ids.qinv, q, ids.drive);
    Gate2Sub(And2, Net(ids.ppi), Net(ids.branch), ids.drive, q, ids.drive);
    Gate2Sub(Or2, Net(ids.ppi), Net(ids.qinv), ids.drive, q, ids.drive);
  }

  lemma QGatesSingle(inst: Name, ctl: Control, line: Bit, ids: Ids)
    ensures SinglePins(QGates(inst, ctl, line, ids))
  {
  }

  lemma GateSub(a: Bit, y: nat, q: nat, r: nat)
    requires y != q
    ensures SubCell(BufCell(a, y), q, r) == BufCell(SubBit(a, q, r), y)
    ensures SubCell(InvCell(a, y), q, r) == InvCell(SubBit(a, q, r), y)
  {
    assert SubBits([a], q, r) == [SubBit(a, q, r)];
    assert SubBits([Net(y)], q, r) == [Net(y)];
    assert SubCell(BufCell(a, y), q, r).conns == BufCell(SubBit(a, q, r), y).conns;
    assert SubCell(InvCell(a, y), q, r).conns == InvCell(SubBit(a, q, r), y).conns;
  }

  lemma Gate2Sub(kind: Kind, a: Bit, b: Bit, y: nat, q: nat, r: nat)
    requires y != q
    ensures SubCell(Gate2(kind, a, b, y), q, r) == Gate2(kind, SubBit(a, q, r), SubBit(b, q, r), y)
  {
    assert SubBits([a], q, r) == [SubBit(a, q, r)];
    assert SubBits([b], q, r) == [SubBit(b, q, r)];
    assert SubBits([Net(y)], q, r) == [Net(y)];
    assert SubCell(Gate2(kind, a, b, y), q, r).conns == Gate2(kind, SubBit(a, q, r), SubBit(b, q, r), y).conns;
  }

  ghost function SubCells(cells: map<Name, Cell>, q: nat, r: nat): map<Name, Cell>
  {
    map inst | inst in cells :: SubCell(cells[inst], q, r)
  }

  lemma RewireJoin(cells: map<Name, Cell>, gates: map<Name, Cell>, q: nat, r: nat)
    requires SinglePins(cells) && SinglePins(gates)
    ensures RewiredCells(cells + gates, q, r) == SubCells(cells, q, r) + SubCells(gates, q, r)
  {
    SinglePinsJoin(cells, gates);
    SinglePinsUnmixed(cells + gates, q);
    RewireIsSubstitute(cells + gates, q, r);
    assert RewiredCells(cells + gates, q, r) == SubCells(cells + gates, q, r);
    assert SubCells(cells + gates, q, r) == SubCells(cells, q, r) + SubCells(gates, q, r);
  }

  // The ports the index does not know carry only nets handed out since.
  ghost predicate NewPortsAvoid(ports: map<Name, Port>, known: set<Name>, q: nat)
  {
    forall name :: name in ports && name !in known ==> Net(q) !in ports[name].bits
  }

  lemma RewirePortsJoin(m: Module, x: Name, port: Port, q: nat, r: nat, keep: set<Name>, known: set<Name>)
    requires NewPortsAvoid(m.ports, known, q) && x !in known && x !in m.ports
    ensures RewiredPorts(m.ports[x := port], q, r, keep, known) == Substitute(m, q, r, keep).ports[x := port]
  {
    forall name | name in m.ports && name !in known ensures SubBits(m.ports[name].bits, q, r) == m.ports[name].bits {
      SubBitsId(m.ports[name].bits, q, r);
    }
  }

  // The module between the rewire and the capture side.
  lemma AfterRewire(m: Module, k: nat, inst: Name, shared: bool, keep: set<Name>, se: nat, known: set<Name>)
    requires CutReady(m, k, inst, se, keep) && SinglePins(m.cells) && Made(Ppi, inst) !in known
    requires NewPortsAvoid(m.ports, known, QNet(m.cells[inst]))
    ensures var c, ids := m.cells[inst], CutIds(m, k, inst, shared);
            var ids0, q, r := IdsFrom(c.kind.ctl, false, k), QNet(c), Rewired(m, k, inst, shared, keep);
            && ids0.drive == ids.drive && ids0.branch == ids.branch && ids0.ppi == ids.ppi && ids.ppo == ids.drive + 1
            && RewiredCells(m.cells + QGates(inst, c.kind.ctl, OneBit(c, CTRL), ids0), q, ids.drive)
               == r.cells + QGates(inst, c.kind.ctl, OneBit(r.cells[inst], CTRL), ids)
            && RewiredPorts(m.ports[Made(Ppi, inst) := Port(Input, [Net(ids.ppi)])], q, ids.drive, keep, known)
               == r.ports[Made(Ppi, inst) := Port(Input, [Net(ids.ppi)])]
            && r.cells[inst].kind == c.kind && BranchD(r.cells[inst], shared) == BranchD(c, shared)
            && q != ids.drive
  {
    var c, ids := m.cells[inst], CutIds(m, k, inst, shared);
    var ids0, q, r := IdsFrom(c.kind.ctl, false, k), QNet(c), Rewired(m, k, inst, shared, keep);
    assert q < k by { assert BitsBelow(c.conns[Q], k); }
    var line := OneBit(c, CTRL);
    QGatesSub(inst, c.kind.ctl, line, ids0, q);
    QGatesSingle(inst, c.kind.ctl, line, ids0);
    QGatesSame(inst, c.kind.ctl, SubBit(line, q, ids.drive), ids0, ids);
    OneBitSub(c, CTRL, q, ids.drive, n => false);
    OneBitSub(c, D, q, ids.drive, n => false);
    RewirePortsJoin(m, Made(Ppi, inst), Port(Input, [Net(ids.ppi)]), q, ids.drive, keep, known);
    hide QGates;
    RewireJoin(m.cells, QGates(inst, c.kind.ctl, line, ids0), q, ids.drive);
    assert r.cells == SubCells(m.cells, q, ids.drive);
    assert OneBit(r.cells[inst], CTRL) == SubBit(line, q, ids.drive);
  }

  lemma QGatesSame(inst: Name, ctl: Control, line: Bit, ids: Ids, ids': Ids)
    requires ids.branch == ids'.branch && ids.ppi == ids'.ppi && ids.qinv == ids'.qinv && ids.drive == ids'.drive
    ensures QGates(inst, ctl, line, ids) == QGates(inst, ctl, line, ids')
  {
  }

  lemma AssembleCut(cells: map<Name, Cell>, q: map<Name, Cell>, d: map<Name, Cell>, inst: Name)
    requires inst !in q && inst !in d
    ensures ((cells + q) + d) - {inst} == (cells - {inst}) + (q + d)
  {
  }

  // The first half of a cut: every reader of the flop reads the new drive.
  method MoveReaders(idx: BitIndex, inst: Name, shared: bool, keep: set<Name>, k: nat, ghost se: nat)
    returns (drive: nat, branch: nat, next: nat)
    requires idx.Valid() && SinglePins(idx.cells)
    requires CutReady(Module(idx.ports, idx.cells), k, inst, se, keep)
    requires NewPortsAvoid(idx.ports, idx.known, QNet(idx.cells[inst]))
    modifies idx`cells, idx`ports, idx`cellLocs, idx`portLocs
    ensures idx.Valid()
    ensures var m := old(Module(idx.ports, idx.cells));
            var ids, r := CutIds(m, k, inst, shared), Rewired(m, k, inst, shared, keep);
            && drive == ids.drive && next == ids.ppo && (m.cells[inst].kind.ctl.NoControl? || branch == ids.branch)
            && idx.cells == r.cells + QGates(inst, m.cells[inst].kind.ctl, OneBit(r.cells[inst], CTRL), ids)
            && idx.ports == r.ports[Made(Ppi, inst) := Port(Input, [Net(ids.ppi)])]
            && r.cells[inst].kind == m.cells[inst].kind && BranchD(r.cells[inst], shared) == BranchD(m.cells[inst], shared)
  {
    hide IndexesCells;
    hide IndexesPorts;
    hide QGates;
    ghost var m := Module(idx.ports, idx.cells);
    var c := idx.cells[inst];
    drive, branch, next := DriveReaders(idx, inst, c.kind.ctl, OneBit(c, CTRL), k);
    AfterRewire(m, k, inst, shared, keep, se, idx.known);
    idx.Rewire(QNet(c), drive, keep);
  }

  method CutInPlace(idx: BitIndex, inst: Name, shared: bool, keep: set<Name>, k: nat, ghost se: nat)
    returns (drive: nat, next: nat)
    requires idx.Valid() && SinglePins(idx.cells)
    requires CutReady(Module(idx.ports, idx.cells), k, inst, se, keep)
    requires NewPortsAvoid(idx.ports, idx.known, QNet(idx.cells[inst]))
    modifies idx`cells, idx`ports, idx`cellLocs, idx`portLocs
    ensures idx.Valid()
    ensures var m := old(Module(idx.ports, idx.cells));
            && Module(idx.ports, idx.cells) == Cut(m, k, inst, shared, keep)
            && drive == CutIds(m, k, inst, shared).drive && next == CutIds(m, k, inst, shared).next
  {
    hide IndexesCells;
    hide IndexesPorts;
    hide QGates;
    hide DGates;
    hide SubCell;
    hide SubBits;
    hide Below;
    ghost var m := Module(idx.ports, idx.cells);
    ghost var ids, r := CutIds(m, k, inst, shared), Rewired(m, k, inst, shared, keep);
    var branch: nat;
    drive, branch, next := MoveReaders(idx, inst, shared, keep, k, se);
    ghost var qg := QGates(inst, m.cells[inst].kind.ctl, OneBit(r.cells[inst], CTRL), ids);
    assert forall x :: x in qg ==> x.base == inst && (x.tag.CtrlBranch? || x.tag.QInv? || x.tag.QMux?);
    assert forall x :: x in qg ==> x == Made(x.tag, inst);
    var c := idx.cells[inst];
    assert c == r.cells[inst];
    next := ObserveCapture(idx, inst, c.kind.ctl, OneBit(c, D), BranchD(c, shared), branch, next, ids);
    ghost var dg := DGates(inst, c.kind.ctl, OneBit(c, D), BranchD(c, shared), ids);
    assert forall x :: x in dg ==> x == Made(x.tag, inst);
    idx.RemoveCell(inst);
    AssembleCut(r.cells, qg, dg, inst);
  }

  /* ---- what holds between the cuts ---- */

  lemma DGatesSingle(inst: Name, ctl: Control, d: Bit, branchD: bool, ids: Ids)
    ensures SinglePins(DGates(inst, ctl, d, branchD, ids))
  {
    var tap := if branchD then Net(ids.dbranch) else d;
    assert SinglePins(DMuxGates(inst, ctl, tap, ids));
    hide DMuxGates;
  }

  lemma CutSingle(m: Module, k: nat, inst: Name, shared: bool, keep: set<Name>, se: nat)
    requires CutReady(m, k, inst, se, keep) && SinglePins(m.cells)
    ensures SinglePins(Cut(m, k, inst, shared, keep).cells)
  {
    hide QGates;
    hide DGates;
    var ids, r := CutIds(m, k, inst, shared), Rewired(m, k, inst, shared, keep);
    var c := r.cells[inst];
    QGatesSingle(inst, c.kind.ctl, OneBit(c, CTRL), ids);
    DGatesSingle(inst, c.kind.ctl, OneBit(c, D), BranchD(c, shared), ids);
    SinglePinsJoin(QGates(inst, c.kind.ctl, OneBit(c, CTRL), ids), DGates(inst, c.kind.ctl, OneBit(c, D), BranchD(c, shared), ids));
    assert SinglePins(r.cells - {inst});
    SinglePinsJoin(r.cells - {inst}, NewGates(m, k, inst, shared, keep));
  }

  // Ports added since the start, and the flops still to be cut, by net id.
  ghost predicate Split(s: Setup, i: nat)
    requires i <= |s.order|
  {
    var m := s.At(i).m;
    && SinglePins(m.cells)
    && (forall name, n: nat :: name in m.ports && name !in s.g.ports && Net(n) in m.ports[name].bits ==> s.next <= n)
    && (forall j :: i <= j < |s.order| ==> s.order[j] in m.cells && QNet(m.cells[s.order[j]]) < s.next)
    && s.g.ports.Keys <= m.ports.Keys
  }

  lemma SplitStart(s: Setup)
    requires s.Valid() && SinglePins(s.g.cells)
    ensures Split(s, 0)
  {
    AtStart(s);
    forall j | 0 <= j < |s.order| ensures s.order[j] in s.g.cells && QNet(s.g.cells[s.order[j]]) < s.next {
      assert s.order[j] in Elems(s.order);
      assert CutReady(s.g, s.next, s.order[j], s.se, s.keep);
      assert BitsBelow(s.g.cells[s.order[j]].conns[Q], s.next);
    }
  }

  lemma SplitStep(s: Setup, i: nat)
    requires s.Valid() && i < |s.order| && Split(s, i)
    ensures Split(s, i + 1)
  {
    hide CutAll;
    hide Cut;
    hide CutStep;
    var ids, b' := StepAt(s, NoFault, i);
    var b, inst := s.At(i), s.order[i];
    StaysReady(s, i);
    CutSingle(b.m, b.next, inst, s.shared(inst), s.keep, s.se);
    forall name, n: nat | name in b'.m.ports && name !in s.g.ports && Net(n) in b'.m.ports[name].bits
      ensures s.next <= n
    {
      if name in b.m.ports && name !in s.keep {
        SubBitsHas(b.m.ports[name].bits, QNet(b.m.cells[inst]), ids.drive, n);
      }
    }
    forall j | i + 1 <= j < |s.order| ensures s.order[j] in b'.m.cells && QNet(b'.m.cells[s.order[j]]) < s.next {
      assert s.order[i..][j - i] == s.order[j];
      assert s.order[j] in Elems(s.order[i..]) && s.order[j] != inst;
      OtherReady(b, b', inst, s.order[j], s.se, ids, s.keep);
    }
  }

  // The last id handed out is in use, so the next fresh id is the running one.
  lemma CutTop(m: Module, k: nat, inst: Name, shared: bool, keep: set<Name>, se: nat)
    requires CutReady(m, k, inst, se, keep)
    ensures var view, top := Cut(m, k, inst, shared, keep), CutIds(m, k, inst, shared).next - 1;
            OnPort(view.ports, Made(Ppo, inst), top) || exists x, p :: At(view.cells, x, p, top)
  {
    hide QGates;
    hide DGates;
    hide SubCell;
    hide SubBits;
    hide Below;
    var ids, view := CutIds(m, k, inst, shared), Cut(m, k, inst, shared, keep);
    var ctl, c := m.cells[inst].kind.ctl, Rewired(m, k, inst, shared, keep).cells[inst];
    var dg := DGates(inst, ctl, OneBit(c, D), BranchD(c, shared), ids);
    OneBitSub(m.cells[inst], D, QNet(m.cells[inst]), ids.drive, n => false);
    assert c.kind == m.cells[inst].kind && BranchD(c, shared) == BranchD(m.cells[inst], shared) by {
      assert c == SubCell(m.cells[inst], QNet(m.cells[inst]), ids.drive);
      SubCellKind(m.cells[inst], QNet(m.cells[inst]), ids.drive);
    }
    assert forall x :: x in dg ==> view.cells[x] == dg[x];
    DMuxThere(inst, ctl, OneBit(c, D), BranchD(c, shared), ids);
    if !ctl.NoControl? {
      assert At(view.cells, Made(DMux, inst), Y, ids.dmux);
    } else if BranchD(c, shared) {
      assert At(view.cells, Made(DBranch, inst), Y, ids.dbranch);
    } else {
      assert view.ports[Made(Ppo, inst)].bits == [Net(ids.ppo)];
    }
  }

  lemma SubCellKind(c: Cell, q: nat, r: nat)
    ensures SubCell(c, q, r).kind == c.kind
  {
  }

  lemma DMuxThere(inst: Name, ctl: Control, d: Bit, branchD: bool, ids: Ids)
    ensures var g := DGates(inst, ctl, d, branchD, ids);
            && (!ctl.NoControl? ==> At(g, Made(DMux, inst), Y, ids.dmux))
            && (branchD ==> At(g, Made(DBranch, inst), Y, ids.dbranch))
  {
  }

  /* ---- the builder ---- */

  // What stitching guarantees of a scanned module.
  ghost predicate Scannable(g: Module, order: seq<Name>, keep: set<Name>, se: nat)
  {
    && PlainKeep(keep) && SinglePins(g.cells)
    && (forall inst :: inst in order && inst in g.cells && g.cells[inst].kind.Scan? ==>
          && ScanShape(g.cells[inst], se) && ControlNet(g.cells[inst]) && QNet(g.cells[inst]) != se
          && KeptPortsAvoid(g, QNet(g.cells[inst]), keep) && (forall t :: ViewTag(t) ==> Made(t, inst) !in g.cells))
    && (forall x, y :: x in order && y in order && x != y && x in g.cells && y in g.cells ==>
          QNet(g.cells[x]) != QNet(g.cells[y]))
  }

  predicate NamesFree(g: Module, order: seq<Name>)
  {
    && (forall i :: 0 <= i < |order| ==> Made(Ppi, order[i]) !in g.ports && Made(Ppo, order[i]) !in g.ports)
    && (forall i, j :: 0 <= i < j < |order| ==> order[i] != order[j])
  }

  predicate AllScan(g: Module, order: seq<Name>)
  {
    forall i :: 0 <= i < |order| ==> order[i] in g.cells && g.cells[order[i]].kind.Scan?
  }

  // A pseudo-port name is taken, a flop is listed twice, or one is missing or no scan flop.
  ghost predicate Refuses(g: Module, order: seq<Name>)
  {
    || (exists x :: x in order && (Made(Ppi, x) in g.ports || Made(Ppo, x) in g.ports))
    || (exists i, j :: 0 <= i < j < |order| && order[i] == order[j])
    || (exists x :: x in order && !(x in g.cells && g.cells[x].kind.Scan?))
  }

  lemma RefusesIs(g: Module, order: seq<Name>)
    ensures Refuses(g, order) <==> !(NamesFree(g, order) && AllScan(g, order))
  {
    assert forall i :: 0 <= i < |order| ==> order[i] in order;
  }

  // The input pins tied to a constant.
  function ConstSites(cells: map<Name, Cell>, value: bool): set<(Name, Pin)>
  {
    set inst, p | inst in cells && p in cells[inst].conns && p !in cells[inst].outs && Lit(value) in cells[inst].conns[p] :: (inst, p)
  }

  // D's net has other sites than D, or other pins read the same constant.
  ghost predicate SharedD(g: Module, inst: Name)
  {
    inst in g.cells &&
    match OneBit(g.cells[inst], D)
    case Net(n) => |Sites(g.cells, n)| > 1
    case Lit(b) => |ConstSites(g.cells, b)| > 1
  }

  // The input pins that read a net.
  function ReaderSites(m: Module, n: nat): set<(Name, Pin)>
  {
    set inst, p | inst in m.cells && p in m.cells[inst].conns && p !in m.cells[inst].outs
                  && Net(n) in m.cells[inst].conns[p] :: (inst, p)
  }

  function UsedNets(m: Module): set<nat>
  {
    set inst, p, b | inst in m.cells && p in m.cells[inst].conns && b in m.cells[inst].conns[p] && b.Net? :: b.id
  }

  method DropPorts(m: Module, names: set<Name>) returns (d: Module)
    ensures d == DropDangling(m, names)
  {
    var used := UsedNets(m);
    assert forall n: nat :: n in used <==> UsedByCells(m, n) by {
      forall n: nat ensures n in used <==> UsedByCells(m, n) {
        if UsedByCells(m, n) {
          var inst, p :| inst in m.cells && p in m.cells[inst].conns && Net(n) in m.cells[inst].conns[p];
          assert Net(n).id in used;
        }
      }
    }
    var ports, todo := m.ports, names;
    while todo != {}
      invariant todo <= names
      invariant ports == map name | name in m.ports && !(name !in todo && Dangling(m, names, name)) :: m.ports[name]
    {
      var name :| name in todo;
      if name in ports && |ports[name].bits| == 1 && ports[name].bits[0].Net? && ports[name].bits[0].id !in used {
        ports := ports - {name};
      }
      todo := todo - {name};
    }
    d := m.(ports := ports);
    assert d.ports == DropDangling(m, names).ports;
  }

  predicate OnNet(ports: map<Name, Port>, name: Name, n: nat) { name in ports && ports[name].bits == [Net(n)] }

  ghost predicate HasPort(ports: map<Name, Port>, names: set<Name>, n: nat) { exists name :: name in names && OnNet(ports, name, n) }

  /** For each clock net a port with that net alone, if there is one. */
  method ClockPorts(ports: map<Name, Port>, clocks: set<nat>) returns (names: set<Name>)
    ensures forall name :: name in names ==> exists n :: n in clocks && OnNet(ports, name, n)
    ensures forall n: nat :: n in clocks && HasPort(ports, ports.Keys, n) ==> HasPort(ports, names, n)
  {
    names := {};
    var todo := clocks;
    while todo != {}
      invariant todo <= clocks
      invariant forall name :: name in names ==> exists n :: n in clocks && OnNet(ports, name, n)
      invariant forall n: nat :: n in clocks && n !in todo && HasPort(ports, ports.Keys, n) ==> HasPort(ports, names, n)
    {
      var n :| n in todo;
      var found := set name | name in ports && OnNet(ports, name, n);
      ghost var before := names;
      if found != {} {
        var name :| name in found;
        names := names + {name};
        assert HasPort(ports, names, n);
      } else {
        assert forall name :: name in ports.Keys && OnNet(ports, name, n) ==> name in found;
      }
      assert forall k: nat :: HasPort(ports, before, k) ==> HasPort(ports, names, k);
      todo := todo - {n};
    }
  }

  // The shared decision, read off the untouched netlist.
  method DecideShared(source: BitIndex, g: Module, inst: Name) returns (shared: bool)
    requires source.Valid() && source.cells == g.cells && inst in g.cells
    ensures shared == SharedD(g, inst)
  {
    match OneBit(g.cells[inst], D)
    case Net(n) =>
      var count := source.ConsumerCount(n);
      shared := count > 1;
    case Lit(b) =>
      shared := |ConstSites(g.cells, b)| > 1;
  }

  lemma SetupIsValid(g: Module, k: nat, order: seq<Name>, keep: set<Name>, se: nat)
    requires Scannable(g, order, keep, se) && NamesFree(g, order) && AllScan(g, order) && Below(g, k) && order != []
    ensures Setup(g, k, order, x => SharedD(g, x), keep, se).Valid() && se < k
  {
    var s := Setup(g, k, order, x => SharedD(g, x), keep, se);
    assert se < k by {
      assert ScanShape(g.cells[order[0]], se);
      assert BitsBelow(g.cells[order[0]].conns[SE], k) && g.cells[order[0]].conns[SE][0] == Net(se);
    }
    forall inst | inst in Elems(order) ensures CutReady(g, k, inst, se, keep) {
      assert inst in order;
    }
  }

  // Each flop cut so far is recorded with the net that drives its readers.
  ghost predicate DrivesFrom(s: Setup, drives: map<Name, nat>, i: nat)
    requires i <= |s.order|
  {
    forall j :: 0 <= j < i ==> s.order[j] in drives && drives[s.order[j]] == DriveNet(s, j)
  }

  lemma DrivesNone(s: Setup)
    ensures DrivesFrom(s, map[], 0)
  {
  }

  lemma DrivesMore(s: Setup, drives: map<Name, nat>, i: nat, drive: nat)
    requires s.Valid() && i < |s.order| && DrivesFrom(s, drives, i)
    requires s.order[i] in s.At(i).m.cells && s.At(i).m.cells[s.order[i]].kind.Scan?
    requires drive == CutIds(s.At(i).m, s.At(i).next, s.order[i], s.shared(s.order[i])).drive
    ensures DrivesFrom(s, drives[s.order[i] := drive], i + 1)
  {
    forall j | 0 <= j < i ensures s.order[j] != s.order[i] {
      OrderDiffers(s, j, i);
    }
    hide Setup.Valid, Setup.At, CutIds;
  }

  // The cuts, one after the other, through the index.
  method CutFlops(idx: BitIndex, source: BitIndex, g: Module, order: seq<Name>, keep: set<Name>, k: nat, ghost s: Setup)
    returns (drives: map<Name, nat>, next: nat)
    requires s.Valid() && s.g == g && s.order == order && s.keep == keep && s.next == k
    requires Split(s, 0) && (forall x :: s.shared(x) == SharedD(g, x))
    requires idx.Valid() && idx.cells == g.cells && idx.ports == g.ports && idx.known == g.ports.Keys
    requires source.Valid() && source.cells == g.cells && source != idx
    modifies idx`cells, idx`ports, idx`cellLocs, idx`portLocs
    ensures Module(idx.ports, idx.cells) == s.At(|order|).m && next == s.At(|order|).next
    ensures drives.Keys == Elems(order) && (forall x :: x in drives ==> drives[x] < next)
    ensures DrivesFrom(s, drives, |order|)
    ensures Split(s, |order|)
  {
    hide IndexesCells;
    hide IndexesPorts;
    hide SharedD;
    hide Stepped;
    hide CutAll;
    hide Cut;
    hide Split;
    DrivesNone(s);
    hide DrivesFrom;
    drives, next := map[], k;
    AtStart(s);
    assert Elems(order[..0]) == {};
    for i := 0 to |order|
      invariant idx.Valid() && source.Valid() && source.cells == g.cells
      invariant Split(s, i) && Module(idx.ports, idx.cells) == s.At(i).m && next == s.At(i).next
      invariant drives.Keys == Elems(order[..i]) && (forall x :: x in drives ==> drives[x] < next)
      invariant DrivesFrom(s, drives, i)
    {
      var inst := order[i];
      ghost var b := s.At(i);
      ghost var ids, b' := StepAt(s, NoFault, i);
      SplitAvoids(s, i, idx.known);
      InSource(s, i);
      var shared := DecideShared(source, g, inst);
      var drive: nat;
      drive, next := CutInPlace(idx, inst, shared, keep, next, s.se);
      AtStep(s, NoFault, i);
      SplitStep(s, i);
      DriveBelowNext(b, b', inst, ids, s.keep);
      DrivesMore(s, drives, i, drive);
      drives := drives[inst := drive];
    }
    assert order[..|order|] == order;
  }

  lemma DriveBelowNext(b: Build, b': Build, inst: Name, ids: Ids, keep: set<Name>)
    requires inst in b.m.cells && Stepped(b, b', inst, ids, keep)
    ensures b.next <= ids.drive < b'.next
  {
  }

  lemma SplitAvoids(s: Setup, i: nat, known: set<Name>)
    requires i < |s.order| && Split(s, i) && known == s.g.ports.Keys
    ensures SinglePins(s.At(i).m.cells) && s.order[i] in s.At(i).m.cells
    ensures NewPortsAvoid(s.At(i).m.ports, known, QNet(s.At(i).m.cells[s.order[i]]))
  {
    hide CutAll;
  }

  lemma InSource(s: Setup, i: nat)
    requires s.Valid() && i < |s.order|
    ensures s.order[i] in s.g.cells
  {
    assert s.order[i] in Elems(s.order);
  }

  // The build itself, for records that all name scan cells.
  method BuildScanned(g: Module, order: seq<Name>, keep: set<Name>, drop: set<Name>, sePort: Name, ghost se: nat)
    returns (view: Module, ghost s: Setup, ghost p: Finish)
    requires order != [] && Scannable(g, order, keep, se) && NamesFree(g, order) && AllScan(g, order)
    requires PlainKeep(drop) && sePort in keep
    requires PortsOk(g, Elems(order), Finish(drop, sePort, x => 0, x => false), se)
    ensures s.g == g && s.order == order && s.keep == keep && s.se == se && se < s.next
    ensures p.drop == drop && p.sePort == sePort
    ensures FinishReady(s, p) && view == ReducedView(s, p) && Decided(s, p)
  {
    hide CutAll, DriveNet, ReaderSites;
    hide Cut;
    hide Scannable;
    hide Split;
    hide DropDangling;
    hide BranchAll;
    hide Below;
    hide Occurs;
    hide IndexesCells;
    hide IndexesPorts;
    hide Ready;
    hide PortsOk;
    var k := NextNetId(g);
    s := Setup(g, k, order, x => SharedD(g, x), keep, se);
    SetupIsValid(g, k, order, keep, se);
    SplitStart(s) by { ScannableSingle(g, order, keep, se); }
    var idx := new BitIndex(g);
    var source := new BitIndex(g);
    var drives, next := CutFlops(idx, source, g, order, keep, k, s);
    var dropped := DropPorts(Module(idx.ports, idx.cells), drop);
    var top := NextNetId(dropped);
    TopIdStays(s, drop);
    SameTop(dropped, top, s.At(|order|).next);
    view, p := BranchOutputs(dropped, top, order, drives, drop, sePort);
    PortsOkSame(g, Elems(order), Finish(drop, sePort, x => 0, x => false), p, se);
    assert forall j :: 0 <= j < |order| ==> order[j] in order;
  }

  // The decisions a build takes: which D pins get a branch, where each flop's readers
  // are driven from, and which outputs have a single reader.
  ghost predicate Decided(s: Setup, p: Finish)
  {
    && (forall x :: s.shared(x) == SharedD(s.g, x))
    && (forall j :: 0 <= j < |s.order| ==>
          && p.drives(s.order[j]) == DriveNet(s, j)
          && (p.single(s.order[j]) <==> |ReaderSites(Dropped(s, p).m, p.drives(s.order[j]))| == 1))
  }

  lemma SiteReads(m: Module, n: nat, x: Name, p: Pin)
    ensures Reads(m, x, p, n) <==> (x, p) in ReaderSites(m, n)
  {
  }

  lemma LoneSite(sites: set<(Name, Pin)>)
    ensures |sites| == 1 <==> exists x, p :: (x, p) in sites && forall y, q :: (y, q) in sites ==> y == x && q == p
  {
    if |sites| == 1 {
      var one :| one in sites;
      assert sites == {one} + (sites - {one});
      assert (one.0, one.1) in sites;
    }
    if x, p :| (x, p) in sites && forall y, q :: (y, q) in sites ==> y == x && q == p {
      forall site | site in sites ensures site == (x, p) {
        assert (site.0, site.1) in sites;
      }
      assert sites == {(x, p)};
    }
  }

  lemma OneReaderIs(m: Module, n: nat, skip: Name)
    requires skip !in m.cells
    ensures |ReaderSites(m, n)| == 1 <==> OneReader(m, n, skip)
  {
    forall x, p ensures Reads(m, x, p, n) ==> x != skip {
    }
    hide Reads, ReaderSites;
    forall x, p ensures Reads(m, x, p, n) <==> (x, p) in ReaderSites(m, n) {
      SiteReads(m, n, x, p);
    }
    LoneSite(ReaderSites(m, n));
  }

  lemma OutputsApart(s: Setup, p: Finish)
    requires FinishReady(s, p) && Decided(s, p)
    ensures forall inst :: inst in s.order ==> KeptApart(ReducedView(s, p), inst, p.drives(inst))
  {
    hide ReaderSites, DriveNet, FinishReady, OneReader, KeptApart, Dropped, ReducedView;
    forall inst | inst in s.order ensures KeptApart(ReducedView(s, p), inst, p.drives(inst)) {
      var j := IndexIn(s.order, inst);
      NoBranchBefore(s, p, j);
      OneReaderIs(Dropped(s, p).m, p.drives(inst), Made(QPo, inst));
      ReaderAlone(s, p, j);
    }
  }

  lemma NoBranchBefore(s: Setup, p: Finish, j: nat)
    requires FinishReady(s, p) && Decided(s, p) && j < |s.order|
    ensures Made(QPo, s.order[j]) !in Dropped(s, p).m.cells
  {
    ReadyLaid(s, p);
    hide FinishReady, DriveNet, Dropped, Below;
  }

  // D is a constant, or another cell pin is on its net.
  ghost predicate NeedsBranch(g: Module, inst: Name)
  {
    && inst in g.cells && D in g.cells[inst].conns && |g.cells[inst].conns[D]| == 1
    && match g.cells[inst].conns[D][0]
       case Lit(_) => true
       case Net(n) => exists x, p :: x in g.cells && p in g.cells[x].conns && Net(n) in g.cells[x].conns[p] && !(x == inst && p == D)
  }

  lemma NeedsBranchIs(g: Module, inst: Name)
    requires inst in g.cells && D in g.cells[inst].conns && |g.cells[inst].conns[D]| == 1
    ensures NeedsBranch(g, inst) <==> BranchD(g.cells[inst], SharedD(g, inst))
  {
    var b := g.cells[inst].conns[D][0];
    if b.Net? {
      var sites, own := Sites(g.cells, b.id), (inst, D);
      assert b in g.cells[inst].conns[D] && own in sites;
      if |sites| > 1 {
        assert sites == (sites - {own}) + {own};
        assert |sites - {own}| > 0;
        var other :| other in sites - {own};
        assert other == (other.0, other.1);
      }
      if x, p :| x in g.cells && p in g.cells[x].conns && Net(b.id) in g.cells[x].conns[p] && !(x == inst && p == D) {
        assert (x, p) in sites && (x, p) != own;
        assert {own, (x, p)} <= sites && |{own, (x, p)}| == 2;
        SubsetSites({own, (x, p)}, sites);
      }
    }
  }

  lemma SubsetSites(a: set<(Name, Pin)>, b: set<(Name, Pin)>)
    requires a <= b
    ensures |a| <= |b|
  {
    assert b == a + (b - a);
  }

  ghost predicate HasControl(g: Module, inst: Name) { inst in g.cells && (g.cells[inst].kind == Scan(Reset) || g.cells[inst].kind == Scan(Set)) }

  lemma BranchesAre(s: Setup, p: Finish)
    requires FinishReady(s, p) && Decided(s, p)
    ensures forall inst :: inst in s.order ==> (Made(DBranch, inst) in ReducedView(s, p).cells <==> NeedsBranch(s.g, inst))
    ensures forall inst :: inst in s.order ==> (Made(CtrlBranch, inst) in ReducedView(s, p).cells <==> HasControl(s.g, inst))
  {
    hide *;
    forall inst | inst in s.order
      ensures Made(DBranch, inst) in ReducedView(s, p).cells <==> NeedsBranch(s.g, inst)
      ensures Made(CtrlBranch, inst) in ReducedView(s, p).cells <==> HasControl(s.g, inst)
    {
      DataBranch(s, p, inst);
      ControlBranch(s, p, inst);
    }
  }

  lemma DataBranch(s: Setup, p: Finish, inst: Name)
    requires FinishReady(s, p) && Decided(s, p) && inst in s.order
    ensures Made(DBranch, inst) in ReducedView(s, p).cells <==> NeedsBranch(s.g, inst)
  {
    BranchThere(s, p, inst, D);
    FlopFacts(s, inst);
    hide ReducedView, FinishReady, SharedD, DriveNet, ReaderSites, BranchD, NeedsBranch;
    NeedsBranchIs(s.g, inst);
  }

  lemma ControlBranch(s: Setup, p: Finish, inst: Name)
    requires FinishReady(s, p) && inst in s.order
    ensures Made(CtrlBranch, inst) in ReducedView(s, p).cells <==> HasControl(s.g, inst)
  {
    BranchThere(s, p, inst, CTRL);
    FlopFacts(s, inst);
    hide ReducedView, FinishReady;
  }

  /** The reduced view of a scanned module, or None when a pseudo-port name is
      taken or a record names no scan cell. With no records the module is
      returned as it is. */
  method BuildView(g: Module, order: seq<Name>, keep: set<Name>, drop: set<Name>, sePort: Name, ghost se: nat)
    returns (view: Option<Module>, ghost s: Setup, ghost p: Finish)
    requires Scannable(g, order, keep, se) && PlainKeep(drop) && sePort in keep
    requires PortsOk(g, Elems(order), Finish(drop, sePort, x => 0, x => false), se)
    ensures view.None? <==> Refuses(g, order)
    ensures order == [] ==> view == Some(g)
    ensures view.Some? && order != [] ==>
              && s.g == g && s.order == order && s.keep == keep && s.se == se && se < s.next
              && p.drop == drop && p.sePort == sePort
              && FinishReady(s, p) && view.value == ReducedView(s, p) && Decided(s, p)
              && (forall inst :: inst in order ==> (Made(DBranch, inst) in view.value.cells <==> NeedsBranch(g, inst)))
              && (forall inst :: inst in order ==> (Made(CtrlBranch, inst) in view.value.cells <==> HasControl(g, inst)))
              && (forall inst :: inst in order ==> KeptApart(view.value, inst, p.drives(inst)))
              && PortsDropped(g, order, keep, drop, view.value)
  {
    RefusesIs(g, order);
    hide Decided, NeedsBranch, HasControl, KeptApart, Refuses, PortsDropped;
    s, p := Setup(g, 0, order, x => false, keep, se), Finish(drop, sePort, x => 0, x => false);
    if order == [] {
      return Some(g), s, p;
    }
    if !NamesFree(g, order) || !AllScan(g, order) {
      return None, s, p;
    }
    var m;
    m, s, p := BuildScanned(g, order, keep, drop, sePort, se);
    BranchesAre(s, p);
    OutputsApart(s, p);
    PortFate(s, p);
    view := Some(m);
  }

  lemma ScannableSingle(g: Module, order: seq<Name>, keep: set<Name>, se: nat)
    requires Scannable(g, order, keep, se)
    ensures SinglePins(g.cells)
  {
  }

  lemma SameTop(m: Module, a: nat, b: nat)
    requires Below(m, a) && Below(m, b) && (a > 0 ==> Occurs(m, a - 1)) && b > 0 && Occurs(m, b - 1)
    ensures a == b
  {
    OccursBelow(m, a, b - 1);
    if a > 0 {
      OccursBelow(m, b, a - 1);
    }
  }

  lemma OccursBelow(m: Module, k: nat, n: nat)
    requires Below(m, k) && Occurs(m, n)
    ensures n < k
  {
    if inst, p :| At(m.cells, inst, p, n) {
      assert BitsBelow(m.cells[inst].conns[p], k);
    } else {
      var name :| OnPort(m.ports, name, n);
      assert BitsBelow(m.ports[name].bits, k);
    }
  }

  lemma PortsOkSame(g: Module, rest: set<Name>, p: Finish, p': Finish, se: nat)
    requires PortsOk(g, rest, p, se) && p.drop == p'.drop && p.sePort == p'.sePort
    ensures PortsOk(g, rest, p', se)
  {
  }

  // A branch for every flop output with one reader that is also a primary output.
  method BranchOutputs(m: Module, k: nat, order: seq<Name>, drives: map<Name, nat>, drop: set<Name>, sePort: Name)
    returns (view: Module, ghost p: Finish)
    requires drives.Keys == Elems(order)
    ensures p.drop == drop && p.sePort == sePort
    ensures view == BranchAll(Build(m, k), order, p.drives, p.single).m
    ensures forall x :: x in order ==> x in drives && p.drives(x) == drives[x]
    ensures forall x :: x in order ==> (p.single(x) <==> |ReaderSites(m, p.drives(x))| == 1)
  {
    hide BranchStep;
    var single := map x | x in drives :: |ReaderSites(m, drives[x])| == 1;
    p := Finish(drop, sePort, x => if x in drives then drives[x] else 0, x => x in single && single[x]);
    assert forall x :: x in order ==> x in Elems(order);
    var b := Build(m, k);
    assert order[..0] == [];
    for i := 0 to |order|
      invariant b == BranchAll(Build(m, k), order[..i], p.drives, p.single)
    {
      BranchAllStep(Build(m, k), order, i, p.drives, p.single);
      b := BranchStep(b, order[i], drives[order[i]], single[order[i]]);
    }
    assert order[..|order|] == order;
    view := b.m;
  }

  lemma BranchAllStep(b: Build, order: seq<Name>, i: nat, drives: Name -> nat, single: Name -> bool)
    requires i < |order|
    ensures BranchAll(b, order[..i + 1], drives, single)
         == BranchStep(BranchAll(b, order[..i], drives, single), order[i], drives(order[i]), single(order[i]))
  {
    var o := order[..i + 1];
    assert o[..|o| - 1] == order[..i] && o[|o| - 1] == order[i];
  }

  // Dropping ports never frees the last id handed out.
  lemma TopIdStays(s: Setup, drop: set<Name>)
    requires s.Valid() && s.order != [] && PlainKeep(drop)
    ensures var d, top := DropDangling(s.At(|s.order|).m, drop), s.At(|s.order|).next;
            top > 0 && Below(d, top) && Occurs(d, top - 1)
  {
    hide CutAll, Cut, DropDangling, Below, Occurs, CutReady, Setup.Valid, At, OnPort, QNet, SubFault, Elems;
    var i := |s.order| - 1;
    var ids, b' := StepAt(s, NoFault, i);
    var b, inst := s.At(i), s.order[i];
    StaysReady(s, |s.order|);
    CutTop(b.m, b.next, inst, s.shared(inst), s.keep, s.se);
    AtStep(s, NoFault, i);
    DropOccurs(b'.m, drop, inst, b'.next - 1);
    DropBelow(b'.m, drop, b'.next);
  }

  lemma DropBelow(m: Module, drop: set<Name>, k: nat)
    requires Below(m, k)
    ensures Below(DropDangling(m, drop), k)
  {
    hide CellBelow, BitsBelow;
  }

  lemma DropOccurs(m: Module, drop: set<Name>, inst: Name, n: nat)
    requires PlainKeep(drop) && (OnPort(m.ports, Made(Ppo, inst), n) || exists x, p :: At(m.cells, x, p, n))
    ensures Occurs(DropDangling(m, drop), n)
  {
    var d := DropDangling(m, drop);
    if OnPort(m.ports, Made(Ppo, inst), n) {
      assert OnPort(d.ports, Made(Ppo, inst), n);
    } else {
      var x, p :| At(m.cells, x, p, n);
      assert At(d.cells, x, p, n);
    }
  }
}
