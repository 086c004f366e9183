/** Dropping the scan and clock ports that no cell uses once the flops are cut
    (faultflow/scan/atpg_view.py _drop_dangling_scan_ports), and when that is safe. */
module ViewDrop {
  import opened Netlist
  import opened ScanView
  import opened ViewMeaning

  /* ---- dropping dangling scan and clock ports ---- */

  // Some cell has the net on a pin.
  ghost predicate InGates(cells: map<Name, Cell>, n: nat)
  {
    exists x, p :: x in cells && p in cells[x].conns && Net(n) in cells[x].conns[p]
  }

  ghost predicate UsedByCells(m: Module, n: nat) { InGates(m.cells, n) }

  // A single-bit port among `names` whose net no cell uses any more.
  ghost predicate Dangling(m: Module, names: set<Name>, name: Name)
  {
    && name in names && name in m.ports
    && |m.ports[name].bits| == 1 && m.ports[name].bits[0].Net? && !UsedByCells(m, m.ports[name].bits[0].id)
  }

  ghost function DropDangling(m: Module, names: set<Name>): Module
  {
    m.(ports := map name | name in m.ports && !Dangling(m, names, name) :: m.ports[name])
  }

  ghost predicate DroppedNet(m: Module, names: set<Name>, name: Name, n: nat)
  {
    Dangling(m, names, name) && m.ports[name].dir.Input? && m.ports[name].bits[0] == Net(n)
  }

  // A dropped input's net is on no other input and on no port that stays.
  ghost predicate DropSafe(m: Module, names: set<Name>)
  {
    forall name, other, n: nat ::
      DroppedNet(m, names, name, n) && other in m.ports && other != name && Net(n) in m.ports[other].bits
      ==> other in names && m.ports[other].dir.Output?
  }

  // A valuation of the module without the ports, with their nets put back.
  ghost function Restored(m: Module, names: set<Name>, f: Fault, env: Inputs, v: Valuation): Valuation
  {
    (n: nat) => RestoredNet(m, names, f, env, v, n)
  }

  ghost function RestoredNet(m: Module, names: set<Name>, f: Fault, env: Inputs, v: Valuation, n: nat): bool
  {
    if Free(f, n) && exists name :: DroppedNet(m, names, name, n) then
      var name :| DroppedNet(m, names, name, n); env(name, 0)
    else v(n)
  }

  lemma RestoredElsewhere(m: Module, names: set<Name>, f: Fault, env: Inputs, v: Valuation, bits: seq<Bit>)
    requires forall name, n: nat :: DroppedNet(m, names, name, n) ==> Net(n) !in bits
    ensures BitsVal(Restored(m, names, f, env, v), bits) == BitsVal(v, bits)
  {
    var w := Restored(m, names, f, env, v);
    forall i | 0 <= i < |bits| ensures BitVal(w, bits[i]) == BitVal(v, bits[i]) {
      if bits[i].Net? && exists name :: DroppedNet(m, names, name, bits[i].id) {
        assert false;
      }
    }
  }

  lemma RestoredAt(m: Module, names: set<Name>, f: Fault, env: Inputs, v: Valuation, name: Name, n: nat)
    requires DropSafe(m, names) && DroppedNet(m, names, name, n) && Free(f, n)
    ensures Restored(m, names, f, env, v)(n) == env(name, 0)
  {
    forall other | DroppedNet(m, names, other, n) ensures other == name {
      assert m.ports[name].bits[0] in m.ports[name].bits && m.ports[other].bits[0] in m.ports[other].bits;
    }
  }

  lemma RestoredCell(lib: Library, m: Module, names: set<Name>, f: Fault, env: Inputs, v: Valuation, inst: Name, s: bool)
    requires inst in m.cells && CellOk(lib, f, m.cells[inst], s, v)
    ensures CellOk(lib, f, m.cells[inst], s, Restored(m, names, f, env, v))
  {
    var w, c := Restored(m, names, f, env, v), m.cells[inst];
    forall p | p in c.conns ensures BitsVal(w, c.conns[p]) == BitsVal(v, c.conns[p]) {
      forall name, n: nat | DroppedNet(m, names, name, n) ensures Net(n) !in c.conns[p] {
        assert !UsedByCells(m, n);
      }
      RestoredElsewhere(m, names, f, env, v, c.conns[p]);
    }
    SameOnPins(lib, c, v, w);
    forall p, i | p in c.conns && p in c.outs && 0 <= i < |c.conns[p]| && c.conns[p][i].Net? && Free(f, c.conns[p][i].id)
      ensures w(c.conns[p][i].id) == OutVal(lib, c, p, i, s, w)
    {
      assert BitsVal(w, c.conns[p])[i] == BitsVal(v, c.conns[p])[i];
    }
  }

  lemma DropBack(lib: Library, m: Module, names: set<Name>, f: Fault, env: Inputs, st: State, v: Valuation)
    requires DropSafe(m, names) && Settled(lib, DropDangling(m, names), f, env, st, v)
    ensures Settled(lib, m, f, env, st, Restored(m, names, f, env, v))
  {
    var w, d := Restored(m, names, f, env, v), DropDangling(m, names);
    forall inst | inst in m.cells ensures CellOk(lib, f, m.cells[inst], st(inst), w) {
      assert CellOk(lib, f, d.cells[inst], st(inst), v);
      RestoredCell(lib, m, names, f, env, v, inst, st(inst));
    }
    forall name | name in m.ports ensures PortOk(f, env, name, m.ports[name], w) {
      if Dangling(m, names, name) {
        if m.ports[name].dir.Input? && Free(f, m.ports[name].bits[0].id) {
          RestoredAt(m, names, f, env, v, name, m.ports[name].bits[0].id);
        }
      } else if m.ports[name].dir.Input? {
        assert name in d.ports && PortOk(f, env, name, d.ports[name], v);
        RestoredPort(m, names, f, env, v, name);
        forall i | 0 <= i < |m.ports[name].bits| && m.ports[name].bits[i].Net?
          ensures w(m.ports[name].bits[i].id) == v(m.ports[name].bits[i].id)
        {
          assert BitsVal(w, m.ports[name].bits)[i] == BitsVal(v, m.ports[name].bits)[i];
        }
      }
    }
  }

  lemma RestoredPort(m: Module, names: set<Name>, f: Fault, env: Inputs, v: Valuation, name: Name)
    requires DropSafe(m, names) && name in m.ports && !Dangling(m, names, name) && (name !in names || m.ports[name].dir.Input?)
    ensures BitsVal(Restored(m, names, f, env, v), m.ports[name].bits) == BitsVal(v, m.ports[name].bits)
  {
    forall other, n: nat | DroppedNet(m, names, other, n) ensures Net(n) !in m.ports[name].bits {
      assert m.ports[other].bits[0] in m.ports[other].bits;
    }
    RestoredElsewhere(m, names, f, env, v, m.ports[name].bits);
  }

  lemma DropForth(lib: Library, m: Module, names: set<Name>, f: Fault, env: Inputs, st: State, v: Valuation)
    requires Settled(lib, m, f, env, st, v)
    ensures Settled(lib, DropDangling(m, names), f, env, st, v)
  {
  }

  /* ---- what the cuts leave of a net that no flop drives ---- */

  // The pins of a flop that its gates in the view still read.
  predicate ViewReads(c: Cell, p: Pin) { p == D || (p == CTRL && c.kind.Scan? && !c.kind.ctl.NoControl?) }

  ghost predicate ReadAt(g: Module, cut: set<Name>, n: nat, x: Name, p: Pin)
  {
    x in g.cells && p in g.cells[x].conns && Net(n) in g.cells[x].conns[p] && (x !in cut || ViewReads(g.cells[x], p))
  }

  // Some cell uses the net after the flops in `cut` are cut.
  ghost predicate StillRead(g: Module, cut: set<Name>, n: nat) { exists x, p :: ReadAt(g, cut, n, x, p) }

  // A droppable input that no cell uses any more, with its net on another input
  // or on a port that stays.
  ghost predicate Forwarded(g: Module, cut: set<Name>, drop: set<Name>, name: Name, other: Name, n: nat)
  {
    && name in drop && name in g.ports && g.ports[name] == Port(Input, [Net(n)]) && !StillRead(g, cut, n)
    && other in g.ports && other != name && Net(n) in g.ports[other].bits
    && (other !in drop || g.ports[other].dir.Input?)
  }

  ghost predicate NoForward(s: Setup, drop: set<Name>)
  {
    forall name, other, n: nat :: !Forwarded(s.g, Elems(s.order), drop, name, other, n)
  }

  // A net of the netlist that is no flop's output.
  ghost predicate Foreign(s: Setup, n: nat)
  {
    n < s.next && forall inst :: inst in s.order && inst in s.g.cells ==> QNet(s.g.cells[inst]) != n
  }

  // The net sits where it did: on the same bits of the ports, on the same pins of
  // the cells not yet cut, and on no new port.
  ghost predicate PortsHold(g: Module, m: Module, n: nat)
  {
    && (forall name :: name in g.ports ==>
          && name in m.ports && m.ports[name].dir == g.ports[name].dir && |m.ports[name].bits| == |g.ports[name].bits|
          && forall k :: 0 <= k < |g.ports[name].bits| ==> (m.ports[name].bits[k] == Net(n) <==> g.ports[name].bits[k] == Net(n)))
    && (forall name :: name in m.ports && name !in g.ports ==> Net(n) !in m.ports[name].bits)
  }

  ghost predicate CellsHold(g: Module, m: Module, cut: set<Name>, n: nat)
  {
    forall x :: x in g.cells && x !in cut ==>
      && x in m.cells && m.cells[x].kind == g.cells[x].kind && m.cells[x].conns.Keys == g.cells[x].conns.Keys
      && forall p :: p in g.cells[x].conns ==>
           |m.cells[x].conns[p]| == |g.cells[x].conns[p]| && (Net(n) in m.cells[x].conns[p] <==> Net(n) in g.cells[x].conns[p])
  }

  // The cells that are not the netlist's.
  ghost function Added(g: Module, m: Module): map<Name, Cell> { map x | x in m.cells && x !in g.cells :: m.cells[x] }

  ghost predicate CutReads(g: Module, cut: set<Name>, n: nat)
  {
    exists x, p :: x in cut && ReadAt(g, cut, n, x, p)
  }

  ghost predicate Holds(s: Setup, n: nat, i: nat)
    requires i <= |s.order|
  {
    var g, m, cut := s.g, s.At(i).m, Elems(s.order[..i]);
    && PortsHold(g, m, n) && CellsHold(g, m, cut, n)
    && (forall x :: x in m.cells && x in g.cells ==> x !in cut)
    && (InGates(Added(g, m), n) <==> CutReads(g, cut, n))
  }

  lemma SubBitsHas(bits: seq<Bit>, q: nat, r: nat, n: nat)
    requires Net(n) in SubBits(bits, q, r)
    ensures n == r || Net(n) in bits
  {
    var i :| 0 <= i < |bits| && SubBits(bits, q, r)[i] == Net(n);
    assert SubBit(bits[i], q, r) == Net(n);
  }

  lemma SubHas(bits: seq<Bit>, q: nat, r: nat, n: nat)
    requires n != q && n != r
    ensures |SubBits(bits, q, r)| == |bits|
    ensures forall k :: 0 <= k < |bits| ==> (SubBits(bits, q, r)[k] == Net(n) <==> bits[k] == Net(n))
    ensures Net(n) in SubBits(bits, q, r) <==> Net(n) in bits
  {
    var b := SubBits(bits, q, r);
    assert forall k :: 0 <= k < |bits| ==> b[k] == SubBit(bits[k], q, r);
    if Net(n) in bits {
      var k :| 0 <= k < |bits| && bits[k] == Net(n);
      assert b[k] == Net(n);
    }
  }

  lemma PortsHoldStep(g: Module, b: Build, b': Build, inst: Name, ids: Ids, keep: set<Name>, n: nat)
    requires inst in b.m.cells && Stepped(b, b', inst, ids, keep) && PortsHold(g, b.m, n)
    requires n < b.next && n != QNet(b.m.cells[inst])
    ensures PortsHold(g, b'.m, n)
  {
    var q := QNet(b.m.cells[inst]);
    forall name | name in b.m.ports
      ensures name in b'.m.ports && b'.m.ports[name].dir == b.m.ports[name].dir && |b'.m.ports[name].bits| == |b.m.ports[name].bits|
      ensures forall k :: 0 <= k < |b.m.ports[name].bits| ==> (b'.m.ports[name].bits[k] == Net(n) <==> b.m.ports[name].bits[k] == Net(n))
      ensures Net(n) in b'.m.ports[name].bits <==> Net(n) in b.m.ports[name].bits
    {
      SubHas(b.m.ports[name].bits, q, ids.drive, n);
    }
    hide SubBits;
  }

  lemma CellsHoldStep(g: Module, b: Build, b': Build, inst: Name, ids: Ids, keep: set<Name>, cut: set<Name>, n: nat)
    requires inst in b.m.cells && Stepped(b, b', inst, ids, keep) && CellsHold(g, b.m, cut, n)
    requires n < b.next && n != QNet(b.m.cells[inst])
    ensures CellsHold(g, b'.m, cut + {inst}, n)
  {
    var q := QNet(b.m.cells[inst]);
    forall x | x in b.m.cells && x != inst
      ensures x in b'.m.cells && b'.m.cells[x].kind == b.m.cells[x].kind && b'.m.cells[x].conns.Keys == b.m.cells[x].conns.Keys
      ensures forall p :: p in b.m.cells[x].conns ==>
                |b'.m.cells[x].conns[p]| == |b.m.cells[x].conns[p]| && (Net(n) in b'.m.cells[x].conns[p] <==> Net(n) in b.m.cells[x].conns[p])
    {
      assert b'.m.cells[x] == SubCell(b.m.cells[x], q, ids.drive);
      forall p | p in b.m.cells[x].conns
        ensures |b'.m.cells[x].conns[p]| == |b.m.cells[x].conns[p]| && (Net(n) in b'.m.cells[x].conns[p] <==> Net(n) in b.m.cells[x].conns[p])
      {
        SubHas(b.m.cells[x].conns[p], q, ids.drive, n);
      }
    }
    hide SubBits, SubCell, Stepped;
  }

  lemma BufHas(a: Bit, y: nat, n: nat)
    requires n != y
    ensures forall p :: p in BufCell(a, y).conns ==> (Net(n) in BufCell(a, y).conns[p] <==> p == A && a == Net(n))
    ensures forall p :: p in InvCell(a, y).conns ==> (Net(n) in InvCell(a, y).conns[p] <==> p == A && a == Net(n))
  {}

  lemma GateHas(kind: Kind, a: Bit, b: Bit, y: nat, n: nat)
    requires n != y
    ensures forall p :: p in Gate2(kind, a, b, y).conns ==>
              (Net(n) in Gate2(kind, a, b, y).conns[p] <==> (p == A && a == Net(n)) || (p == B && b == Net(n)))
  {}

  // Of the nets below k, the output gates read the control line.
  lemma QGatesHave(inst: Name, ctl: Control, line: Bit, branchD: bool, k: nat, n: nat)
    requires n < k
    ensures InGates(QGates(inst, ctl, line, IdsFrom(ctl, branchD, k)), n) <==> !ctl.NoControl? && line == Net(n)
  {
    var ids := IdsFrom(ctl, branchD, k);
    var gates := QGates(inst, ctl, line, ids);
    if !ctl.NoControl? {
      BufHas(line, ids.branch, n);
      GateHas(And2, Net(ids.ppi), Net(ids.branch), ids.drive, n);
      if ctl.Set? {
        BufHas(Net(ids.branch), ids.qinv, n);
        GateHas(Or2, Net(ids.ppi), Net(ids.qinv), ids.drive, n);
      }
      hide BufCell, InvCell, Gate2;
      if line == Net(n) {
        assert A in BufCell(line, ids.branch).conns by { BufPins(line, ids.branch); }
        assert Net(n) in gates[Made(CtrlBranch, inst)].conns[A];
      }
    }
  }

  lemma BufPins(a: Bit, y: nat)
    ensures BufCell(a, y).conns.Keys == {A, Y}
  {}

  lemma DMuxHave(inst: Name, ctl: Control, tap: Bit, branchD: bool, k: nat, n: nat)
    requires n < k
    ensures InGates(DMuxGates(inst, ctl, tap, IdsFrom(ctl, branchD, k)), n) <==> !ctl.NoControl? && tap == Net(n)
  {
    var ids := IdsFrom(ctl, branchD, k);
    var gates := DMuxGates(inst, ctl, tap, ids);
    if !ctl.NoControl? {
      GateHas(And2, tap, Net(ids.branch), ids.dmux, n);
      if ctl.Set? {
        BufHas(Net(ids.branch), ids.dinv, n);
        GateHas(Or2, tap, Net(ids.dinv), ids.dmux, n);
      }
      assert A in gates[Made(DMux, inst)].conns;
      hide BufCell, InvCell, Gate2;
      if tap == Net(n) {
        assert Net(n) in gates[Made(DMux, inst)].conns[A];
      }
    }
  }

  lemma JoinHave(a: map<Name, Cell>, b: map<Name, Cell>, n: nat)
    requires a.Keys !! b.Keys
    ensures InGates(a + b, n) <==> InGates(a, n) || InGates(b, n)
  {
    var all := a + b;
    if x, p :| x in a && p in a[x].conns && Net(n) in a[x].conns[p] {
      assert all[x] == a[x];
    }
    if x, p :| x in b && p in b[x].conns && Net(n) in b[x].conns[p] {
      assert all[x] == b[x];
    }
  }

  lemma OneHas(x: Name, a: Bit, y: nat, n: nat)
    requires n != y
    ensures InGates(map[x := BufCell(a, y)], n) <==> a == Net(n)
  {
    BufHas(a, y, n);
    BufPins(a, y);
    hide BufCell;
    var gates := map[x := BufCell(a, y)];
    if a == Net(n) {
      assert Net(n) in gates[x].conns[A];
    }
  }

  // The capture gates read D.
  lemma DGatesHave(inst: Name, ctl: Control, d: Bit, branchD: bool, k: nat, n: nat)
    requires n < k
    ensures InGates(DGates(inst, ctl, d, branchD, IdsFrom(ctl, branchD, k)), n) <==> d == Net(n)
  {
    var ids := IdsFrom(ctl, branchD, k);
    var tap := if branchD then Net(ids.dbranch) else d;
    var seen := if ctl.NoControl? then tap else Net(ids.dmux);
    var first := if branchD then map[Made(DBranch, inst) := BufCell(d, ids.dbranch)] else map[];
    var last := map[Made(Observe, inst) := BufCell(seen, ids.ppo)];
    DMuxHave(inst, ctl, tap, branchD, k, n);
    OneHas(Made(Observe, inst), seen, ids.ppo, n);
    OneHas(Made(DBranch, inst), d, ids.dbranch, n);
    hide BufCell, DMuxGates, InGates;
    JoinHave(first, DMuxGates(inst, ctl, tap, ids), n);
    JoinHave(first + DMuxGates(inst, ctl, tap, ids), last, n);
    assert !branchD ==> !InGates(first, n) by { EmptyHas(n); }
  }

  lemma EmptyHas(n: nat)
    ensures !InGates(map[], n)
  {}

  // The gates of one cut have a net of the module exactly on the flop's read pins.
  lemma NewGatesHave(m: Module, k: nat, inst: Name, shared: bool, keep: set<Name>, se: nat, n: nat)
    requires CutReady(m, k, inst, se, keep) && n < k && n != QNet(m.cells[inst])
    ensures InGates(NewGates(m, k, inst, shared, keep), n)
       <==> exists p :: p in m.cells[inst].conns && ViewReads(m.cells[inst], p) && Net(n) in m.cells[inst].conns[p]
  {
    NewGatesAre(m, k, inst, shared, keep);
    GatesHave(m.cells[inst], inst, k, shared, se, n);
    hide NewGates, QGates, DGates, InGates, SubCell, OneBit, BranchD, ViewReads;
  }

  lemma ShapeScans(c: Cell, se: nat)
    requires ScanShape(c, se)
    ensures c.kind.Scan?
  {}

  lemma DriveFresh(ctl: Control, branchD: bool, k: nat)
    ensures k <= IdsFrom(ctl, branchD, k).drive
  {}

  lemma GatesHave(c: Cell, inst: Name, k: nat, shared: bool, se: nat, n: nat)
    requires ScanShape(c, se) && n < k && n != QNet(c)
    ensures var ids := IdsFrom(c.kind.ctl, BranchD(c, shared), k);
            var r := SubCell(c, QNet(c), ids.drive);
            InGates(QGates(inst, c.kind.ctl, OneBit(r, CTRL), ids) + DGates(inst, c.kind.ctl, OneBit(r, D), BranchD(r, shared), ids), n)
            <==> exists p :: p in c.conns && ViewReads(c, p) && Net(n) in c.conns[p]
  {
    hide *;
    ShapeScans(c, se);
    var ids := IdsFrom(c.kind.ctl, BranchD(c, shared), k);
    var r := SubCell(c, QNet(c), ids.drive);
    DriveFresh(c.kind.ctl, BranchD(c, shared), k);
    ReadPins(c, n, se);
    ReadBits(c, ids.drive, se, n);
    QGatesHave(inst, c.kind.ctl, OneBit(r, CTRL), BranchD(c, shared), k, n);
    DGatesHave(inst, c.kind.ctl, OneBit(r, D), BranchD(c, shared), k, n);
    JoinHave(QGates(inst, c.kind.ctl, OneBit(r, CTRL), ids), DGates(inst, c.kind.ctl, OneBit(r, D), BranchD(c, shared), ids), n);
  }

  lemma ReadPins(c: Cell, n: nat, se: nat)
    requires ScanShape(c, se)
    ensures (exists p :: p in c.conns && ViewReads(c, p) && Net(n) in c.conns[p])
       <==> (D in c.conns && Net(n) in c.conns[D]) || (!c.kind.ctl.NoControl? && CTRL in c.conns && Net(n) in c.conns[CTRL])
  {
    assert ViewReads(c, D);
  }

  lemma NewGatesAre(m: Module, k: nat, inst: Name, shared: bool, keep: set<Name>)
    requires inst in m.cells && m.cells[inst].kind.Scan?
    ensures var c, ids := m.cells[inst], CutIds(m, k, inst, shared);
            var r := SubCell(c, QNet(c), ids.drive);
            NewGates(m, k, inst, shared, keep)
            == QGates(inst, c.kind.ctl, OneBit(r, CTRL), ids) + DGates(inst, c.kind.ctl, OneBit(r, D), BranchD(r, shared), ids)
  {
    hide QGates, DGates, SubBits, OneBit, BranchD, QNet, CutIds;
  }

  // Renaming the flop's own net changes none of the bits its gates read but that.
  lemma ReadBits(c: Cell, drive: nat, se: nat, n: nat)
    requires ScanShape(c, se) && n != QNet(c) && n != drive
    ensures var r := SubCell(c, QNet(c), drive);
            && (forall shared :: BranchD(r, shared) == BranchD(c, shared))
            && (OneBit(r, D) == Net(n) <==> D in c.conns && Net(n) in c.conns[D])
            && (!c.kind.ctl.NoControl? ==> (OneBit(r, CTRL) == Net(n) <==> CTRL in c.conns && Net(n) in c.conns[CTRL]))
  {
    OneBitSub(c, CTRL, QNet(c), drive, x => false);
    OneBitSub(c, D, QNet(c), drive, x => false);
    hide SubCell;
    assert Net(n) in c.conns[D] <==> c.conns[D][0] == Net(n);
    assert !c.kind.ctl.NoControl? ==> (Net(n) in c.conns[CTRL] <==> c.conns[CTRL][0] == Net(n));
  }

  // A cut changes what the added cells have of the net by the flop's read pins.
  lemma AddedStep(g: Module, b: Build, b': Build, inst: Name, shared: bool, keep: set<Name>, se: nat, n: nat)
    requires CutReady(b.m, b.next, inst, se, keep) && n < b.next && n != QNet(b.m.cells[inst])
    requires b'.m == Cut(b.m, b.next, inst, shared, keep) && Stepped(b, b', inst, CutIds(b.m, b.next, inst, shared), keep)
    requires inst in g.cells && forall t :: ViewTag(t) ==> Made(t, inst) !in g.cells
    ensures InGates(Added(g, b'.m), n) <==> InGates(Added(g, b.m), n) || InGates(NewGates(b.m, b.next, inst, shared, keep), n)
  {
    var q, drive := QNet(b.m.cells[inst]), CutIds(b.m, b.next, inst, shared).drive;
    var gates, old', new' := NewGates(b.m, b.next, inst, shared, keep), Added(g, b.m), Added(g, b'.m);
    CutKeeps(b.m, b.next, inst, shared, keep, se);
    hide NewGates, Cut, CutReady, QNet;
    forall x | x in gates ensures x in new' && new'[x] == gates[x] {
      assert x == Made(x.tag, inst);
    }
    forall x | x in old' ensures x in new' && new'[x] == SubCell(old'[x], q, drive) {}
    forall x | x in new' ensures x in gates || x in old' {}
    hide Added, Stepped;
    if x, p :| x in old' && p in old'[x].conns && Net(n) in old'[x].conns[p] {
      SubHas(old'[x].conns[p], q, drive, n);
      assert Net(n) in new'[x].conns[p];
    }
    if x, p :| x in gates && p in gates[x].conns && Net(n) in gates[x].conns[p] {
      assert Net(n) in new'[x].conns[p];
    }
    if x, p :| x in new' && p in new'[x].conns && Net(n) in new'[x].conns[p] {
      if x !in gates {
        SubHas(old'[x].conns[p], q, drive, n);
        assert Net(n) in old'[x].conns[p];
      }
    }
  }

  lemma CutReadsMore(g: Module, cut: set<Name>, inst: Name, n: nat)
    requires inst in g.cells
    ensures CutReads(g, cut + {inst}, n) <==>
              CutReads(g, cut, n) || exists p :: p in g.cells[inst].conns && ViewReads(g.cells[inst], p) && Net(n) in g.cells[inst].conns[p]
  {
    var more := cut + {inst};
    if x, p :| x in cut && ReadAt(g, cut, n, x, p) {
      assert x in more && ReadAt(g, more, n, x, p);
    }
    if p :| p in g.cells[inst].conns && ViewReads(g.cells[inst], p) && Net(n) in g.cells[inst].conns[p] {
      assert inst in more && ReadAt(g, more, n, inst, p);
    }
    if x, p :| x in more && ReadAt(g, more, n, x, p) {
      if x in cut {
        assert ReadAt(g, cut, n, x, p);
      }
    }
  }

  lemma HoldsStart(s: Setup, n: nat)
    ensures Holds(s, n, 0)
  {
    assert s.order[..0] == [];
    assert Added(s.g, s.g) == map[];
    EmptyHas(n);
  }

  lemma HoldsStep(s: Setup, n: nat, i: nat)
    requires s.Valid() && Foreign(s, n) && i < |s.order| && Holds(s, n, i)
    ensures Holds(s, n, i + 1)
  {
    var g, inst := s.g, s.order[i];
    var ids, b' := StepAt(s, NoFault, i);
    var b, cut := s.At(i), Elems(s.order[..i]);
    StaysReady(s, i);
    assert CutReady(g, s.next, inst, s.se, s.keep) by { assert inst in Elems(s.order); }
    hide Setup.At, Setup.FaultAt, Setup.Valid, CutAll, Cut, Ready;
    assert n < b.next;
    assert inst in g.cells && inst !in cut && forall t :: ViewTag(t) ==> Made(t, inst) !in g.cells;
    SameQ(g, b.m, cut, inst, n, b.next, s.next, s.se, s.keep);
    hide CutReady;
    PortsHoldStep(g, b, b', inst, ids, s.keep, n);
    CellsHoldStep(g, b, b', inst, ids, s.keep, cut, n);
    AddedStep(g, b, b', inst, s.shared(inst), s.keep, s.se, n);
    NewGatesHave(b.m, b.next, inst, s.shared(inst), s.keep, s.se, n);
    CutReadsMore(g, cut, inst, n);
    SameReads(g, b.m, cut, inst, n);
    forall x | x in b'.m.cells && x in g.cells ensures x !in cut + {inst} {
      GateOrOld(g, b, b', inst, ids, s.keep, x);
    }
  }

  lemma GateOrOld(g: Module, b: Build, b': Build, inst: Name, ids: Ids, keep: set<Name>, x: Name)
    requires inst in b.m.cells && Stepped(b, b', inst, ids, keep) && x in b'.m.cells && x in g.cells
    requires forall t :: ViewTag(t) ==> Made(t, inst) !in g.cells
    ensures x in b.m.cells && x != inst
  {}

  lemma SameQ(g: Module, m: Module, cut: set<Name>, inst: Name, n: nat, k: nat, l: nat, se: nat, keep: set<Name>)
    requires CutReady(m, k, inst, se, keep) && CutReady(g, l, inst, se, keep) && CellsHold(g, m, cut, n) && inst !in cut
    requires QNet(g.cells[inst]) != n
    ensures QNet(m.cells[inst]) != n
  {
    assert m.cells[inst].conns[Q][0] == Net(n) ==> Net(n) in m.cells[inst].conns[Q];
  }

  lemma SameReads(g: Module, m: Module, cut: set<Name>, inst: Name, n: nat)
    requires CellsHold(g, m, cut, n) && inst in g.cells && inst !in cut
    ensures inst in m.cells
    ensures (exists p :: p in m.cells[inst].conns && ViewReads(m.cells[inst], p) && Net(n) in m.cells[inst].conns[p])
       <==> (exists p :: p in g.cells[inst].conns && ViewReads(g.cells[inst], p) && Net(n) in g.cells[inst].conns[p])
  {}

  lemma {:induction false} HoldsAll(s: Setup, n: nat, i: nat)
    requires s.Valid() && Foreign(s, n) && i <= |s.order|
    ensures Holds(s, n, i)
  {
    hide Holds, Setup.Valid, Foreign;
    if i == 0 {
      HoldsStart(s, n);
    } else {
      HoldsAll(s, n, i - 1);
      HoldsStep(s, n, i - 1);
    }
  }

  /** After all cuts a net that no flop drives is used by a cell exactly when some
      cell that stays has it, or a cut flop has it on D or on its control. */
  lemma UsedAfterCuts(s: Setup, n: nat)
    requires s.Valid() && Foreign(s, n)
    ensures UsedByCells(s.At(|s.order|).m, n) <==> StillRead(s.g, Elems(s.order), n)
    ensures PortsHold(s.g, s.At(|s.order|).m, n)
  {
    HoldsAll(s, n, |s.order|);
    var g, m, cut := s.g, s.At(|s.order|).m, Elems(s.order);
    assert s.order[..|s.order|] == s.order;
    assert PortsHold(g, m, n) && CellsHold(g, m, cut, n) && (InGates(Added(g, m), n) <==> CutReads(g, cut, n));
    hide Setup.At, CutAll, Holds, PortsHold, Setup.Valid, Elems;
    if x, p :| x in m.cells && p in m.cells[x].conns && Net(n) in m.cells[x].conns[p] {
      if x in g.cells {
        assert ReadAt(g, cut, n, x, p);
      } else {
        assert Added(g, m)[x] == m.cells[x];
        assert InGates(Added(g, m), n);
      }
    }
    if x, p :| ReadAt(g, cut, n, x, p) {
      if x in cut {
        assert CutReads(g, cut, n);
        var y, r :| y in Added(g, m) && r in Added(g, m)[y].conns && Net(n) in Added(g, m)[y].conns[r];
        assert Net(n) in m.cells[y].conns[r];
      } else {
        assert Net(n) in m.cells[x].conns[p];
      }
    }
  }
}
