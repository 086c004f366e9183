/** Which scan and clock ports the reduced view still has (faultflow/scan/atpg_view.py):
    a flop's old output net is left on no cell, so a scan output on it goes, and a scan or
    clock input goes exactly when nothing but the cut flops' scan pins used its net. */
module ViewPorts {
  import opened Netlist
  import opened ScanView
  import opened ViewMeaning
  import opened ViewDrop
  import opened ViewFinish
  import opened ViewPins

  lemma SubGone(bits: seq<Bit>, q: nat, r: nat)
    requires q != r
    ensures Net(q) !in SubBits(bits, q, r)
  {
    assert forall i :: 0 <= i < |bits| ==> SubBits(bits, q, r)[i] == SubBit(bits[i], q, r);
  }

  lemma BitGone(c: Cell, p: Pin, q: nat, r: nat)
    requires q != r
    ensures OneBit(SubCell(c, q, r), p) != Net(q)
  {
    if p in c.conns {
      SubGone(c.conns[p], q, r);
      assert SubCell(c, q, r).conns[p] == SubBits(c.conns[p], q, r);
    }
    hide SubBits;
  }

  // The gates a cut makes do not read the flop's old output net.
  lemma GatesClear(m: Module, k: nat, inst: Name, shared: bool, keep: set<Name>, se: nat)
    requires CutReady(m, k, inst, se, keep) && QNet(m.cells[inst]) < k
    ensures !InGates(NewGates(m, k, inst, shared, keep), QNet(m.cells[inst]))
  {
    NewGatesAre(m, k, inst, shared, keep);
    hide *;
    ReadyScan(m, k, inst, se, keep);
    OneGatesClear(m.cells[inst], inst, k, shared);
    CutIdsAre(m, k, inst, shared);
  }

  lemma OneGatesClear(c: Cell, inst: Name, k: nat, shared: bool)
    requires c.kind.Scan? && QNet(c) < k
    ensures var ids := IdsFrom(c.kind.ctl, BranchD(c, shared), k);
            var r := SubCell(c, QNet(c), ids.drive);
            !InGates(QGates(inst, c.kind.ctl, OneBit(r, CTRL), ids) + DGates(inst, c.kind.ctl, OneBit(r, D), BranchD(r, shared), ids), QNet(c))
  {
    BranchStays(c, QNet(c), IdsFrom(c.kind.ctl, BranchD(c, shared), k).drive, shared);
    hide *;
    var ids, n := IdsFrom(c.kind.ctl, BranchD(c, shared), k), QNet(c);
    var r := SubCell(c, n, ids.drive);
    DriveFresh(c.kind.ctl, BranchD(c, shared), k);
    BitGone(c, CTRL, n, ids.drive);
    BitGone(c, D, n, ids.drive);
    PairClear(inst, c.kind.ctl, OneBit(r, CTRL), OneBit(r, D), BranchD(c, shared), k, n);
  }

  lemma PairClear(inst: Name, ctl: Control, line: Bit, d: Bit, branchD: bool, k: nat, n: nat)
    requires n < k && line != Net(n) && d != Net(n)
    ensures var ids := IdsFrom(ctl, branchD, k); !InGates(QGates(inst, ctl, line, ids) + DGates(inst, ctl, d, branchD, ids), n)
  {
    hide *;
    var ids := IdsFrom(ctl, branchD, k);
    QGatesHave(inst, ctl, line, branchD, k, n);
    DGatesHave(inst, ctl, d, branchD, k, n);
    JoinHave(QGates(inst, ctl, line, ids), DGates(inst, ctl, d, branchD, ids), n);
  }

  lemma BranchStays(c: Cell, q: nat, r: nat, shared: bool)
    ensures BranchD(SubCell(c, q, r), shared) == BranchD(c, shared)
  {
    if D in c.conns {
      assert SubCell(c, q, r).conns[D] == SubBits(c.conns[D], q, r);
    }
  }

  lemma CutCells(m: Module, k: nat, inst: Name, shared: bool, keep: set<Name>, x: Name)
    requires inst in m.cells && m.cells[inst].kind.Scan? && x in Cut(m, k, inst, shared, keep).cells
    ensures var c, gates := Cut(m, k, inst, shared, keep).cells[x], NewGates(m, k, inst, shared, keep);
            || (x in gates && c == gates[x])
            || (x in m.cells && c == SubCell(m.cells[x], QNet(m.cells[inst]), CutIds(m, k, inst, shared).drive))
  {
    hide NewGates, SubCell, QNet, CutIds;
  }

  lemma CutClear(m: Module, k: nat, inst: Name, shared: bool, keep: set<Name>, se: nat)
    requires CutReady(m, k, inst, se, keep) && QNet(m.cells[inst]) < k
    ensures !InGates(Cut(m, k, inst, shared, keep).cells, QNet(m.cells[inst]))
  {
    GatesClear(m, k, inst, shared, keep, se);
    DriveFresh(m.cells[inst].kind.ctl, BranchD(m.cells[inst], shared), k);
    var q, drive := QNet(m.cells[inst]), CutIds(m, k, inst, shared).drive;
    hide Cut, NewGates, QNet, CutIds, BranchD, IdsFrom, Below;
    var cells := Cut(m, k, inst, shared, keep).cells;
    forall x, p | x in cells && p in cells[x].conns ensures Net(q) !in cells[x].conns[p] {
      CutCells(m, k, inst, shared, keep, x);
      if x in m.cells && cells[x] == SubCell(m.cells[x], q, drive) {
        SubGone(m.cells[x].conns[p], q, drive);
      }
    }
  }

  // A net on no cell stays on none.
  lemma CutStaysClear(m: Module, k: nat, inst: Name, shared: bool, keep: set<Name>, se: nat, n: nat)
    requires CutReady(m, k, inst, se, keep) && n < k && n != QNet(m.cells[inst]) && !InGates(m.cells, n)
    ensures !InGates(Cut(m, k, inst, shared, keep).cells, n)
  {
    NewGatesHave(m, k, inst, shared, keep, se, n);
    DriveFresh(m.cells[inst].kind.ctl, BranchD(m.cells[inst], shared), k);
    var q, drive := QNet(m.cells[inst]), CutIds(m, k, inst, shared).drive;
    hide Cut, NewGates, QNet, CutIds, BranchD, IdsFrom, Below, ViewReads;
    var cells := Cut(m, k, inst, shared, keep).cells;
    forall x, p | x in cells && p in cells[x].conns ensures Net(n) !in cells[x].conns[p] {
      CutCells(m, k, inst, shared, keep, x);
      if x in m.cells && cells[x] == SubCell(m.cells[x], q, drive) {
        ViewDrop.SubHas(m.cells[x].conns[p], q, drive, n);
      }
    }
  }

  /** Once a flop is cut, its old output net is on no cell. */
  lemma {:induction false} OutputGone(s: Setup, j: nat, i: nat)
    requires s.Valid() && j < i <= |s.order| && s.order[j] in s.g.cells
    ensures !InGates(s.At(i).m.cells, QNet(s.g.cells[s.order[j]]))
    decreases i
  {
    hide *;
    StartFlop(s, j);
    NextGrows(s, 0, i - 1);
    AtStart(s);
    StepOf(s, i - 1);
    OutputSame(s, i - 1, i - 1);
    var b, inst := s.At(i - 1), s.order[i - 1];
    if i == j + 1 {
      CutClear(b.m, b.next, inst, s.shared(inst), s.keep, s.se);
    } else {
      OutputGone(s, j, i - 1);
      OutputsApart(s, i - 1, j);
      CutStaysClear(b.m, b.next, inst, s.shared(inst), s.keep, s.se, QNet(s.g.cells[s.order[j]]));
    }
  }

  // A port the rewiring leaves alone.
  lemma {:induction false} KeptSame(s: Setup, name: Name, i: nat)
    requires s.Valid() && i <= |s.order| && name in s.keep && name in s.g.ports
    ensures name in s.At(i).m.ports && s.At(i).m.ports[name] == s.g.ports[name]
    decreases i
  {
    hide *;
    if i == 0 {
      AtStart(s);
    } else {
      KeptSame(s, name, i - 1);
      StepOf(s, i - 1);
      PlainName(s, name);
      CutPort(s.At(i - 1).m, s.At(i - 1).next, s.order[i - 1], s.shared(s.order[i - 1]), s.keep, name);
    }
  }

  lemma PlainName(s: Setup, name: Name)
    requires s.Valid() && name in s.keep
    ensures !(name.Made? && (name.tag.Ppi? || name.tag.Ppo?))
  {}

  lemma CutPort(m: Module, k: nat, inst: Name, shared: bool, keep: set<Name>, name: Name)
    requires inst in m.cells && m.cells[inst].kind.Scan? && name in m.ports && name in keep
    requires !(name.Made? && (name.tag.Ppi? || name.tag.Ppo?))
    ensures name in Cut(m, k, inst, shared, keep).ports && Cut(m, k, inst, shared, keep).ports[name] == m.ports[name]
  {
    hide NewGates, SubCell, QNet, CutIds, SubBits;
  }

  lemma {:induction false} BranchPorts(b: Build, order: seq<Name>, drives: Name -> nat, single: Name -> bool)
    ensures BranchAll(b, order, drives, single).m.ports.Keys == b.m.ports.Keys
  {
    hide ShownAt, SubBits;
    if order != [] {
      BranchPorts(b, order[..|order| - 1], drives, single);
    }
  }

  // A port whose single net is used by a cell of the cut netlist is in the view.
  lemma DropTells(s: Setup, p: Finish, name: Name, n: nat)
    requires name in p.drop && name in s.At(|s.order|).m.ports && s.At(|s.order|).m.ports[name].bits == [Net(n)]
    ensures name in ReducedView(s, p).ports <==> UsedByCells(s.At(|s.order|).m, n)
  {
    BranchPorts(Dropped(s, p), s.order, p.drives, p.single);
    hide BranchAll, CutAll, UsedByCells;
  }

  ghost predicate DrivenByFlop(g: Module, order: seq<Name>, n: nat)
  {
    exists inst :: inst in order && inst in g.cells && QNet(g.cells[inst]) == n
  }

  // What becomes of a port that may be dropped.
  ghost predicate Fate(g: Module, order: seq<Name>, keep: set<Name>, view: Module, name: Name, n: nat)
  {
    && (!DrivenByFlop(g, order, n) ==> (name in view.ports <==> StillRead(g, Elems(order), n)))
    && (DrivenByFlop(g, order, n) && name in keep ==> name !in view.ports)
  }

  ghost predicate PortsDropped(g: Module, order: seq<Name>, keep: set<Name>, drop: set<Name>, view: Module)
  {
    forall name, n: nat :: name in drop && name in g.ports && g.ports[name].bits == [Net(n)] ==> Fate(g, order, keep, view, name, n)
  }

  lemma OneFate(s: Setup, p: Finish, name: Name, n: nat)
    requires FinishReady(s, p) && name in p.drop && name in s.g.ports && s.g.ports[name].bits == [Net(n)]
    ensures Fate(s.g, s.order, s.keep, ReducedView(s, p), name, n)
  {
    PortBelow(s.g, s.next, name, n);
    hide FinishReady, ReducedView, QNet, StillRead, UsedByCells, Elems;
    if !DrivenByFlop(s.g, s.order, n) {
      ForeignFate(s, p, name, n);
    } else {
      var inst :| inst in s.order && inst in s.g.cells && QNet(s.g.cells[inst]) == n;
      if name in s.keep {
        OutputFate(s, p, name, n, IndexIn(s.order, inst));
      }
    }
  }

  /** A listed port on a net that no flop drives is in the view exactly when some cell
      that stays has the net, or a cut flop reads it on D or on its control. A scan
      output on a cut flop's net is not. */
  lemma PortFate(s: Setup, p: Finish)
    requires FinishReady(s, p)
    ensures PortsDropped(s.g, s.order, s.keep, p.drop, ReducedView(s, p))
  {
    hide FinishReady, ReducedView, Fate;
    forall name, n: nat | name in p.drop && name in s.g.ports && s.g.ports[name].bits == [Net(n)]
      ensures Fate(s.g, s.order, s.keep, ReducedView(s, p), name, n)
    {
      OneFate(s, p, name, n);
    }
  }

  lemma PortBelow(m: Module, k: nat, name: Name, n: nat)
    requires Below(m, k) && name in m.ports && m.ports[name].bits == [Net(n)]
    ensures n < k
  {
    assert BitsBelow(m.ports[name].bits, k);
    assert m.ports[name].bits[0] == Net(n);
  }

  lemma ForeignFate(s: Setup, p: Finish, name: Name, n: nat)
    requires FinishReady(s, p) && name in p.drop && name in s.g.ports && s.g.ports[name].bits == [Net(n)] && n < s.next
    requires !DrivenByFlop(s.g, s.order, n)
    ensures name in ReducedView(s, p).ports <==> StillRead(s.g, Elems(s.order), n)
  {
    assert s.Valid() && Foreign(s, n);
    UsedAfterCuts(s, n);
    assert s.At(|s.order|).m.ports[name].bits == [Net(n)] && name in s.At(|s.order|).m.ports by {
      hide Setup.At, Setup.Valid, FinishReady;
      SameSingle(s.g, s.At(|s.order|).m, name, n);
    }
    hide *;
    DropTells(s, p, name, n);
  }

  lemma SameSingle(g: Module, m: Module, name: Name, n: nat)
    requires PortsHold(g, m, n) && name in g.ports && g.ports[name].bits == [Net(n)]
    ensures name in m.ports && m.ports[name].bits == [Net(n)]
  {
    assert g.ports[name].bits[0] == Net(n);
    assert |m.ports[name].bits| == 1 && m.ports[name].bits[0] == Net(n);
  }

  lemma OutputFate(s: Setup, p: Finish, name: Name, n: nat, j: nat)
    requires FinishReady(s, p) && name in p.drop && name in s.keep && name in s.g.ports && s.g.ports[name].bits == [Net(n)]
    requires j < |s.order| && s.order[j] in s.g.cells && QNet(s.g.cells[s.order[j]]) == n
    ensures name !in ReducedView(s, p).ports
  {
    assert s.Valid();
    assert UsedByCells(s.At(|s.order|).m, n) <==> InGates(s.At(|s.order|).m.cells, n);
    hide *;
    KeptSame(s, name, |s.order|);
    OutputGone(s, j, |s.order|);
    DropTells(s, p, name, n);
  }
}
