/** The whole reduced view and what it means: cutting every flop, dropping the
    dangling scan and clock ports, and branching flop outputs that feed a primary
    output. The pseudo-outputs of the view show exactly what the flops capture
    and every other output shows exactly what the netlist shows, fault-free and
    under any stuck-at fault off the scan-enable net. */
module ViewMeaning {
  import opened Netlist
  import opened ScanView

  datatype Build = Build(m: Module, next: nat)

  function CutStep(b: Build, inst: Name, shared: Name -> bool, keep: set<Name>): Build
  {
    if inst in b.m.cells && b.m.cells[inst].kind.Scan? then
      Build(Cut(b.m, b.next, inst, shared(inst), keep), CutIds(b.m, b.next, inst, shared(inst)).next)
    else b
  }

  function CutAll(b: Build, order: seq<Name>, shared: Name -> bool, keep: set<Name>): Build
  {
    if order == [] then b
    else CutStep(CutAll(b, order[..|order| - 1], shared, keep), order[|order| - 1], shared, keep)
  }

  // Where a stem fault sits in the view: a flop's output moves to the net that
  // replaces it, any other net stays where it is.
  function MovedFault(f: Fault, b: Build, order: seq<Name>, shared: Name -> bool, keep: set<Name>): Fault
  {
    if order == [] then f
    else
      var n := |order| - 1;
      var was := CutAll(b, order[..n], shared, keep);
      var g := MovedFault(f, b, order[..n], shared, keep);
      if order[n] in was.m.cells && was.m.cells[order[n]].kind.Scan? then
        SubFault(g, QNet(was.m.cells[order[n]]), CutIds(was.m, was.next, order[n], shared(order[n])).drive)
      else g
  }

  // No pseudo-port is a kept port.
  ghost predicate PlainKeep(keep: set<Name>) { forall x :: x in keep ==> !(x.Made? && (x.tag.Ppi? || x.tag.Ppo?)) }

  ghost predicate Distinct(order: seq<Name>)
  {
    forall i, j :: 0 <= i < j < |order| ==> order[i] != order[j]
  }

  // The flops still to be cut.
  ghost predicate Ready(b: Build, rest: set<Name>, se: nat, keep: set<Name>)
  {
    && (forall inst :: inst in rest ==> CutReady(b.m, b.next, inst, se, keep))
    && (forall x, y :: x in rest && y in rest && x != y ==> QNet(b.m.cells[x]) != QNet(b.m.cells[y]))
  }

  lemma SubBelow(bits: seq<Bit>, q: nat, r: nat, k: nat)
    requires BitsBelow(bits, k) && r < k
    ensures BitsBelow(SubBits(bits, q, r), k)
  {
    assert forall i :: 0 <= i < |bits| ==> SubBits(bits, q, r)[i] == SubBit(bits[i], q, r);
  }

  lemma CellBelowMono(c: Cell, k: nat, l: nat)
    requires CellBelow(c, k) && k <= l
    ensures CellBelow(c, l)
  {
    forall p | p in c.conns ensures BitsBelow(c.conns[p], l) {
      assert BitsBelow(c.conns[p], k);
    }
  }

  lemma GatesBelow(inst: Name, ctl: Control, line: Bit, d: Bit, branchD: bool, k: nat)
    requires !ctl.NoControl? ==> BitBelow(line, IdsFrom(ctl, branchD, k).next)
    requires BitBelow(d, IdsFrom(ctl, branchD, k).next)
    ensures var ids := IdsFrom(ctl, branchD, k);
            && (forall x :: x in QGates(inst, ctl, line, ids) ==> CellBelow(QGates(inst, ctl, line, ids)[x], ids.next))
            && (forall x :: x in DGates(inst, ctl, d, branchD, ids) ==> CellBelow(DGates(inst, ctl, d, branchD, ids)[x], ids.next))
  {
    var ids := IdsFrom(ctl, branchD, k);
    QGatesBelow(inst, ctl, line, ids);
    DGatesBelow(inst, ctl, d, branchD, ids);
  }

  ghost predicate BitBelow(b: Bit, k: nat) { b.Net? ==> b.id < k }

  lemma GateBelow(kind: Kind, a: Bit, b: Bit, y: nat, k: nat)
    requires BitBelow(a, k) && y < k
    ensures CellBelow(BufCell(a, y), k) && CellBelow(InvCell(a, y), k)
    ensures BitBelow(b, k) ==> CellBelow(Gate2(kind, a, b, y), k)
  {
  }

  lemma QGatesBelow(inst: Name, ctl: Control, line: Bit, ids: Ids)
    requires !ctl.NoControl? ==> BitBelow(line, ids.next) && ids.branch < ids.next && ids.ppi < ids.next && ids.drive < ids.next
    requires ctl.Set? ==> ids.qinv < ids.next
    ensures forall x :: x in QGates(inst, ctl, line, ids) ==> CellBelow(QGates(inst, ctl, line, ids)[x], ids.next)
  {
    hide CellBelow;
    if !ctl.NoControl? {
      GateBelow(Buf, line, line, ids.branch, ids.next);
      GateBelow(And2, Net(ids.ppi), Net(ids.branch), ids.drive, ids.next);
    }
    if ctl.Set? {
      GateBelow(Inv, Net(ids.branch), line, ids.qinv, ids.next);
      GateBelow(Or2, Net(ids.ppi), Net(ids.qinv), ids.drive, ids.next);
    }
    hide BufCell;
    hide InvCell;
    hide Gate2;
  }

  lemma DGatesBelow(inst: Name, ctl: Control, d: Bit, branchD: bool, ids: Ids)
    requires BitBelow(d, ids.next) && (branchD ==> ids.dbranch < ids.next) && ids.ppo < ids.next
    requires !ctl.NoControl? ==> ids.branch < ids.next && ids.dmux < ids.next
    requires ctl.Set? ==> ids.dinv < ids.next
    ensures forall x :: x in DGates(inst, ctl, d, branchD, ids) ==> CellBelow(DGates(inst, ctl, d, branchD, ids)[x], ids.next)
  {
    hide CellBelow;
    var tap := if branchD then Net(ids.dbranch) else d;
    var seen := if ctl.NoControl? then tap else Net(ids.dmux);
    DMuxBelow(inst, ctl, tap, ids);
    hide DMuxGates;
    if branchD {
      GateBelow(Buf, d, d, ids.dbranch, ids.next);
    }
    GateBelow(Buf, seen, d, ids.ppo, ids.next);
    hide BufCell;
  }

  lemma DMuxBelow(inst: Name, ctl: Control, tap: Bit, ids: Ids)
    requires BitBelow(tap, ids.next)
    requires !ctl.NoControl? ==> ids.branch < ids.next && ids.dmux < ids.next
    requires ctl.Set? ==> ids.dinv < ids.next
    ensures forall x :: x in DMuxGates(inst, ctl, tap, ids) ==> CellBelow(DMuxGates(inst, ctl, tap, ids)[x], ids.next)
  {
    hide CellBelow;
    if !ctl.NoControl? {
      GateBelow(And2, tap, Net(ids.branch), ids.dmux, ids.next);
    }
    if ctl.Set? {
      GateBelow(Inv, Net(ids.branch), tap, ids.dinv, ids.next);
      GateBelow(Or2, tap, Net(ids.dinv), ids.dmux, ids.next);
    }
    hide InvCell;
    hide Gate2;
  }

  lemma SubCellBelow(c: Cell, q: nat, r: nat, k: nat, l: nat)
    requires CellBelow(c, k) && k <= l && r < l
    ensures CellBelow(SubCell(c, q, r), l)
  {
    forall p | p in c.conns ensures BitsBelow(SubBits(c.conns[p], q, r), l) {
      assert BitsBelow(c.conns[p], k);
      SubBelow(c.conns[p], q, r, l);
    }
  }

  lemma SubstituteBelow(m: Module, q: nat, r: nat, keep: set<Name>, k: nat, l: nat)
    requires Below(m, k) && k <= l && r < l
    ensures Below(Substitute(m, q, r, keep), l)
  {
    forall x | x in m.cells ensures CellBelow(SubCell(m.cells[x], q, r), l) {
      SubCellBelow(m.cells[x], q, r, k, l);
    }
    forall name | name in m.ports ensures BitsBelow(Substitute(m, q, r, keep).ports[name].bits, l) {
      assert BitsBelow(m.ports[name].bits, k);
      SubBelow(m.ports[name].bits, q, r, l);
    }
  }

  lemma OneBitBelow(c: Cell, p: Pin, k: nat)
    requires CellBelow(c, k)
    ensures OneBit(c, p).Net? ==> OneBit(c, p).id < k
  {
    if p in c.conns {
      assert BitsBelow(c.conns[p], k);
    }
  }

  lemma NewGatesBelow(m: Module, k: nat, inst: Name, shared: bool, keep: set<Name>, se: nat)
    requires CutReady(m, k, inst, se, keep)
    ensures forall x :: x in NewGates(m, k, inst, shared, keep) ==>
              CellBelow(NewGates(m, k, inst, shared, keep)[x], CutIds(m, k, inst, shared).next)
  {
    var ids := CutIds(m, k, inst, shared);
    var c := SubCell(m.cells[inst], QNet(m.cells[inst]), ids.drive);
    assert Rewired(m, k, inst, shared, keep).cells[inst] == c;
    SubCellBelow(m.cells[inst], QNet(m.cells[inst]), ids.drive, k, ids.next);
    OneBitBelow(c, CTRL, ids.next);
    OneBitBelow(c, D, ids.next);
    GatesBelow(inst, c.kind.ctl, OneBit(c, CTRL), OneBit(c, D), BranchD(c, shared), k);
  }

  // What one cut step makes of a build, without the gates in detail.
  ghost predicate Stepped(b: Build, b': Build, inst: Name, ids: Ids, keep: set<Name>)
    requires inst in b.m.cells
  {
    var q := QNet(b.m.cells[inst]);
    && Below(b'.m, b'.next) && b.next <= ids.drive < b'.next
    && (forall x :: x in b.m.cells && x != inst ==> x in b'.m.cells && b'.m.cells[x] == SubCell(b.m.cells[x], q, ids.drive))
    && (forall x :: x in b'.m.cells ==> (x in b.m.cells && x != inst) || (x.Made? && x.base == inst && ViewTag(x.tag) && !x.tag.QPo?))
    && (forall name :: name in b.m.ports ==> name in b'.m.ports)
    && (forall name :: name in b.m.ports && name in keep ==> b'.m.ports[name] == b.m.ports[name])
    && (forall name :: name in b.m.ports && name !in keep ==>
          b'.m.ports[name] == Port(b.m.ports[name].dir, SubBits(b.m.ports[name].bits, q, ids.drive)))
    && b'.m.ports.Keys == b.m.ports.Keys + {Made(Ppi, inst), Made(Ppo, inst)}
    && b'.m.ports[Made(Ppo, inst)] == Port(Output, [Net(ids.ppo)]) && b.next <= ids.ppo
    && b'.m.ports[Made(Ppi, inst)] == Port(Input, [Net(ids.ppi)]) && b.next <= ids.ppi
  }

  lemma StepFacts(b: Build, inst: Name, se: nat, shared: Name -> bool, keep: set<Name>)
    requires CutReady(b.m, b.next, inst, se, keep)
    ensures var ids := CutIds(b.m, b.next, inst, shared(inst));
            Stepped(b, CutStep(b, inst, shared, keep), inst, ids, keep)
  {
    var ids := CutIds(b.m, b.next, inst, shared(inst));
    var q, b' := QNet(b.m.cells[inst]), CutStep(b, inst, shared, keep);
    var gates := NewGates(b.m, b.next, inst, shared(inst), keep);
    CutKeeps(b.m, b.next, inst, shared(inst), keep, se);
    NewGatesBelow(b.m, b.next, inst, shared(inst), keep, se);
    StepShape(b, b', inst, ids, gates, keep);
  }

  lemma StepShape(b: Build, b': Build, inst: Name, ids: Ids, gates: map<Name, Cell>, keep: set<Name>)
    requires inst in b.m.cells && Below(b.m, b.next)
    requires b'.next == ids.next && b.next <= ids.drive < ids.next && b.next <= ids.ppi < ids.next && b.next <= ids.ppo < ids.next
    requires forall x :: x in gates ==> x.Made? && x.base == inst && ViewTag(x.tag) && !x.tag.QPo? && CellBelow(gates[x], ids.next)
    requires Made(Ppi, inst) !in b.m.ports && Made(Ppo, inst) !in b.m.ports
    requires forall t :: ViewTag(t) ==> Made(t, inst) !in b.m.cells
    requires var rest := Substitute(Without(b.m, inst), QNet(b.m.cells[inst]), ids.drive, keep);
             && b'.m.cells == rest.cells + gates
             && b'.m.ports == rest.ports[Made(Ppi, inst) := Port(Input, [Net(ids.ppi)])]
                                        [Made(Ppo, inst) := Port(Output, [Net(ids.ppo)])]
    ensures Stepped(b, b', inst, ids, keep)
  {
    hide SubBits;
    hide SubCell;
    hide QNet;
    hide BitsBelow;
    hide CellBelow;
    var rest := Substitute(Without(b.m, inst), QNet(b.m.cells[inst]), ids.drive, keep);
    SubstituteBelow(Without(b.m, inst), QNet(b.m.cells[inst]), ids.drive, keep, b.next, ids.next);
    JoinBelow(b'.m, rest, gates, Made(Ppi, inst), ids.ppi, Made(Ppo, inst), ids.ppo, ids.next);
    hide Below;
    forall x | x in gates ensures x !in b.m.cells {
      assert x == Made(x.tag, inst);
    }
  }

  lemma JoinBelow(view: Module, rest: Module, gates: map<Name, Cell>, x: Name, i: nat, y: Name, o: nat, l: nat)
    requires Below(rest, l) && (forall z :: z in gates ==> CellBelow(gates[z], l)) && i < l && o < l
    requires view.cells == rest.cells + gates
    requires view.ports == rest.ports[x := Port(Input, [Net(i)])][y := Port(Output, [Net(o)])]
    ensures Below(view, l)
  {
  }

  lemma OtherReady(b: Build, b': Build, inst: Name, x: Name, se: nat, ids: Ids, keep: set<Name>)
    requires CutReady(b.m, b.next, inst, se, keep) && CutReady(b.m, b.next, x, se, keep) && PlainKeep(keep)
    requires x != inst && QNet(b.m.cells[x]) != QNet(b.m.cells[inst])
    requires Stepped(b, b', inst, ids, keep)
    ensures CutReady(b'.m, b'.next, x, se, keep) && QNet(b'.m.cells[x]) == QNet(b.m.cells[x])
  {
    var q := QNet(b.m.cells[inst]);
    var c, c' := b.m.cells[x], b'.m.cells[x];
    assert c'.conns[Q] == [c.conns[Q][0]];
    assert c'.conns[SE] == [Net(se)];
    assert ScanShape(c', se) && QNet(c') == QNet(c);
    forall name | name in keep && name in b'.m.ports && b'.m.ports[name].dir.Input?
      ensures Net(QNet(c)) !in b'.m.ports[name].bits
    {
      assert name in b.m.ports && b'.m.ports[name] == b.m.ports[name];
    }
  }

  // Cutting one flop leaves the others ready to be cut.
  lemma ReadyStep(b: Build, rest: set<Name>, inst: Name, se: nat, shared: Name -> bool, keep: set<Name>)
    requires Ready(b, rest, se, keep) && inst in rest && PlainKeep(keep)
    ensures Ready(CutStep(b, inst, shared, keep), rest - {inst}, se, keep)
  {
    var ids := CutIds(b.m, b.next, inst, shared(inst));
    var b' := CutStep(b, inst, shared, keep);
    StepFacts(b, inst, se, shared, keep);
    forall x | x in rest - {inst}
      ensures CutReady(b'.m, b'.next, x, se, keep) && QNet(b'.m.cells[x]) == QNet(b.m.cells[x])
    {
      OtherReady(b, b', inst, x, se, ids, keep);
    }
  }

  /* ---- the observations agree ---- */

  // The view m under v shows what g shows under w: on every port of g outside
  // `keep`, and on the pseudo-output of every flop in `cut` what it captures.
  ghost predicate Mirrors(g: Module, w: Valuation, m: Module, v: Valuation, cut: set<Name>, st: State, keep: set<Name>)
  {
    && (forall name :: name in g.ports && name !in keep ==> ShowsPort(g, w, m, v, name))
    && (forall inst :: inst in cut ==> ShowsCapture(g, w, m, v, inst, st))
  }

  ghost predicate ShowsPort(g: Module, w: Valuation, m: Module, v: Valuation, name: Name)
    requires name in g.ports
  {
    && name in m.ports && m.ports[name].dir == g.ports[name].dir
    && BitsVal(v, m.ports[name].bits) == BitsVal(w, g.ports[name].bits)
  }

  ghost predicate ShowsCapture(g: Module, w: Valuation, m: Module, v: Valuation, inst: Name, st: State)
  {
    && inst in g.cells && Made(Ppo, inst) in m.ports && m.ports[Made(Ppo, inst)].dir.Output?
    && BitsVal(v, m.ports[Made(Ppo, inst)].bits) == [NextVal(g.cells[inst], st(inst), w)]
  }

  // A flop not yet cut would still capture the same value.
  ghost predicate SameNext(g: Module, w: Valuation, m: Module, v: Valuation, rest: set<Name>, st: State)
  {
    && rest <= g.cells.Keys && rest <= m.cells.Keys
    && (forall inst :: inst in rest ==> NextVal(m.cells[inst], st(inst), v) == NextVal(g.cells[inst], st(inst), w))
  }

  lemma PulledBits(v: Valuation, u: Valuation, bits: seq<Bit>, q: nat, r: nat, k: nat)
    requires AgreeBelow(Pull(v, q, r), u, k) && BitsBelow(bits, k)
    ensures BitsVal(v, SubBits(bits, q, r)) == BitsVal(u, bits)
  {
    BitsSub(v, bits, q, r);
    BitsAgree(Pull(v, q, r), u, bits, k);
  }

  lemma MirrorsStep(lib: Library, g: Module, w: Valuation, b: Build, b': Build, u: Valuation, v: Valuation,
                    cut: set<Name>, rest: set<Name>, inst: Name, ids: Ids, st: State, keep: set<Name>)
    requires inst in rest && inst in b.m.cells && Below(b.m, b.next) && PlainKeep(keep)
    requires inst !in cut
    requires Stepped(b, b', inst, ids, keep)
    requires AgreeBelow(Pull(v, QNet(b.m.cells[inst]), ids.drive), u, b.next)
    requires v(ids.ppo) == NextVal(b.m.cells[inst], st(inst), u)
    requires Mirrors(g, w, b.m, u, cut, st, keep) && SameNext(g, w, b.m, u, rest, st)
    ensures Mirrors(g, w, b'.m, v, cut + {inst}, st, keep) && SameNext(g, w, b'.m, v, rest - {inst}, st)
  {
    var q := QNet(b.m.cells[inst]);
    forall name | name in g.ports && name !in keep ensures ShowsPort(g, w, b'.m, v, name) {
      assert ShowsPort(g, w, b.m, u, name);
      PulledBits(v, u, b.m.ports[name].bits, q, ids.drive, b.next);
    }
    forall x | x in cut + {inst} ensures ShowsCapture(g, w, b'.m, v, x, st) {
      if x == inst {
        assert b'.m.ports[Made(Ppo, inst)].bits == [Net(ids.ppo)];
      } else {
        assert ShowsCapture(g, w, b.m, u, x, st);
        PulledBits(v, u, b.m.ports[Made(Ppo, x)].bits, q, ids.drive, b.next);
      }
    }
    forall x | x in rest - {inst}
      ensures x in b'.m.cells && NextVal(b'.m.cells[x], st(x), v) == NextVal(g.cells[x], st(x), w)
    {
      CellSub(lib, v, b.m.cells[x], q, ids.drive);
      CellAgree(lib, Pull(v, q, ids.drive), u, b.m.cells[x], b.next);
    }
  }

  ghost function Elems(order: seq<Name>): set<Name> { set x | x in order }

  // The parameters of a view build that never change.
  datatype Setup = Setup(g: Module, next: nat, order: seq<Name>, shared: Name -> bool, keep: set<Name>, se: nat)
  {
    ghost predicate Valid()
    {
      && Distinct(order) && PlainKeep(keep)
      && Below(g, next) && Ready(Build(g, next), Elems(order), se, keep)
    }

    function At(i: nat): Build
      requires i <= |order|
    {
      CutAll(Build(g, next), order[..i], shared, keep)
    }

    function FaultAt(f: Fault, i: nat): Fault
      requires i <= |order|
    {
      MovedFault(f, Build(g, next), order[..i], shared, keep)
    }
  }

  lemma AtStep(s: Setup, f: Fault, i: nat)
    requires i < |s.order|
    ensures s.At(i + 1) == CutStep(s.At(i), s.order[i], s.shared, s.keep)
    ensures var b := s.At(i);
            s.order[i] in b.m.cells && b.m.cells[s.order[i]].kind.Scan? ==>
              s.FaultAt(f, i + 1) == SubFault(s.FaultAt(f, i), QNet(b.m.cells[s.order[i]]),
                                              CutIds(b.m, b.next, s.order[i], s.shared(s.order[i])).drive)
  {
    var o := s.order[..i + 1];
    assert o[..|o| - 1] == s.order[..i] && o[|o| - 1] == s.order[i];
  }

  lemma {:induction false} StaysReady(s: Setup, i: nat)
    requires s.Valid() && i <= |s.order|
    ensures Ready(s.At(i), Elems(s.order[i..]), s.se, s.keep)
    ensures Below(s.At(i).m, s.At(i).next) && s.next <= s.At(i).next
  {
    hide SubCell;
    hide SubBits;
    hide Cut;
    hide CutReady;
    hide CutStep;
    if i == 0 {
      assert s.order[..0] == [] && s.order[0..] == s.order;
    } else {
      StaysReady(s, i - 1);
      AtStep(s, NoFault, i - 1);
      var b, inst := s.At(i - 1), s.order[i - 1];
      assert inst in Elems(s.order[i - 1..]);
      ReadyStep(b, Elems(s.order[i - 1..]), inst, s.se, s.shared, s.keep);
      StepFacts(b, inst, s.se, s.shared, s.keep);
      TailElems(s.order, i);
    }
  }

  lemma HeadElems(order: seq<Name>, i: nat)
    requires Distinct(order) && i < |order|
    ensures Elems(order[..i + 1]) == Elems(order[..i]) + {order[i]} && order[i] !in Elems(order[..i]) && order[i] in Elems(order[i..])
  {
    assert order[..i + 1] == order[..i] + [order[i]];
    assert order[i..][0] == order[i];
  }

  lemma TailElems(order: seq<Name>, i: nat)
    requires Distinct(order) && 0 < i <= |order|
    ensures Elems(order[i..]) == Elems(order[i - 1..]) - {order[i - 1]}
  {
    var tail, rest := order[i - 1..], order[i..];
    assert tail[0] == order[i - 1] && tail[1..] == rest;
    assert tail == [tail[0]] + rest;
    forall k | 0 <= k < |rest| ensures rest[k] != tail[0] {
      assert rest[k] == order[i + k];
    }
  }

  lemma ReadyAt(s: Setup, i: nat)
    requires s.Valid() && i < |s.order|
    ensures CutReady(s.At(i).m, s.At(i).next, s.order[i], s.se, s.keep)
  {
    StaysReady(s, i);
    HeadElems(s.order, i);
    hide Setup.At, CutReady, Elems;
  }

  lemma SubFaultBelow(f: Fault, q: nat, r: nat, k: nat, k': nat)
    requires FaultBelow(f, k) && r < k' && k <= k'
    ensures FaultBelow(SubFault(f, q, r), k')
  {}

  lemma {:induction false} FaultStaysBelow(s: Setup, f: Fault, i: nat)
    requires s.Valid() && i <= |s.order| && FaultBelow(f, s.next)
    ensures FaultBelow(s.FaultAt(f, i), s.At(i).next)
  {
    if i == 0 {
      assert s.order[..0] == [];
    } else {
      hide *;
      FaultStaysBelow(s, f, i - 1);
      ReadyAt(s, i - 1);
      AtStep(s, f, i - 1);
      StepNextId(s.At(i - 1), s.order[i - 1], s.se, s.shared, s.keep);
      var b, inst := s.At(i - 1), s.order[i - 1];
      var drive := CutIds(b.m, b.next, inst, s.shared(inst)).drive;
      SubFaultBelow(s.FaultAt(f, i - 1), QNet(b.m.cells[inst]), drive, b.next, s.At(i).next);
    }
  }

  lemma StepNextId(b: Build, inst: Name, se: nat, shared: Name -> bool, keep: set<Name>)
    requires CutReady(b.m, b.next, inst, se, keep)
    ensures inst in b.m.cells && b.m.cells[inst].kind.Scan?
    ensures b.next <= CutIds(b.m, b.next, inst, shared(inst)).drive < CutStep(b, inst, shared, keep).next
  {
    hide Cut, Below, BranchD;
  }

  // The pseudo-inputs are driven with the flops' states.
  ghost predicate Loaded(s: Setup, env: Inputs, st: State)
  {
    forall inst :: inst in s.order ==> env(Made(Ppi, inst), 0) == st(inst)
  }

  // The view after i cuts is settled under v and shows what g shows under w.
  ghost predicate Tracks(lib: Library, s: Setup, f: Fault, env: Inputs, st: State, w: Valuation, v: Valuation, i: nat)
    requires i <= |s.order|
  {
    && Settled(lib, s.At(i).m, s.FaultAt(f, i), env, st, v) && !v(s.se)
    && Mirrors(s.g, w, s.At(i).m, v, Elems(s.order[..i]), st, s.keep)
    && SameNext(s.g, w, s.At(i).m, v, Elems(s.order[i..]), st)
  }

  lemma TracksStart(lib: Library, s: Setup, f: Fault, env: Inputs, st: State, w: Valuation)
    requires s.Valid() && Settled(lib, s.g, f, env, st, w) && !w(s.se)
    ensures Tracks(lib, s, f, env, st, w, w, 0)
  {
    assert s.order[..0] == [] && s.order[0..] == s.order;
  }

  lemma ForthStep(lib: Library, s: Setup, f: Fault, env: Inputs, st: State, w: Valuation, u: Valuation, i: nat)
    returns (v: Valuation)
    requires s.Valid() && i < |s.order| && FaultBelow(f, s.next) && Loaded(s, env, st)
    requires Tracks(lib, s, f, env, st, w, u, i)
    ensures Tracks(lib, s, f, env, st, w, v, i + 1)
  {
    hide Cut;
    hide CutStep;
    hide Settled;
    hide Mirrors;
    hide SameNext;
    hide Stepped;
    hide Extended;
    hide MovedFault;
    hide CutAll;
    var b, inst := s.At(i), s.order[i];
    var ids, b' := StepAt(s, f, i);
    CutForth(lib, b.m, s.FaultAt(f, i), env, st, u, b.next, inst, s.shared(inst), s.keep, s.se);
    v := Extended(u, b.next, b.m.cells[inst], ids, st(inst));
    MirrorsStep(lib, s.g, w, b, b', u, v, Elems(s.order[..i]), Elems(s.order[i..]), inst, ids, st, s.keep);
  }

  lemma {:induction false} CutForthAll(lib: Library, s: Setup, f: Fault, env: Inputs, st: State, w: Valuation, i: nat)
    returns (v: Valuation)
    requires s.Valid() && i <= |s.order| && FaultBelow(f, s.next) && Loaded(s, env, st)
    requires Settled(lib, s.g, f, env, st, w) && !w(s.se)
    ensures Tracks(lib, s, f, env, st, w, v, i)
  {
    hide Tracks;
    hide Settled;
    if i == 0 {
      TracksStart(lib, s, f, env, st, w);
      v := w;
    } else {
      var u := CutForthAll(lib, s, f, env, st, w, i - 1);
      v := ForthStep(lib, s, f, env, st, w, u, i - 1);
    }
  }

  lemma {:induction false} CutBackAll(lib: Library, s: Setup, f: Fault, env: Inputs, st: State, v: Valuation, i: nat)
    returns (w: Valuation)
    requires s.Valid() && i <= |s.order| && FaultBelow(f, s.next) && Loaded(s, env, st)
    requires Settled(lib, s.At(i).m, s.FaultAt(f, i), env, st, v) && !v(s.se)
    ensures Settled(lib, s.g, f, env, st, w) && !w(s.se)
    ensures Tracks(lib, s, f, env, st, w, v, i)
  {
    hide Cut;
    hide CutStep;
    hide Settled;
    hide Stepped;
    if i == 0 {
      assert s.order[..0] == [] && s.order[0..] == s.order;
      w := v;
    } else {
      var b, inst := s.At(i - 1), s.order[i - 1];
      var ids, b' := StepAt(s, f, i - 1);
      CutBack(lib, b.m, s.FaultAt(f, i - 1), env, st, v, b.next, inst, s.shared(inst), s.keep, s.se);
      var u := Pull(v, QNet(b.m.cells[inst]), ids.drive);
      w := CutBackAll(lib, s, f, env, st, u, i - 1);
      MirrorsStep(lib, s.g, w, b, b', u, v, Elems(s.order[..i - 1]), Elems(s.order[i - 1..]), inst, ids, st, s.keep);
    }
  }

  // The facts about step i that both directions use.
  lemma StepAt(s: Setup, f: Fault, i: nat) returns (ids: Ids, b': Build)
    requires s.Valid() && i < |s.order| && FaultBelow(f, s.next)
    ensures var b, inst := s.At(i), s.order[i];
            && CutReady(b.m, b.next, inst, s.se, s.keep) && inst in b.m.cells && FaultBelow(s.FaultAt(f, i), b.next)
            && ids == CutIds(b.m, b.next, inst, s.shared(inst))
            && b' == s.At(i + 1) && b'.m == Cut(b.m, b.next, inst, s.shared(inst), s.keep)
            && s.FaultAt(f, i + 1) == SubFault(s.FaultAt(f, i), QNet(b.m.cells[inst]), ids.drive)
            && Stepped(b, b', inst, ids, s.keep)
    ensures s.order[i] in Elems(s.order[i..]) && s.order[i] !in Elems(s.order[..i])
    ensures Elems(s.order[i + 1..]) == Elems(s.order[i..]) - {s.order[i]}
    ensures Elems(s.order[..i + 1]) == Elems(s.order[..i]) + {s.order[i]}
  {
    hide Cut;
    hide Stepped;
    var b, inst := s.At(i), s.order[i];
    StaysReady(s, i);
    FaultStaysBelow(s, f, i);
    AtStep(s, f, i);
    TailElems(s.order, i + 1);
    HeadElems(s.order, i);
    StepFacts(b, inst, s.se, s.shared, s.keep);
    ids, b' := CutIds(b.m, b.next, inst, s.shared(inst)), s.At(i + 1);
  }

  lemma NoFaultStays(s: Setup, i: nat)
    requires i <= |s.order|
    ensures s.FaultAt(NoFault, i) == NoFault
  {
    hide CutStep;
    if i > 0 {
      NoFaultStays(s, i - 1);
      var o := s.order[..i];
      assert o[..|o| - 1] == s.order[..i - 1];
    }
  }
}
