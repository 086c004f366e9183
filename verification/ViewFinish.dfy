/** The last two passes of the view builder, and the theorem about the whole view. */
module ViewFinish {
  import opened Netlist
  import opened ScanView
  import opened ViewMeaning
  import opened ViewDrop

  /* ---- a branch of its own for a flop output's single reader ---- */

  // The primary outputs wired to a net.
  predicate ShownAt(m: Module, name: Name, n: nat)
  {
    && name in m.ports && m.ports[name].dir.Output? && !(name.Made? && name.tag.Ppo?)
    && Net(n) in m.ports[name].bits
  }

  function BranchStep(b: Build, inst: Name, drive: nat, single: bool): Build
  {
    if single && (exists name :: name in b.m.ports && ShownAt(b.m, name, drive)) then
      Build(Module(map name | name in b.m.ports ::
                     if ShownAt(b.m, name, drive) then Port(Output, SubBits(b.m.ports[name].bits, drive, b.next))
                     else b.m.ports[name],
                   b.m.cells[Made(QPo, inst) := BufCell(Net(drive), b.next)]),
            b.next + 1)
    else b
  }

  function BranchAll(b: Build, order: seq<Name>, drives: Name -> nat, single: Name -> bool): Build
  {
    if order == [] then b
    else
      var n := |order| - 1;
      BranchStep(BranchAll(b, order[..n], drives, single), order[n], drives(order[n]), single(order[n]))
  }

  ghost predicate BranchReady(b: Build, f: Fault, todo: set<Name>, drives: Name -> nat)
  {
    && Below(b.m, b.next) && FaultBelow(f, b.next)
    && (forall inst :: inst in todo ==> Made(QPo, inst) !in b.m.cells && drives(inst) < b.next)
  }

  lemma BranchKeepsReady(b: Build, f: Fault, todo: set<Name>, drives: Name -> nat, inst: Name, single: bool)
    requires BranchReady(b, f, todo, drives) && inst in todo
    ensures BranchReady(BranchStep(b, inst, drives(inst), single), f, todo - {inst}, drives)
  {
    var b' := BranchStep(b, inst, drives(inst), single);
    forall name | name in b'.m.ports ensures BitsBelow(b'.m.ports[name].bits, b'.next) {
      assert BitsBelow(b.m.ports[name].bits, b.next);
      SubBelow(b.m.ports[name].bits, drives(inst), b.next, b.next + 1);
    }
    forall x | x in b'.m.cells ensures CellBelow(b'.m.cells[x], b'.next) {
      if x in b.m.cells && b'.m.cells[x] == b.m.cells[x] {
        CellBelowMono(b.m.cells[x], b.next, b'.next);
      }
    }
  }

  // The branch carries the same value as the net it taps.
  lemma BranchForth(lib: Library, b: Build, f: Fault, env: Inputs, st: State, v: Valuation,
                    todo: set<Name>, drives: Name -> nat, inst: Name, single: bool) returns (v': Valuation)
    requires BranchReady(b, f, todo, drives) && inst in todo && Settled(lib, b.m, f, env, st, v)
    ensures Settled(lib, BranchStep(b, inst, drives(inst), single).m, f, env, st, v')
    ensures AgreeBelow(v', v, b.next)
  {
    var b', drive := BranchStep(b, inst, drives(inst), single), drives(inst);
    if b' == b {
      v' := v;
    } else {
      v' := (n: nat) => if n == b.next then v(drive) else v(n);
      SettledAgree(lib, b.m, f, env, st, v, v', b.next);
      BufOk(lib, f, Net(drive), b.next, st(Made(QPo, inst)), v');
      forall name | name in b'.m.ports ensures PortOk(f, env, name, b'.m.ports[name], v') {
        assert PortOk(f, env, name, b.m.ports[name], v');
      }
    }
  }

  lemma BranchBack(lib: Library, b: Build, f: Fault, env: Inputs, st: State, v: Valuation,
                   todo: set<Name>, drives: Name -> nat, inst: Name, single: bool)
    requires BranchReady(b, f, todo, drives) && inst in todo
    requires Settled(lib, BranchStep(b, inst, drives(inst), single).m, f, env, st, v)
    ensures Settled(lib, b.m, f, env, st, v)
    ensures forall name :: name in b.m.ports ==> SameShown(b.m, BranchStep(b, inst, drives(inst), single).m, v, name)
  {
    var b', drive := BranchStep(b, inst, drives(inst), single), drives(inst);
    if b' != b {
      forall x | x in b.m.cells ensures CellOk(lib, f, b.m.cells[x], st(x), v) {
        assert CellOk(lib, f, b'.m.cells[x], st(x), v);
      }
      forall name | name in b.m.ports ensures PortOk(f, env, name, b.m.ports[name], v) {
        assert PortOk(f, env, name, b'.m.ports[name], v);
      }
      assert CellOk(lib, f, b'.m.cells[Made(QPo, inst)], st(Made(QPo, inst)), v);
      BufOk(lib, f, Net(drive), b.next, st(Made(QPo, inst)), v);
      forall name | name in b.m.ports ensures SameShown(b.m, b'.m, v, name) {
        TapBits(v, b.m.ports[name].bits, drive, b.next);
      }
    }
  }

  lemma TapBits(v: Valuation, bits: seq<Bit>, q: nat, r: nat)
    requires v(q) == v(r)
    ensures BitsVal(v, SubBits(bits, q, r)) == BitsVal(v, bits)
  {
  }

  ghost predicate SameShown(m: Module, m': Module, v: Valuation, name: Name)
    requires name in m.ports
  {
    name in m'.ports && m'.ports[name].dir == m.ports[name].dir
    && BitsVal(v, m'.ports[name].bits) == BitsVal(v, m.ports[name].bits)
  }

  /* ---- the whole view ---- */

  // What the last passes are given besides the cuts: the ports that may be
  // dropped, the scan-enable port, and per flop the net that drives its readers
  // and whether it has a single reader.
  datatype Finish = Finish(drop: set<Name>, sePort: Name, drives: Name -> nat, single: Name -> bool)

  // No droppable input carries a flop's output, and scan enable comes from its port.
  ghost predicate PortsOk(m: Module, rest: set<Name>, p: Finish, se: nat)
  {
    && p.sePort in m.ports && m.ports[p.sePort] == Port(Input, [Net(se)])
    && (forall name, inst :: name in p.drop && name in m.ports && m.ports[name].dir.Input?
                             && inst in rest && inst in m.cells
                             ==> Net(QNet(m.cells[inst])) !in m.ports[name].bits)
  }

  ghost predicate FinishReady(s: Setup, p: Finish)
  {
    && s.Valid() && PlainKeep(p.drop) && p.sePort in s.keep
    && PortsOk(s.g, Elems(s.order), p, s.se)
    && (forall inst :: inst in s.order ==> p.drives(inst) < s.At(|s.order|).next)
  }

  ghost function Dropped(s: Setup, p: Finish): Build
  {
    Build(DropDangling(s.At(|s.order|).m, p.drop), s.At(|s.order|).next)
  }

  // The reduced view, and where a stem fault sits in it.
  ghost function ReducedView(s: Setup, p: Finish): Module
  {
    BranchAll(Dropped(s, p), s.order, p.drives, p.single).m
  }

  function ViewFault(s: Setup, f: Fault): Fault { s.FaultAt(f, |s.order|) }

  // Droppable inputs come through a cut untouched.
  lemma DropPortSame(b: Build, b': Build, inst: Name, ids: Ids, p: Finish, keep: set<Name>, se: nat, rest: set<Name>, name: Name)
    requires inst in rest && inst in b.m.cells && Stepped(b, b', inst, ids, keep)
    requires PortsOk(b.m, rest, p, se) && PlainKeep(p.drop)
    requires name in p.drop && name in b'.m.ports && b'.m.ports[name].dir.Input?
    ensures name in b.m.ports && b'.m.ports[name] == b.m.ports[name]
  {
    assert name in b.m.ports;
    var bits := b.m.ports[name].bits;
    assert SubBits(bits, QNet(b.m.cells[inst]), ids.drive) == bits;
  }

  lemma PortsOkStep(b: Build, b': Build, inst: Name, ids: Ids, p: Finish, keep: set<Name>, se: nat, rest: set<Name>)
    requires Ready(b, rest, se, keep) && inst in rest && inst in b.m.cells && Stepped(b, b', inst, ids, keep) && Below(b.m, b.next)
    requires PortsOk(b.m, rest, p, se) && PlainKeep(p.drop) && PlainKeep(keep) && p.sePort in keep
    ensures PortsOk(b'.m, rest - {inst}, p, se)
  {
    forall name, x | name in p.drop && name in b'.m.ports && b'.m.ports[name].dir.Input?
                     && x in rest - {inst} && x in b'.m.cells
      ensures Net(QNet(b'.m.cells[x])) !in b'.m.ports[name].bits
    {
      DropPortSame(b, b', inst, ids, p, keep, se, rest, name);
      OtherReady(b, b', inst, x, se, ids, keep);
    }
  }

  lemma AtStart(s: Setup)
    ensures s.At(0) == Build(s.g, s.next) && s.order[0..] == s.order
  {
    assert s.order[..0] == [];
  }

  lemma {:induction false} PortsStayOk(s: Setup, p: Finish, i: nat)
    requires FinishReady(s, p) && i <= |s.order|
    ensures PortsOk(s.At(i).m, Elems(s.order[i..]), p, s.se)
  {
    hide CutAll;
    hide CutStep;
    hide Cut;
    hide PortsOk;
    hide Stepped;
    hide Ready;
    hide CutReady;
    if i == 0 {
      AtStart(s);
    } else {
      PortsStayOk(s, p, i - 1);
      var ids, b' := StepAt(s, NoFault, i - 1);
      StaysReady(s, i - 1);
      PortsOkStep(s.At(i - 1), b', s.order[i - 1], ids, p, s.keep, s.se, Elems(s.order[i - 1..]));
    }
  }

  lemma {:induction false} FaultStaysFree(s: Setup, f: Fault, i: nat)
    requires s.Valid() && i <= |s.order| && FaultBelow(f, s.next) && Free(f, s.se) && s.se < s.next
    ensures Free(s.FaultAt(f, i), s.se)
  {
    hide CutAll;
    hide CutStep;
    hide Cut;
    hide Stepped;
    hide Ready;
    if i > 0 {
      FaultStaysFree(s, f, i - 1);
      var ids, b' := StepAt(s, f, i - 1);
      StaysReady(s, i - 1);
    } else {
      assert s.order[..0] == [];
    }
  }

  /* ---- the branch pass over all flops ---- */

  ghost function BranchedAt(s: Setup, p: Finish, i: nat): Build
    requires i <= |s.order|
  {
    BranchAll(Dropped(s, p), s.order[..i], p.drives, p.single)
  }

  lemma BranchedStep(s: Setup, p: Finish, i: nat)
    requires i < |s.order|
    ensures BranchedAt(s, p, i + 1)
         == BranchStep(BranchedAt(s, p, i), s.order[i], p.drives(s.order[i]), p.single(s.order[i]))
  {
    var o := s.order[..i + 1];
    assert o[..|o| - 1] == s.order[..i] && o[|o| - 1] == s.order[i];
  }

  // Every port shows the same in both modules.
  ghost predicate SameView(m: Module, u: Valuation, m': Module, v: Valuation)
  {
    forall name :: name in m.ports ==>
      name in m'.ports && m'.ports[name].dir == m.ports[name].dir
      && BitsVal(v, m'.ports[name].bits) == BitsVal(u, m.ports[name].bits)
  }

  lemma SameViewStep(m: Module, u: Valuation, b: Build, v: Valuation, m': Module, v': Valuation)
    requires SameView(m, u, b.m, v) && Below(b.m, b.next) && AgreeBelow(v', v, b.next)
    requires forall name :: name in b.m.ports ==> SameShown(b.m, m', v', name)
    ensures SameView(m, u, m', v')
  {
    forall name | name in m.ports
      ensures name in m'.ports && m'.ports[name].dir == m.ports[name].dir
      ensures BitsVal(v', m'.ports[name].bits) == BitsVal(u, m.ports[name].bits)
    {
      assert name in b.m.ports && SameShown(b.m, m', v', name);
      BitsAgree(v', v, b.m.ports[name].bits, b.next);
    }
  }

  lemma {:induction false} BranchesReady(s: Setup, p: Finish, f: Fault, i: nat)
    requires Distinct(s.order) && i <= |s.order| && BranchReady(Dropped(s, p), f, Elems(s.order), p.drives)
    ensures BranchReady(BranchedAt(s, p, i), f, Elems(s.order[i..]), p.drives)
  {
    hide Dropped;
    hide BranchReady;
    hide BranchStep;
    if i == 0 {
      assert s.order[..0] == [] && s.order[0..] == s.order;
    } else {
      BranchesReady(s, p, f, i - 1);
      BranchedStep(s, p, i - 1);
      TailElems(s.order, i);
      assert s.order[i - 1..][0] == s.order[i - 1];
      BranchKeepsReady(BranchedAt(s, p, i - 1), f, Elems(s.order[i - 1..]), p.drives, s.order[i - 1], p.single(s.order[i - 1]));
    }
  }

  lemma {:induction false} BranchForthAll(lib: Library, s: Setup, p: Finish, f: Fault, env: Inputs, st: State, u: Valuation, i: nat)
    returns (v: Valuation)
    requires Distinct(s.order) && i <= |s.order| && BranchReady(Dropped(s, p), f, Elems(s.order), p.drives)
    requires Settled(lib, Dropped(s, p).m, f, env, st, u)
    ensures Settled(lib, BranchedAt(s, p, i).m, f, env, st, v)
    ensures SameView(Dropped(s, p).m, u, BranchedAt(s, p, i).m, v)
  {
    hide Dropped;
    hide BranchStep;
    hide Settled;
    if i == 0 {
      assert s.order[..0] == [];
      v := u;
    } else {
      var w := BranchForthAll(lib, s, p, f, env, st, u, i - 1);
      var b, inst := BranchedAt(s, p, i - 1), s.order[i - 1];
      BranchesReady(s, p, f, i - 1);
      BranchedStep(s, p, i - 1);
      assert inst == s.order[i - 1..][0];
      v := BranchForth(lib, b, f, env, st, w, Elems(s.order[i - 1..]), p.drives, inst, p.single(inst));
      BranchBack(lib, b, f, env, st, v, Elems(s.order[i - 1..]), p.drives, inst, p.single(inst));
      SameViewStep(Dropped(s, p).m, u, b, w, BranchedAt(s, p, i).m, v);
    }
  }

  lemma {:induction false} BranchBackAll(lib: Library, s: Setup, p: Finish, f: Fault, env: Inputs, st: State, v: Valuation, i: nat)
    requires Distinct(s.order) && i <= |s.order| && BranchReady(Dropped(s, p), f, Elems(s.order), p.drives)
    requires Settled(lib, BranchedAt(s, p, i).m, f, env, st, v)
    ensures Settled(lib, Dropped(s, p).m, f, env, st, v)
    ensures SameView(Dropped(s, p).m, v, BranchedAt(s, p, i).m, v)
  {
    hide Dropped;
    hide BranchStep;
    hide Settled;
    if i == 0 {
      assert s.order[..0] == [];
    } else {
      var b, inst := BranchedAt(s, p, i - 1), s.order[i - 1];
      BranchesReady(s, p, f, i - 1);
      BranchedStep(s, p, i - 1);
      assert inst == s.order[i - 1..][0];
      BranchBack(lib, b, f, env, st, v, Elems(s.order[i - 1..]), p.drives, inst, p.single(inst));
      BranchBackAll(lib, s, p, f, env, st, v, i - 1);
      SameViewStep(Dropped(s, p).m, v, b, v, BranchedAt(s, p, i).m, v);
    }
  }

  /* ---- the theorem ---- */

  lemma {:induction false} NoBranchYet(s: Setup, i: nat)
    requires s.Valid() && i <= |s.order|
    ensures forall inst :: inst in s.order ==> Made(QPo, inst) !in s.At(i).m.cells
  {
    hide CutAll;
    hide CutStep;
    hide Cut;
    if i == 0 {
      AtStart(s);
      assert forall inst :: inst in s.order ==> inst in Elems(s.order);
    } else {
      hide Ready;
      NoBranchYet(s, i - 1);
      var ids, b' := StepAt(s, NoFault, i - 1);
    }
  }

  lemma DroppedReady(s: Setup, p: Finish, f: Fault)
    requires FinishReady(s, p) && FaultBelow(f, s.next)
    ensures BranchReady(Dropped(s, p), ViewFault(s, f), Elems(s.order), p.drives)
  {
    hide CutAll;
    hide Ready;
    StaysReady(s, |s.order|);
    FaultStaysBelow(s, f, |s.order|);
    NoBranchYet(s, |s.order|);
  }

  // What the cut module shows is what the dropped one shows.
  lemma DropMirrors(g: Module, w: Valuation, m: Module, u: Valuation, d: Valuation, cut: set<Name>, st: State,
                    keep: set<Name>, drop: set<Name>, m': Module, v: Valuation)
    requires Mirrors(g, w, m, u, cut, st, keep) && PlainKeep(drop)
    requires forall name :: name in m.ports && name !in drop ==> BitsVal(d, m.ports[name].bits) == BitsVal(u, m.ports[name].bits)
    requires SameView(DropDangling(m, drop), d, m', v)
    ensures Mirrors(g, w, m', v, cut, st, keep + drop)
  {
    forall name | name in g.ports && name !in keep + drop ensures ShowsPort(g, w, m', v, name) {
      assert ShowsPort(g, w, m, u, name);
      assert name in DropDangling(m, drop).ports;
    }
    forall inst | inst in cut ensures ShowsCapture(g, w, m', v, inst, st) {
      assert ShowsCapture(g, w, m, u, inst, st);
      assert Made(Ppo, inst) in DropDangling(m, drop).ports;
    }
  }

  // The scan-enable net carries its port's value.
  lemma EnableLow(lib: Library, m: Module, f: Fault, env: Inputs, st: State, v: Valuation, p: Finish, se: nat, rest: set<Name>)
    requires PortsOk(m, rest, p, se) && Settled(lib, m, f, env, st, v) && Free(f, se) && !env(p.sePort, 0)
    ensures !v(se)
  {
    assert PortOk(f, env, p.sePort, m.ports[p.sePort], v);
    assert m.ports[p.sePort].bits[0] == Net(se);
  }

  /** Whatever the netlist shows with scan enable off, the reduced view shows
      with every pseudo-input at its flop's state. */
  lemma ViewForth(lib: Library, s: Setup, p: Finish, f: Fault, env: Inputs, st: State, w: Valuation)
    returns (v: Valuation)
    requires FinishReady(s, p) && s.se < s.next && FaultBelow(f, s.next) && Free(f, s.se)
    requires Loaded(s, env, st) && !env(p.sePort, 0)
    requires Settled(lib, s.g, f, env, st, w)
    ensures Settled(lib, ReducedView(s, p), ViewFault(s, f), env, st, v)
    ensures Mirrors(s.g, w, ReducedView(s, p), v, Elems(s.order), st, s.keep + p.drop)
  {
    hide CutAll;
    hide Settled;
    hide Mirrors;
    hide DropDangling;
    hide BranchAll;
    hide BranchReady;
    hide PortsOk;
    hide SameView;
    hide MovedFault;
    var n := |s.order|;
    EnableLow(lib, s.g, f, env, st, w, p, s.se, Elems(s.order));
    var u := CutForthAll(lib, s, f, env, st, w, n);
    assert s.order[..n] == s.order;
    DropForth(lib, s.At(n).m, p.drop, ViewFault(s, f), env, st, u);
    DroppedReady(s, p, f);
    v := BranchForthAll(lib, s, p, ViewFault(s, f), env, st, u, n);
    DropMirrors(s.g, w, s.At(n).m, u, u, Elems(s.order), st, s.keep, p.drop, ReducedView(s, p), v);
  }

  // Nothing forwarded in the netlist, nothing unsafe after the cuts.
  lemma CutDropSafe(s: Setup, p: Finish)
    requires FinishReady(s, p) && NoForward(s, p.drop)
    ensures DropSafe(s.At(|s.order|).m, p.drop)
  {
    var m := s.At(|s.order|).m;
    forall name, other, n: nat | DroppedNet(m, p.drop, name, n) && other in m.ports && other != name && Net(n) in m.ports[other].bits
      ensures other in p.drop && m.ports[other].dir.Output?
    {
      DropNetForeign(s, p, name, n);
      UsedAfterCuts(s, n);
      hide Setup.At, CutAll, FinishReady;
      assert other in s.g.ports && Net(n) in s.g.ports[other].bits by { HeldBack(s.g, m, n, other); }
      assert s.g.ports[name] == Port(Input, [Net(n)]) by { HeldPort(s.g, m, n, name); }
      assert !Forwarded(s.g, Elems(s.order), p.drop, name, other, n);
    }
  }

  lemma HeldBack(g: Module, m: Module, n: nat, name: Name)
    requires PortsHold(g, m, n) && name in m.ports && Net(n) in m.ports[name].bits
    ensures name in g.ports && Net(n) in g.ports[name].bits
  {
    var k :| 0 <= k < |m.ports[name].bits| && m.ports[name].bits[k] == Net(n);
    assert g.ports[name].bits[k] == Net(n);
  }

  lemma HeldPort(g: Module, m: Module, n: nat, name: Name)
    requires PortsHold(g, m, n) && name in g.ports
    ensures name in m.ports && (m.ports[name] == Port(Input, [Net(n)]) <==> g.ports[name] == Port(Input, [Net(n)]))
  {
    var a, b := m.ports[name].bits, g.ports[name].bits;
    assert |a| == 1 && a[0] == Net(n) ==> a == [Net(n)];
    assert |b| == 1 && b[0] == Net(n) ==> b == [Net(n)];
  }

  // A dropped input's net is the netlist's, and no flop's.
  lemma DropNetForeign(s: Setup, p: Finish, name: Name, n: nat)
    requires FinishReady(s, p) && name in p.drop && name in s.At(|s.order|).m.ports
    requires s.At(|s.order|).m.ports[name] == Port(Input, [Net(n)])
    ensures Foreign(s, n) && name in s.g.ports && s.g.ports[name] == Port(Input, [Net(n)])
  {
    DropPortStays(s, p, name, |s.order|);
    assert BitsBelow(s.g.ports[name].bits, s.next);
    assert s.g.ports[name].bits[0] == Net(n) && Net(n) in s.g.ports[name].bits;
    assert forall inst :: inst in s.order ==> inst in Elems(s.order);
  }

  lemma {:induction false} DropPortStays(s: Setup, p: Finish, name: Name, i: nat)
    requires FinishReady(s, p) && i <= |s.order| && name in p.drop && name in s.At(i).m.ports && s.At(i).m.ports[name].dir.Input?
    ensures name in s.g.ports && s.At(i).m.ports[name] == s.g.ports[name]
  {
    hide CutAll, CutStep, Cut, PortsOk, Stepped, Ready, CutReady;
    if i == 0 {
      AtStart(s);
    } else {
      PortsStayOk(s, p, i - 1);
      var ids, b' := StepAt(s, NoFault, i - 1);
      DropPortSame(s.At(i - 1), b', s.order[i - 1], ids, p, s.keep, s.se, Elems(s.order[i - 1..]), name);
      DropPortStays(s, p, name, i - 1);
    }
  }

  /** Whatever the reduced view shows, the netlist shows, provided that no dropped
      input is forwarded to a port that stays. */
  lemma ViewBack(lib: Library, s: Setup, p: Finish, f: Fault, env: Inputs, st: State, v: Valuation)
    returns (w: Valuation)
    requires FinishReady(s, p) && NoForward(s, p.drop) && s.se < s.next && FaultBelow(f, s.next) && Free(f, s.se)
    requires Loaded(s, env, st) && !env(p.sePort, 0)
    requires Settled(lib, ReducedView(s, p), ViewFault(s, f), env, st, v)
    ensures Settled(lib, s.g, f, env, st, w)
    ensures Mirrors(s.g, w, ReducedView(s, p), v, Elems(s.order), st, s.keep + p.drop)
  {
    hide CutAll;
    hide Settled;
    hide Mirrors;
    hide DropDangling;
    hide BranchAll;
    hide BranchReady;
    hide SameView;
    hide MovedFault;
    hide Ready;
    hide Restored, DropSafe, NoForward;
    var n, g := |s.order|, ViewFault(s, f);
    assert s.order[..n] == s.order;
    DroppedReady(s, p, f);
    BranchBackAll(lib, s, p, g, env, st, v, n);
    PortsStayOk(s, p, n);
    CutDropSafe(s, p);
    DropBack(lib, s.At(n).m, p.drop, g, env, st, v);
    var u := Restored(s.At(n).m, p.drop, g, env, v);
    FaultStaysFree(s, f, n);
    EnableLow(lib, s.At(n).m, g, env, st, u, p, s.se, Elems(s.order[n..]));
    w := CutBackAll(lib, s, f, env, st, u, n);
    forall name | name in s.At(n).m.ports && name !in p.drop
      ensures BitsVal(v, s.At(n).m.ports[name].bits) == BitsVal(u, s.At(n).m.ports[name].bits)
    {
      RestoredPort(s.At(n).m, p.drop, g, env, v, name);
    }
    DropMirrors(s.g, w, s.At(n).m, u, v, Elems(s.order), st, s.keep, p.drop, ReducedView(s, p), v);
  }
}
