/** What the last pass of the view builder leaves on a flop's output net: a reader that
    is alone on it does not share it with a primary output. */
module ViewOutputs {
  import opened Netlist
  import opened ScanView
  import opened ViewMeaning
  import opened ViewDrop
  import opened ViewFinish
  import opened ViewPins

  // An input pin of a cell reads a net.
  ghost predicate Reads(m: Module, x: Name, p: Pin, n: nat)
  {
    x in m.cells && p in m.cells[x].conns && p !in m.cells[x].outs && Net(n) in m.cells[x].conns[p]
  }

  // One pin outside a given cell reads a net, and no other does.
  ghost predicate OneReader(m: Module, n: nat, skip: Name)
  {
    exists x, p :: x != skip && Reads(m, x, p, n)
                   && forall y, q :: y != skip && Reads(m, y, q, n) ==> y == x && q == p
  }

  // Outputs of different flops are driven from different nets, and no branch is made yet.
  ghost predicate Laid(b: Build, order: seq<Name>, drives: Name -> nat)
  {
    && Below(b.m, b.next)
    && (forall i :: 0 <= i < |order| ==> Made(QPo, order[i]) !in b.m.cells && drives(order[i]) < b.next)
    && (forall i, j :: 0 <= i < |order| && 0 <= j < |order| && i != j ==>
          order[i] != order[j] && drives(order[i]) != drives(order[j]))
  }

  lemma StepShows(c: Build, inst: Name, d: nat, single: bool, n: nat, name: Name)
    requires n < c.next
    ensures ShownAt(BranchStep(c, inst, d, single).m, name, n) <==> ShownAt(c.m, name, n) && !(single && d == n)
  {
    if name in c.m.ports && ShownAt(c.m, name, d) {
      var bits := c.m.ports[name].bits;
      var moved := SubBits(bits, d, c.next);
      if Net(n) in bits && d != n {
        var i :| 0 <= i < |bits| && bits[i] == Net(n);
        assert moved[i] == Net(n);
      }
    }
  }

  lemma StepGrows(c: Build, inst: Name, d: nat, single: bool)
    ensures c.next <= BranchStep(c, inst, d, single).next
  {
  }

  lemma StepReads(c: Build, inst: Name, d: nat, single: bool, n: nat, y: Name, q: Pin)
    requires Made(QPo, inst) !in c.m.cells
    requires y != Made(QPo, inst) || d != n
    ensures Reads(BranchStep(c, inst, d, single).m, y, q, n) <==> Reads(c.m, y, q, n)
  {
  }

  ghost function AfterFirst(b: Build, order: seq<Name>, drives: Name -> nat, single: Name -> bool, i: nat): Build
    requires i <= |order|
  {
    BranchAll(b, order[..i], drives, single)
  }

  lemma AfterNext(b: Build, order: seq<Name>, drives: Name -> nat, single: Name -> bool, i: nat)
    requires i < |order|
    ensures AfterFirst(b, order, drives, single, i + 1)
         == BranchStep(AfterFirst(b, order, drives, single, i), order[i], drives(order[i]), single(order[i]))
  {
    var o := order[..i + 1];
    assert o[..|o| - 1] == order[..i] && o[|o| - 1] == order[i];
    hide BranchStep;
  }

  // A primary output leaves a flop's net at that flop's step, when there is one reader.
  lemma {:induction false} ShownAfter(b: Build, order: seq<Name>, drives: Name -> nat, single: Name -> bool, j: nat, i: nat, name: Name)
    requires Laid(b, order, drives) && j < |order| && i <= |order|
    ensures b.next <= AfterFirst(b, order, drives, single, i).next
    ensures ShownAt(AfterFirst(b, order, drives, single, i).m, name, drives(order[j]))
       <==> ShownAt(b.m, name, drives(order[j])) && !(j < i && single(order[j]))
    decreases i
  {
    hide ShownAt, BranchStep, Below;
    if i == 0 {
      assert order[..0] == [];
    } else {
      ShownAfter(b, order, drives, single, j, i - 1, name);
      AfterNext(b, order, drives, single, i - 1);
      hide AfterFirst, BranchAll;
      var c := AfterFirst(b, order, drives, single, i - 1);
      StepShows(c, order[i - 1], drives(order[i - 1]), single(order[i - 1]), drives(order[j]), name);
      StepGrows(c, order[i - 1], drives(order[i - 1]), single(order[i - 1]));
    }
  }

  lemma {:induction false} BranchMade(b: Build, order: seq<Name>, drives: Name -> nat, single: Name -> bool, j: nat, i: nat)
    requires Laid(b, order, drives) && j < |order| && i <= |order|
    ensures Made(QPo, order[j]) in AfterFirst(b, order, drives, single, i).m.cells
       <==> j < i && single(order[j]) && exists name :: ShownAt(b.m, name, drives(order[j]))
    decreases i
  {
    hide ShownAt, Below;
    if i == 0 {
      assert order[..0] == [];
    } else {
      BranchMade(b, order, drives, single, j, i - 1);
      AfterNext(b, order, drives, single, i - 1);
      hide AfterFirst, BranchAll;
      var c := AfterFirst(b, order, drives, single, i - 1);
      forall name ensures i - 1 == j ==> (ShownAt(c.m, name, drives(order[j])) <==> ShownAt(b.m, name, drives(order[j]))) {
        ShownAfter(b, order, drives, single, j, i - 1, name);
      }
      MadeStep(c, order[i - 1], drives(order[i - 1]), single(order[i - 1]), order[j]);
      hide BranchStep;
    }
  }

  lemma MadeStep(c: Build, inst: Name, d: nat, single: bool, other: Name)
    ensures Made(QPo, other) in BranchStep(c, inst, d, single).m.cells
       <==> Made(QPo, other) in c.m.cells || (other == inst && single && exists name :: ShownAt(c.m, name, d))
  {
    hide SubBits;
    assert forall name :: ShownAt(c.m, name, d) ==> name in c.m.ports;
  }

  lemma {:induction false} ReadsAfter(b: Build, order: seq<Name>, drives: Name -> nat, single: Name -> bool, j: nat, i: nat, y: Name, q: Pin)
    requires Laid(b, order, drives) && j < |order| && i <= |order| && y != Made(QPo, order[j])
    ensures Reads(AfterFirst(b, order, drives, single, i).m, y, q, drives(order[j])) <==> Reads(b.m, y, q, drives(order[j]))
    decreases i
  {
    hide Reads, BranchStep, Below;
    if i == 0 {
      assert order[..0] == [];
    } else {
      ReadsAfter(b, order, drives, single, j, i - 1, y, q);
      BranchMade(b, order, drives, single, i - 1, i - 1);
      AfterNext(b, order, drives, single, i - 1);
      hide AfterFirst, BranchAll;
      StepReads(AfterFirst(b, order, drives, single, i - 1), order[i - 1], drives(order[i - 1]), single(order[i - 1]),
                drives(order[j]), y, q);
    }
  }

  lemma ReadersAfter(b: Build, order: seq<Name>, drives: Name -> nat, single: Name -> bool, j: nat)
    requires Laid(b, order, drives) && j < |order|
    ensures OneReader(AfterFirst(b, order, drives, single, |order|).m, drives(order[j]), Made(QPo, order[j]))
       <==> OneReader(b.m, drives(order[j]), Made(QPo, order[j]))
  {
    hide Reads, AfterFirst, Laid;
    forall y, q | y != Made(QPo, order[j])
      ensures Reads(AfterFirst(b, order, drives, single, |order|).m, y, q, drives(order[j])) <==> Reads(b.m, y, q, drives(order[j]))
    {
      ReadsAfter(b, order, drives, single, j, |order|, y, q);
    }
  }

  // A flop's output net in the finished view: a lone reader has it to itself, and only
  // then is there a branch to the primary outputs.
  ghost predicate KeptApart(v: Module, inst: Name, n: nat)
  {
    && (OneReader(v, n, Made(QPo, inst)) ==> forall name :: !ShownAt(v, name, n))
    && (Made(QPo, inst) in v.cells ==> OneReader(v, n, Made(QPo, inst)))
  }

  lemma LaysApart(b: Build, order: seq<Name>, drives: Name -> nat, single: Name -> bool, j: nat)
    requires Laid(b, order, drives) && j < |order|
    requires single(order[j]) <==> OneReader(b.m, drives(order[j]), Made(QPo, order[j]))
    ensures KeptApart(BranchAll(b, order, drives, single).m, order[j], drives(order[j]))
  {
    assert order[..|order|] == order;
    var v := AfterFirst(b, order, drives, single, |order|).m;
    ReadersAfter(b, order, drives, single, j);
    BranchMade(b, order, drives, single, j, |order|);
    hide OneReader, ShownAt;
    forall name ensures single(order[j]) ==> !ShownAt(v, name, drives(order[j])) {
      ShownAfter(b, order, drives, single, j, |order|, name);
    }
  }

  // Flops are cut with ids of their own.
  lemma DrivesApart(s: Setup, i: nat, j: nat)
    requires s.Valid() && i < j < |s.order|
    ensures DriveNet(s, i) < DriveNet(s, j) && s.order[i] != s.order[j]
  {
    hide *;
    OrderDiffers(s, i, j);
    StepFault(s, NoFault, i);
    StepFault(s, NoFault, j);
    NextGrows(s, i + 1, j);
  }

  lemma ReadyLaid(s: Setup, p: Finish)
    requires FinishReady(s, p) && (forall j :: 0 <= j < |s.order| ==> p.drives(s.order[j]) == DriveNet(s, j))
    ensures Laid(Dropped(s, p), s.order, p.drives)
  {
    hide DriveNet, CutAll, Setup.At, PortsOk, Below, BranchAll;
    NoFaultBelow(s.next);
    DroppedReady(s, p, NoFault);
    assert forall i :: 0 <= i < |s.order| ==> s.order[i] in Elems(s.order);
    forall i, j | 0 <= i < |s.order| && 0 <= j < |s.order| && i != j
      ensures s.order[i] != s.order[j] && p.drives(s.order[i]) != p.drives(s.order[j])
    {
      if i < j {
        DrivesApart(s, i, j);
      } else {
        DrivesApart(s, j, i);
      }
    }
  }

  /** In the finished view a flop output's single reader shares no net with a primary output. */
  lemma ReaderAlone(s: Setup, p: Finish, j: nat)
    requires FinishReady(s, p) && j < |s.order| && (forall i :: 0 <= i < |s.order| ==> p.drives(s.order[i]) == DriveNet(s, i))
    requires p.single(s.order[j]) <==> OneReader(Dropped(s, p).m, p.drives(s.order[j]), Made(QPo, s.order[j]))
    ensures KeptApart(ReducedView(s, p), s.order[j], p.drives(s.order[j]))
  {
    ReadyLaid(s, p);
    hide Laid, FinishReady, DriveNet, OneReader, KeptApart, BranchAll, Dropped;
    LaysApart(Dropped(s, p), s.order, p.drives, p.single, j);
  }
}
