/** Exactly which wiring flattening keeps (faultflow/project/assemble.py): every
    other wiring leaves a net without a driver that the hierarchy drives. */
module ComposeExact {
  import opened Netlist
  import opened NetlistEval
  import opened Compose
  import opened ComposeSoc

  // The instance's output pins are the block's output ports.
  ghost predicate InstanceShape(c: Cell, body: Module)
  {
    forall name :: name in body.ports && Named(name) in c.conns ==> (Named(name) in c.outs <==> body.ports[name].dir.Output?)
  }

  // A composed design with one driver per net, in the glue and in every block.
  ghost predicate Composed(m: Module, blocks: seq<Block>, remaps: seq<Remap>, nexts: seq<nat>)
  {
    && |remaps| == |blocks| && |nexts| == |blocks| + 1 && Placed(m, blocks) && Numbered(m, blocks, remaps, nexts, |blocks|)
    && Below(m, nexts[0]) && SingleDriver(m)
    && (forall i :: 0 <= i < |blocks| ==>
          && blocks[i].inst in m.cells && SingleDriver(blocks[i].body) && InstanceShape(m.cells[blocks[i].inst], blocks[i].body))
  }

  /* ---- what drives a net of the flat netlist ---- */

  // The pin of a block's cell as it drives the flat netlist.
  ghost predicate DrivesAs(b: Block, remap: Remap, x: Name, p: Pin, j: nat, a: nat)
  {
    x.Made? && x.tag == Inside(b.inst) && Drives(b.body, CellPin(x.base, p, j), a) && a in remap
  }

  lemma ReadyAt(m: Module, blocks: seq<Block>, remaps: seq<Remap>, nexts: seq<nat>, i: nat)
    requires |remaps| == |blocks| && |nexts| == |blocks| + 1 && Numbered(m, blocks, remaps, nexts, |blocks|) && i < |blocks|
    ensures SpliceReady(Flat(m, blocks, remaps, i), blocks[i], blocks[i + 1..], remaps[i], nexts[i], nexts[i + 1])
    ensures Flat(m, blocks, remaps, i + 1) == Splice(Flat(m, blocks, remaps, i), blocks[i], remaps[i])
  {
    hide SpliceReady, Splice;
  }

  lemma {:induction false} FlatCell(m: Module, blocks: seq<Block>, remaps: seq<Remap>, nexts: seq<nat>, n: nat, x: Name) returns (i: int)
    requires n <= |blocks| == |remaps| && |nexts| == |blocks| + 1 && Numbered(m, blocks, remaps, nexts, |blocks|) && x in Flat(m, blocks, remaps, n).cells
    ensures i < 0 ==> x in m.cells && Flat(m, blocks, remaps, n).cells[x] == m.cells[x] && forall k :: 0 <= k < n ==> blocks[k].inst != x
    ensures i >= 0 ==> i < n && x in Spliced(blocks[i]) && Flat(m, blocks, remaps, n).cells[x] == MapCell(blocks[i].body.cells[x.base], remaps[i])
    decreases n
  {
    hide *;
    FlatNone(m, blocks, remaps);
    if n == 0 {
      i := -1;
    } else {
      var flat, b, remap := Flat(m, blocks, remaps, n - 1), blocks[n - 1], remaps[n - 1];
      ReadyAt(m, blocks, remaps, nexts, n - 1);
      SpliceCells(flat, b, blocks[n - 1 + 1..], remap, nexts[n - 1], nexts[n - 1 + 1]);
      if x in Spliced(b) {
        assert x == Made(Inside(b.inst), x.base);
        i := n - 1;
      } else {
        i := FlatCell(m, blocks, remaps, nexts, n - 1, x);
      }
    }
  }

  lemma FlatNone(m: Module, blocks: seq<Block>, remaps: seq<Remap>)
    ensures Flat(m, blocks, remaps, 0) == m
  {}

  lemma MappedPin(c: Cell, remap: Remap, p: Pin, j: nat, k: nat)
    requires p in c.conns && j < |c.conns[p]| && MapCell(c, remap).conns[p][j] == Net(k)
    ensures c.conns[p][j].Net? && k == MapNet(remap, c.conns[p][j].id)
  {}

  // Where a block's net goes: a glue net it is joined to, or the block's own range.
  lemma BlockNet(m: Module, blocks: seq<Block>, remaps: seq<Remap>, nexts: seq<nat>, i: nat, a: nat) returns (name: Name, k: int)
    requires Composed(m, blocks, remaps, nexts) && i < |blocks| && a in remaps[i]
    ensures var c, body, g := m.cells[blocks[i].inst], blocks[i].body, remaps[i][a];
            || (g < nexts[0] && Joins(c, body, a, g, name, k))
            || (nexts[i] <= g < nexts[i + 1] && !Joined(c, body, a))
    ensures nexts[0] <= nexts[i] <= nexts[i + 1]
  {
    RangesGrow(m, blocks, remaps, nexts, i);
    RangesGrow(m, blocks, remaps, nexts, i + 1);
    InstanceStays(m, blocks, remaps, nexts, i, i);
    var c, body, g := m.cells[blocks[i].inst], blocks[i].body, remaps[i][a];
    assert SpliceReady(Flat(m, blocks, remaps, i), blocks[i], blocks[i + 1..], remaps[i], nexts[i], nexts[i + 1]);
    assert RemapOk(c, body, remaps[i], nexts[i], nexts[i + 1]);
    hide Flat, Numbered, SpliceReady;
    if Joined(c, body, a) {
      assert exists other, j :: Joins(c, body, a, g, other, j);
      name, k :| Joins(c, body, a, g, name, k);
      WiredBelow(m, nexts[0], blocks[i].inst, body, name, k);
    } else {
      name, k := Text(""), 0;
    }
  }

  lemma {:induction false} RangesGrow(m: Module, blocks: seq<Block>, remaps: seq<Remap>, nexts: seq<nat>, i: nat)
    requires |remaps| == |blocks| && |nexts| == |blocks| + 1 && Numbered(m, blocks, remaps, nexts, |blocks|) && i <= |blocks|
    ensures forall k :: 0 <= k <= i ==> nexts[k] <= nexts[i]
  {
    hide *;
    if i > 0 {
      RangesGrow(m, blocks, remaps, nexts, i - 1);
      ReadyAt(m, blocks, remaps, nexts, i - 1);
      RangeGrows(Flat(m, blocks, remaps, i - 1), blocks[i - 1], blocks[i - 1 + 1..], remaps[i - 1], nexts[i - 1], nexts[i - 1 + 1]);
    }
  }

  // A net that a block's cell drives and a port joins goes out through that port.
  lemma GoesOut(m: Module, blocks: seq<Block>, remaps: seq<Remap>, nexts: seq<nat>, i: nat, x: Name, p: Pin, j: nat, a: nat, g: nat, name: Name, k: int)
    requires Composed(m, blocks, remaps, nexts) && i < |blocks| && Drives(blocks[i].body, CellPin(x, p, j), a)
    requires Joins(m.cells[blocks[i].inst], blocks[i].body, a, g, name, k)
    ensures blocks[i].body.ports[name].dir.Output? && k >= 0 && Drives(m, CellPin(blocks[i].inst, Named(name), k), g)
  {
    var c, body := m.cells[blocks[i].inst], blocks[i].body;
    var bit: nat := k;
    assert body.ports[name].dir.Input? ==> Drives(body, PortBit(name, bit), a);
    assert InstanceShape(c, body);
  }

  // A site of the flat netlist: one of the glue's own, or a block cell's pin.
  lemma FlatSite(m: Module, blocks: seq<Block>, remaps: seq<Remap>, nexts: seq<nat>, s: Site, n: nat) returns (i: int, a: nat)
    requires Composed(m, blocks, remaps, nexts) && Drives(Flat(m, blocks, remaps, |blocks|), s, n)
    ensures i < 0 ==> Drives(m, s, n) && (s.CellPin? ==> forall k :: 0 <= k < |blocks| ==> blocks[k].inst != s.inst)
    ensures i >= 0 ==> i < |blocks| && s.CellPin? && DrivesAs(blocks[i], remaps[i], s.inst, s.p, s.i, a) && remaps[i][a] == n
  {
    FlatPorts(m, blocks, remaps, |blocks|);
    var flat := Flat(m, blocks, remaps, |blocks|);
    hide Flat, Numbered, SingleDriver, InstanceShape, Below;
    a := 0;
    match s
    case PortBit(name, j) =>
      i := -1;
    case CellPin(x, p, j) =>
      i := FlatCell(m, blocks, remaps, nexts, |blocks|, x);
      if i >= 0 {
        var c := blocks[i].body.cells[x.base];
        MappedPin(c, remaps[i], p, j, n);
        a := c.conns[p][j].id;
        InRemap(m, blocks, remaps, nexts, i, x.base, p, j);
      }
  }

  lemma InRemap(m: Module, blocks: seq<Block>, remaps: seq<Remap>, nexts: seq<nat>, i: nat, x: Name, p: Pin, j: nat)
    requires Composed(m, blocks, remaps, nexts) && i < |blocks| && x in blocks[i].body.cells && p in blocks[i].body.cells[x].conns
    requires j < |blocks[i].body.cells[x].conns[p]| && blocks[i].body.cells[x].conns[p][j].Net?
    ensures blocks[i].body.cells[x].conns[p][j].id in remaps[i]
  {
    ReadyAt(m, blocks, remaps, nexts, i);
    hide Flat, Numbered;
    InBodyCell(blocks[i].body, x, p, j);
  }

  // Two blocks' nets that meet in the flat netlist are one net of one block.
  lemma Meet(m: Module, blocks: seq<Block>, remaps: seq<Remap>, nexts: seq<nat>, i: nat, a: nat, s: Site, k: nat, b: nat, t: Site)
    requires Composed(m, blocks, remaps, nexts) && i < |blocks| && k < |blocks|
    requires s.CellPin? && DrivesAs(blocks[i], remaps[i], s.inst, s.p, s.i, a) && t.CellPin? && DrivesAs(blocks[k], remaps[k], t.inst, t.p, t.i, b)
    requires remaps[i][a] == remaps[k][b]
    ensures i == k && a == b
  {
    var name, j := BlockNet(m, blocks, remaps, nexts, i, a);
    var other, l := BlockNet(m, blocks, remaps, nexts, k, b);
    var g := remaps[i][a];
    if g < nexts[0] {
      GoesOut(m, blocks, remaps, nexts, i, s.inst.base, s.p, s.i, a, g, name, j);
      GoesOut(m, blocks, remaps, nexts, k, t.inst.base, t.p, t.i, b, g, other, l);
      SamePort(m, blocks, i, name, j, k, other, l, g);
      hide Numbered;
    } else {
      hide Numbered, SingleDriver, Joins;
      OwnRange(m, blocks, remaps, nexts, i, k);
      OwnRange(m, blocks, remaps, nexts, k, i);
      FreshOnce(m, blocks, remaps, nexts, i, a, b);
    }
  }

  lemma SamePort(m: Module, blocks: seq<Block>, i: nat, name: Name, j: nat, k: nat, other: Name, l: nat, g: nat)
    requires SingleDriver(m) && Placed(m, blocks) && i < |blocks| && k < |blocks|
    requires Drives(m, CellPin(blocks[i].inst, Named(name), j), g) && Drives(m, CellPin(blocks[k].inst, Named(other), l), g)
    ensures i == k && name == other && j == l
  {
    assert CellPin(blocks[i].inst, Named(name), j) == CellPin(blocks[k].inst, Named(other), l);
  }

  // An earlier block's range ends before a later one's begins.
  lemma OwnRange(m: Module, blocks: seq<Block>, remaps: seq<Remap>, nexts: seq<nat>, i: nat, k: nat)
    requires Composed(m, blocks, remaps, nexts) && i < |blocks| && k < |blocks|
    ensures i < k ==> nexts[i + 1] <= nexts[k]
  {
    RangesGrow(m, blocks, remaps, nexts, k);
  }

  lemma FreshOnce(m: Module, blocks: seq<Block>, remaps: seq<Remap>, nexts: seq<nat>, i: nat, a: nat, b: nat)
    requires Composed(m, blocks, remaps, nexts) && i < |blocks|
    ensures a in remaps[i] && b in remaps[i] && remaps[i][a] == remaps[i][b] >= nexts[i] ==> a == b
  {
    ReadyAt(m, blocks, remaps, nexts, i);
    hide Numbered, Flat;
  }

  // A glue net that a block's cell drives has no other driver in the glue.
  lemma GlueAlone(m: Module, blocks: seq<Block>, remaps: seq<Remap>, nexts: seq<nat>, i: nat, a: nat, s: Site, t: Site)
    requires Composed(m, blocks, remaps, nexts) && i < |blocks|
    requires s.CellPin? && DrivesAs(blocks[i], remaps[i], s.inst, s.p, s.i, a)
    requires Drives(m, t, remaps[i][a])
    ensures t.CellPin? && t.inst == blocks[i].inst
  {
    var name, k := BlockNet(m, blocks, remaps, nexts, i, a);
    SiteBelow(m, nexts[0], t, remaps[i][a]);
    GoesOut(m, blocks, remaps, nexts, i, s.inst.base, s.p, s.i, a, remaps[i][a], name, k);
  }

  lemma SiteBelow(m: Module, next: nat, t: Site, n: nat)
    requires Below(m, next) && Drives(m, t, n)
    ensures n < next
  {
    match t
    case PortBit(name, i) => assert BitsBelow(m.ports[name].bits, next);
    case CellPin(x, p, i) => assert CellBelow(m.cells[x], next) && BitsBelow(m.cells[x].conns[p], next);
  }

  /** The flat netlist has one driver per net. */
  lemma FlatSingle(m: Module, blocks: seq<Block>, remaps: seq<Remap>, nexts: seq<nat>)
    requires Composed(m, blocks, remaps, nexts)
    ensures SingleDriver(Flat(m, blocks, remaps, |blocks|))
  {
    var flat := Flat(m, blocks, remaps, |blocks|);
    forall s, t, n: nat | Drives(flat, s, n) && Drives(flat, t, n) ensures s == t {
      var i, a := FlatSite(m, blocks, remaps, nexts, s, n);
      var k, b := FlatSite(m, blocks, remaps, nexts, t, n);
      SameSite(m, blocks, remaps, nexts, s, t, n, i, a, k, b);
    }
  }

  lemma SameSite(m: Module, blocks: seq<Block>, remaps: seq<Remap>, nexts: seq<nat>, s: Site, t: Site, n: nat, i: int, a: nat, k: int, b: nat)
    requires Composed(m, blocks, remaps, nexts) && i < |blocks| && k < |blocks|
    requires i < 0 ==> Drives(m, s, n) && (s.CellPin? ==> forall l :: 0 <= l < |blocks| ==> blocks[l].inst != s.inst)
    requires i >= 0 ==> s.CellPin? && DrivesAs(blocks[i], remaps[i], s.inst, s.p, s.i, a) && remaps[i][a] == n
    requires k < 0 ==> Drives(m, t, n) && (t.CellPin? ==> forall l :: 0 <= l < |blocks| ==> blocks[l].inst != t.inst)
    requires k >= 0 ==> t.CellPin? && DrivesAs(blocks[k], remaps[k], t.inst, t.p, t.i, b) && remaps[k][b] == n
    ensures s == t
  {
    if i >= 0 && k >= 0 {
      Meet(m, blocks, remaps, nexts, i, a, s, k, b, t);
      assert CellPin(s.inst.base, s.p, s.i) == CellPin(t.inst.base, t.p, t.i);
      assert s.inst == Made(Inside(blocks[i].inst), s.inst.base) && t.inst == Made(Inside(blocks[i].inst), t.inst.base);
    } else if i >= 0 {
      GlueAlone(m, blocks, remaps, nexts, i, a, s, t);
    } else if k >= 0 {
      GlueAlone(m, blocks, remaps, nexts, k, b, t, s);
    }
  }

  /* ---- nets that lose their driver ---- */

  // The glue net at an output of block i floats unless a cell drives it out.
  lemma GlueFloats(m: Module, blocks: seq<Block>, remaps: seq<Remap>, nexts: seq<nat>, i: nat, name: Name, k: nat, h: nat)
    requires Composed(m, blocks, remaps, nexts) && i < |blocks|
    requires Wired(m.cells[blocks[i].inst], blocks[i].body, name, k) && blocks[i].body.ports[name].dir.Output?
    requires PortConns(m.cells[blocks[i].inst], name)[k] == Net(h)
    requires forall x, p, j: nat, a: nat :: blocks[i].body.ports[name].bits[k] == Net(a) && Drives(blocks[i].body, CellPin(x, p, j), a) ==>
               !(a in remaps[i] && remaps[i][a] == h)
    ensures !Driven(Flat(m, blocks, remaps, |blocks|), h)
  {
    var pin := CellPin(blocks[i].inst, Named(name), k);
    assert Drives(m, pin, h) by { assert InstanceShape(m.cells[blocks[i].inst], blocks[i].body); }
    hide Numbered, Flat, Below;
    forall s ensures !Drives(Flat(m, blocks, remaps, |blocks|), s, h) {
      if Drives(Flat(m, blocks, remaps, |blocks|), s, h) {
        var l, a := FlatSite(m, blocks, remaps, nexts, s, h);
        if l >= 0 {
          OutAt(m, blocks, remaps, nexts, l, s, a, i, name, k, h);
        }
      }
    }
  }

  // A cell that drives the glue net of that output goes out there.
  lemma OutAt(m: Module, blocks: seq<Block>, remaps: seq<Remap>, nexts: seq<nat>, l: nat, s: Site, a: nat, i: nat, name: Name, k: nat, h: nat)
    requires Composed(m, blocks, remaps, nexts) && i < |blocks| && l < |blocks|
    requires s.CellPin? && DrivesAs(blocks[l], remaps[l], s.inst, s.p, s.i, a) && remaps[l][a] == h
    requires Drives(m, CellPin(blocks[i].inst, Named(name), k), h)
    ensures l == i && name in blocks[i].body.ports && k < |blocks[i].body.ports[name].bits| && blocks[i].body.ports[name].bits[k] == Net(a)
    ensures Drives(blocks[i].body, CellPin(s.inst.base, s.p, s.i), a) && a in remaps[i] && remaps[i][a] == h
  {
    var other, j := BlockNet(m, blocks, remaps, nexts, l, a);
    SiteBelow(m, nexts[0], CellPin(blocks[i].inst, Named(name), k), h);
    GoesOut(m, blocks, remaps, nexts, l, s.inst.base, s.p, s.i, a, h, other, j);
    SamePort(m, blocks, l, other, j, i, name, k, h);
    hide Numbered, SingleDriver;
  }

  /** A block net joined to no glue net floats unless a cell of the block drives it. */
  lemma FreshFloats(m: Module, blocks: seq<Block>, remaps: seq<Remap>, nexts: seq<nat>, i: nat, n: nat)
    requires Composed(m, blocks, remaps, nexts) && i < |blocks| && n in remaps[i] && !Joined(m.cells[blocks[i].inst], blocks[i].body, n)
    requires forall x, p, j: nat :: !Drives(blocks[i].body, CellPin(x, p, j), n)
    ensures !Driven(Flat(m, blocks, remaps, |blocks|), remaps[i][n])
  {
    var name, k := BlockNet(m, blocks, remaps, nexts, i, n);
    var h := remaps[i][n];
    assert nexts[0] <= nexts[i] <= h by { assert forall g: nat, x, j :: !Joins(m.cells[blocks[i].inst], blocks[i].body, n, g, x, j); }
    hide Numbered, Flat, Joined, Joins;
    forall s ensures !Drives(Flat(m, blocks, remaps, |blocks|), s, h) {
      if Drives(Flat(m, blocks, remaps, |blocks|), s, h) {
        var l, a := FlatSite(m, blocks, remaps, nexts, s, h);
        if l < 0 {
          SiteBelow(m, nexts[0], s, h);
        } else {
          var other, j := BlockNet(m, blocks, remaps, nexts, l, a);
          OwnRange(m, blocks, remaps, nexts, i, l);
          OwnRange(m, blocks, remaps, nexts, l, i);
          FreshOnce(m, blocks, remaps, nexts, i, a, n);
        }
      }
    }
  }

  /* ---- what a floating net reaches ---- */

  // A net of no higher rank does not depend on it.
  lemma {:induction false} FloatsApart(lib: Library, m: Module, env: Inputs, st: State, rank: nat -> nat, h: nat, g: nat)
    requires SingleDriver(m) && Ranked(m, rank) && g != h && rank(g) <= rank(h)
    ensures Floated(lib, m, env, st, rank, h, false)(g) == Floated(lib, m, env, st, rank, h, true)(g)
    decreases rank(g)
  {
    var a, b := Floated(lib, m, env, st, rank, h, false), Floated(lib, m, env, st, rank, h, true);
    assert a(g) == Eval(lib, m, Stuck(h, false), env, st, rank, g) && b(g) == Eval(lib, m, Stuck(h, true), env, st, rank, g);
    if s :| Drives(m, s, g) {
      match s
      case PortBit(name, i) =>
        EvalPort(lib, m, Stuck(h, false), env, st, rank, name, i, g);
        EvalPort(lib, m, Stuck(h, true), env, st, rank, name, i, g);
      case CellPin(x, p, i) =>
        EvalCell(lib, m, Stuck(h, false), env, st, rank, x, p, i, g);
        EvalCell(lib, m, Stuck(h, true), env, st, rank, x, p, i, g);
        forall k: nat | FollowsNet(m.cells[x], k) ensures a(k) == b(k) {
          assert rank(k) < rank(m.cells[x].conns[p][i].id);
          FloatsApart(lib, m, env, st, rank, h, k);
        }
        OutValAgree(lib, m.cells[x], p, i, st(x), a, b);
    } else {
      assert !Driven(m, g);
    }
  }

  /* ---- the exact condition ---- */

  ghost predicate Explained(lib: Library, m: Module, blocks: seq<Block>, remaps: seq<Remap>, env: Inputs, st: State, u: Valuation)
  {
    exists ws: seq<Valuation> :: Explains(lib, m, blocks, remaps, env, st, u, ws)
  }

  // Every settled valuation of the flat netlist is a settled hierarchical design.
  ghost predicate FlatKeeps(m: Module, blocks: seq<Block>, remaps: seq<Remap>)
    requires |remaps| == |blocks|
  {
    forall lib: Library, env: Inputs, st: State, u: Valuation ::
      Settled(lib, Flat(m, blocks, remaps, |blocks|), NoFault, env, st, u) ==> Explained(lib, m, blocks, remaps, env, st, u)
  }

  // Logic rises along every path, with the glue nets that a block net joins at one
  // rank: the hierarchy has no combinational cycle.
  ghost predicate HierRanked(m: Module, blocks: seq<Block>, remaps: seq<Remap>, rank: nat -> nat)
    requires |remaps| == |blocks|
  {
    && Ranked(Flat(m, blocks, remaps, |blocks|), rank)
    && (forall i, n, g, name, k, h, other, l :: 0 <= i < |blocks| && blocks[i].inst in m.cells
          && Joins(m.cells[blocks[i].inst], blocks[i].body, n, g, name, k) && Joins(m.cells[blocks[i].inst], blocks[i].body, n, h, other, l)
          ==> rank(g) == rank(h))
  }

  // What a settled hierarchical design says about block i.
  lemma ExplainedBlock(lib: Library, m: Module, blocks: seq<Block>, remaps: seq<Remap>, env: Inputs, st: State, u: Valuation, ws: seq<Valuation>, i: nat)
    requires Explains(lib, m, blocks, remaps, env, st, u, ws) && i < |blocks|
    ensures |ws| == |blocks| && blocks[i].inst in m.cells && Bind(m.cells[blocks[i].inst], blocks[i].body, u, ws[i]) && SeesAlike(blocks[i].body, remaps[i], u, ws[i])
  {
    assert BlockOk(lib, m, blocks[i], st, u, ws[i]);
    assert SeesAlike(blocks[0 + i].body, remaps[0 + i], u, ws[i]);
    hide Bind, SeesAlike, BodyOk;
  }

  // No valuation of the block fits the flat one across the boundary.
  ghost predicate Unfit(c: Cell, body: Module, remap: Remap, u: Valuation)
  {
    forall w: Valuation :: !(Bind(c, body, u, w) && SeesAlike(body, remap, u, w))
  }

  lemma NotKept(lib: Library, m: Module, blocks: seq<Block>, remaps: seq<Remap>, env: Inputs, st: State, u: Valuation, i: nat)
    requires |remaps| == |blocks| && i < |blocks| && blocks[i].inst in m.cells
    requires Settled(lib, Flat(m, blocks, remaps, |blocks|), NoFault, env, st, u) && Unfit(m.cells[blocks[i].inst], blocks[i].body, remaps[i], u)
    ensures !FlatKeeps(m, blocks, remaps)
  {
    hide Settled, Flat, Explains, Bind, SeesAlike;
    forall ws: seq<Valuation> ensures !Explains(lib, m, blocks, remaps, env, st, u, ws) {
      if Explains(lib, m, blocks, remaps, env, st, u, ws) {
        ExplainedBlock(lib, m, blocks, remaps, env, st, u, ws, i);
      }
    }
    assert !Explained(lib, m, blocks, remaps, env, st, u);
  }

  ghost function NoLib(): Library { (t, q, j, ins) => false }

  ghost function NoInputs(): Inputs { (x, j) => false }

  ghost function NoState(): State { x => false }

  // The flat netlist settled with a floating net at a chosen value.
  ghost function FloatFlat(m: Module, blocks: seq<Block>, remaps: seq<Remap>, rank: nat -> nat, h: nat, c: bool): Valuation
    requires |remaps| == |blocks|
  {
    Floated(NoLib(), Flat(m, blocks, remaps, |blocks|), NoInputs(), NoState(), rank, h, c)
  }

  lemma FloatFits(m: Module, blocks: seq<Block>, remaps: seq<Remap>, nexts: seq<nat>, rank: nat -> nat, h: nat, c: bool, i: nat)
    requires Composed(m, blocks, remaps, nexts) && HierRanked(m, blocks, remaps, rank) && !Driven(Flat(m, blocks, remaps, |blocks|), h)
    ensures FloatFlat(m, blocks, remaps, rank, h, c)(h) == c
    ensures i < |blocks| && Unfit(m.cells[blocks[i].inst], blocks[i].body, remaps[i], FloatFlat(m, blocks, remaps, rank, h, c)) ==>
              !FlatKeeps(m, blocks, remaps)
  {
    var flat, u := Flat(m, blocks, remaps, |blocks|), FloatFlat(m, blocks, remaps, rank, h, c);
    FlatSingle(m, blocks, remaps, nexts);
    FloatsFree(NoLib(), flat, NoInputs(), NoState(), rank, h, c);
    hide Floated, Settled, Flat, Numbered, Driven, SingleDriver, Ranked, Unfit, FlatKeeps, Below, InstanceShape;
    if i < |blocks| && Unfit(m.cells[blocks[i].inst], blocks[i].body, remaps[i], u) {
      NotKept(NoLib(), m, blocks, remaps, NoInputs(), NoState(), u, i);
    }
  }

  /* ---- three kinds of wiring that are lost ---- */

  lemma ConstantUnfit(c: Cell, body: Module, remap: Remap, u: Valuation, name: Name, k: int)
    requires Constant(c, body, name, k) && u(PortConns(c, name)[k].id) != body.ports[name].bits[k].value
    ensures Unfit(c, body, remap, u)
  {
    hide SeesAlike;
  }

  lemma ConstantLost(m: Module, blocks: seq<Block>, remaps: seq<Remap>, nexts: seq<nat>, rank: nat -> nat, i: nat, name: Name, k: nat)
    requires Composed(m, blocks, remaps, nexts) && HierRanked(m, blocks, remaps, rank) && i < |blocks|
    requires Constant(m.cells[blocks[i].inst], blocks[i].body, name, k)
    ensures !FlatKeeps(m, blocks, remaps)
  {
    var c, body := m.cells[blocks[i].inst], blocks[i].body;
    var h, value := PortConns(c, name)[k].id, !body.ports[name].bits[k].value;
    GlueFloats(m, blocks, remaps, nexts, i, name, k, h);
    hide FlatKeeps, HierRanked, Composed, FloatFlat, Driven, Flat, Unfit;
    FloatFits(m, blocks, remaps, nexts, rank, h, value, i);
    ConstantUnfit(c, body, remaps[i], FloatFlat(m, blocks, remaps, rank, h, value), name, k);
  }

  lemma TiedUndriven(c: Cell, body: Module, n: nat, name: Name, k: int, value: bool)
    requires SingleDriver(body) && Tie(c, body, n, name, k, value)
    ensures forall x, p, j: nat :: !Drives(body, CellPin(x, p, j), n)
    ensures forall h: nat, other, l :: Joins(c, body, n, h, other, l) ==> body.ports[other].dir.Output?
    ensures forall other, l, y :: Tie(c, body, n, other, l, y) ==> y == value
  {
    assert Drives(body, PortBit(name, k), n);
    forall other, l: int | Wired(c, body, other, l) && body.ports[other].dir.Input? && body.ports[other].bits[l] == Net(n) ensures other == name && l == k {
      assert Drives(body, PortBit(other, l), n);
    }
  }

  lemma TiedOutUnfit(c: Cell, body: Module, remap: Remap, u: Valuation, n: nat, name: Name, k: int, value: bool, h: nat, other: Name, l: int)
    requires Tie(c, body, n, name, k, value) && Joins(c, body, n, h, other, l) && body.ports[other].dir.Output? && u(h) != value
    ensures Unfit(c, body, remap, u)
  {
    hide SeesAlike;
    forall w: Valuation ensures !Bind(c, body, u, w) {
      assert Wired(c, body, name, k) && Wired(c, body, other, l);
    }
  }

  // A tied net that goes out through an output.
  lemma TiedOutLost(m: Module, blocks: seq<Block>, remaps: seq<Remap>, nexts: seq<nat>, rank: nat -> nat, i: nat,
                    n: nat, name: Name, k: int, value: bool, h: nat, other: Name, l: int)
    requires Composed(m, blocks, remaps, nexts) && HierRanked(m, blocks, remaps, rank) && i < |blocks|
    requires Tie(m.cells[blocks[i].inst], blocks[i].body, n, name, k, value) && Joins(m.cells[blocks[i].inst], blocks[i].body, n, h, other, l)
    ensures !FlatKeeps(m, blocks, remaps)
  {
    var c, body := m.cells[blocks[i].inst], blocks[i].body;
    TiedUndriven(c, body, n, name, k, value);
    GlueFloats(m, blocks, remaps, nexts, i, other, l, h);
    hide FlatKeeps, HierRanked, Composed, FloatFlat, Driven, Flat, Unfit, Tie, Joins;
    FloatFits(m, blocks, remaps, nexts, rank, h, !value, i);
    TiedOutUnfit(c, body, remaps[i], FloatFlat(m, blocks, remaps, rank, h, !value), n, name, k, value, h, other, l);
  }

  lemma TiedReadUnfit(c: Cell, body: Module, remap: Remap, u: Valuation, n: nat, name: Name, k: int, value: bool)
    requires Tie(c, body, n, name, k, value) && OnCell(body, n) && n in remap && u(remap[n]) != value
    ensures Unfit(c, body, remap, u)
  {
    InwardIs(u, remap, n);
    hide Inward, OnCell;
    forall w: Valuation ensures !(Bind(c, body, u, w) && SeesAlike(body, remap, u, w)) {
      assert Wired(c, body, name, k);
    }
  }

  // A tied net that only cells read.
  lemma TiedReadLost(m: Module, blocks: seq<Block>, remaps: seq<Remap>, nexts: seq<nat>, rank: nat -> nat, i: nat,
                     n: nat, name: Name, k: int, value: bool)
    requires Composed(m, blocks, remaps, nexts) && HierRanked(m, blocks, remaps, rank) && i < |blocks|
    requires Tie(m.cells[blocks[i].inst], blocks[i].body, n, name, k, value)
    requires OnCell(blocks[i].body, n) && !Joined(m.cells[blocks[i].inst], blocks[i].body, n)
    ensures !FlatKeeps(m, blocks, remaps)
  {
    var c, body := m.cells[blocks[i].inst], blocks[i].body;
    CellNetIn(m, blocks, remaps, nexts, i, n);
    TiedUndriven(c, body, n, name, k, value);
    hide FlatKeeps, HierRanked, FloatFlat, Driven, Flat, Unfit, Tie, Joined, OnCell, Numbered, SingleDriver;
    FreshFloats(m, blocks, remaps, nexts, i, n);
    FloatFits(m, blocks, remaps, nexts, rank, remaps[i][n], !value, i);
    TiedReadUnfit(c, body, remaps[i], FloatFlat(m, blocks, remaps, rank, remaps[i][n], !value), n, name, k, value);
  }

  lemma CellNetIn(m: Module, blocks: seq<Block>, remaps: seq<Remap>, nexts: seq<nat>, i: nat, n: nat)
    requires Composed(m, blocks, remaps, nexts) && i < |blocks| && OnCell(blocks[i].body, n)
    ensures n in remaps[i]
  {
    hide Composed;
    var body := blocks[i].body;
    var x, p :| x in body.cells && p in body.cells[x].conns && Net(n) in body.cells[x].conns[p];
    var j :| 0 <= j < |body.cells[x].conns[p]| && body.cells[x].conns[p][j] == Net(n);
    InRemap(m, blocks, remaps, nexts, i, x, p, j);
  }

  lemma DoubleUnfit(c: Cell, body: Module, remap: Remap, u: Valuation, n: nat, g: nat, name: Name, k: int, h: nat, other: Name, l: int)
    requires Joins(c, body, n, g, name, k) && Joins(c, body, n, h, other, l) && u(g) != u(h)
    ensures Unfit(c, body, remap, u)
  {
    hide SeesAlike;
    forall w: Valuation ensures !Bind(c, body, u, w) {
      assert Wired(c, body, name, k) && Wired(c, body, other, l);
    }
  }

  // A block net on two glue nets: one of them is an output that no cell drives.
  lemma DoubleLost(m: Module, blocks: seq<Block>, remaps: seq<Remap>, nexts: seq<nat>, rank: nat -> nat, i: nat,
                   n: nat, g: nat, name: Name, k: int, h: nat, other: Name, l: int)
    requires Composed(m, blocks, remaps, nexts) && HierRanked(m, blocks, remaps, rank) && i < |blocks| && g != h
    requires Joins(m.cells[blocks[i].inst], blocks[i].body, n, g, name, k) && Joins(m.cells[blocks[i].inst], blocks[i].body, n, h, other, l)
    requires blocks[i].body.ports[other].dir.Output?
    requires forall x, p, j: nat :: Drives(blocks[i].body, CellPin(x, p, j), n) ==> !(n in remaps[i] && remaps[i][n] == h)
    ensures !FlatKeeps(m, blocks, remaps)
  {
    var c, body, flat := m.cells[blocks[i].inst], blocks[i].body, Flat(m, blocks, remaps, |blocks|);
    assert rank(g) == rank(h);
    GlueFloats(m, blocks, remaps, nexts, i, other, l, h);
    FlatSingle(m, blocks, remaps, nexts);
    FloatsApart(NoLib(), flat, NoInputs(), NoState(), rank, h, g);
    var value := !FloatFlat(m, blocks, remaps, rank, h, false)(g);
    assert FloatFlat(m, blocks, remaps, rank, h, value)(g) == !value;
    hide FlatKeeps, HierRanked, Composed, FloatFlat, Driven, Flat, Unfit, Joins, Floated;
    FloatFits(m, blocks, remaps, nexts, rank, h, value, i);
    DoubleUnfit(c, body, remaps[i], FloatFlat(m, blocks, remaps, rank, h, value), n, g, name, k, h, other, l);
  }

  // Of two glue nets at one block net, the one to lose its driver.
  lemma DoubleEither(m: Module, blocks: seq<Block>, remaps: seq<Remap>, nexts: seq<nat>, rank: nat -> nat, i: nat,
                     n: nat, g: nat, name: Name, k: int, h: nat, other: Name, l: int)
    requires Composed(m, blocks, remaps, nexts) && HierRanked(m, blocks, remaps, rank) && i < |blocks| && g != h
    requires Joins(m.cells[blocks[i].inst], blocks[i].body, n, g, name, k) && Joins(m.cells[blocks[i].inst], blocks[i].body, n, h, other, l)
    ensures !FlatKeeps(m, blocks, remaps)
  {
    var c, body := m.cells[blocks[i].inst], blocks[i].body;
    OneInput(c, body, n, g, name, k, h, other, l);
    hide FlatKeeps, HierRanked, Joins, Numbered, SingleDriver, Drives;
    if body.ports[name].dir.Input? {
      DoubleLost(m, blocks, remaps, nexts, rank, i, n, g, name, k, h, other, l);
    } else if body.ports[other].dir.Input? {
      DoubleLost(m, blocks, remaps, nexts, rank, i, n, h, other, l, g, name, k);
    } else if n in remaps[i] && remaps[i][n] == h {
      DoubleLost(m, blocks, remaps, nexts, rank, i, n, h, other, l, g, name, k);
    } else {
      DoubleLost(m, blocks, remaps, nexts, rank, i, n, g, name, k, h, other, l);
    }
  }

  // A net that an input port drives is on no other input and on no cell output.
  lemma OneInput(c: Cell, body: Module, n: nat, g: nat, name: Name, k: int, h: nat, other: Name, l: int)
    requires SingleDriver(body) && Joins(c, body, n, g, name, k) && Joins(c, body, n, h, other, l) && g != h
    ensures body.ports[name].dir.Input? ==> body.ports[other].dir.Output?
    ensures body.ports[name].dir.Input? || body.ports[other].dir.Input? ==> forall x, p, j: nat :: !Drives(body, CellPin(x, p, j), n)
  {
    assert body.ports[name].dir.Input? ==> Drives(body, PortBit(name, k), n);
    assert body.ports[other].dir.Input? ==> Drives(body, PortBit(other, l), n);
  }

  lemma BadWiringLost(m: Module, blocks: seq<Block>, remaps: seq<Remap>, nexts: seq<nat>, rank: nat -> nat, i: nat)
    requires Composed(m, blocks, remaps, nexts) && HierRanked(m, blocks, remaps, rank) && i < |blocks|
    requires !KeepsWiring(m.cells[blocks[i].inst], blocks[i].body)
    ensures !FlatKeeps(m, blocks, remaps)
  {
    var c, body := m.cells[blocks[i].inst], blocks[i].body;
    assert SingleDriver(body);
    hide FlatKeeps, HierRanked, Composed, SingleDriver, Tie, Joins;
    if name, k :| Constant(c, body, name, k) {
      ConstantLost(m, blocks, remaps, nexts, rank, i, name, k);
    } else if n: nat :| !JoinsOnce(c, body, n) {
      var g: nat, h: nat, name, k, other, l :| Joins(c, body, n, g, name, k) && Joins(c, body, n, h, other, l) && g != h;
      DoubleEither(m, blocks, remaps, nexts, rank, i, n, g, name, k, h, other, l);
    } else {
      var n: nat, name, k, x :| Tie(c, body, n, name, k, x) && !IdleTie(c, body, n);
      TiedUndriven(c, body, n, name, k, x);
      if Joined(c, body, n) {
        var h: nat, other, l :| Joins(c, body, n, h, other, l);
        TiedOutLost(m, blocks, remaps, nexts, rank, i, n, name, k, x, h, other, l);
      } else {
        TiedReadLost(m, blocks, remaps, nexts, rank, i, n, name, k, x);
      }
    }
  }

  /** Flattening any number of blocks keeps meaning, net for net, exactly when every
      instance's wiring does: no read constant input, no constant output, no block
      net on two glue nets. */
  lemma FlatExact(m: Module, blocks: seq<Block>, remaps: seq<Remap>, nexts: seq<nat>, rank: nat -> nat)
    requires Composed(m, blocks, remaps, nexts) && HierRanked(m, blocks, remaps, rank)
    ensures FlatKeeps(m, blocks, remaps) <==> WellWired(m, blocks)
  {
    assert forall i :: 0 <= i < |blocks| ==> blocks[i].inst in m.cells;
    hide HierRanked, KeepsWiring, Settled, Flat, Explains;
    if WellWired(m, blocks) {
      forall lib: Library, env: Inputs, st: State, u: Valuation | Settled(lib, Flat(m, blocks, remaps, |blocks|), NoFault, env, st, u)
        ensures Explained(lib, m, blocks, remaps, env, st, u)
      {
        var ws := FlatSettledBack(lib, m, blocks, remaps, nexts, env, st, u);
      }
    } else {
      hide FlatKeeps, Composed;
      var i :| 0 <= i < |blocks| && !KeepsWiring(m.cells[blocks[i].inst], blocks[i].body);
      BadWiringLost(m, blocks, remaps, nexts, rank, i);
    }
  }
}
