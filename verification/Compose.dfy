/** Flattening blocks into SoC glue (faultflow/project/assemble.py): each block's
    cells are spliced in with their nets renumbered, and the instance removed. */
module Compose {
  import opened Netlist

  /* ---- renumbering ---- */

  type Remap = map<nat, nat>

  function MapNet(remap: Remap, n: nat): nat { if n in remap then remap[n] else n }

  function MapBit(b: Bit, remap: Remap): Bit { if b.Net? then Net(MapNet(remap, b.id)) else b }

  function MapBits(bits: seq<Bit>, remap: Remap): (r: seq<Bit>)
    ensures |r| == |bits|
  {
    seq(|bits|, i requires 0 <= i < |bits| => MapBit(bits[i], remap))
  }

  function MapCell(c: Cell, remap: Remap): Cell
  {
    c.(conns := map p | p in c.conns :: MapBits(c.conns[p], remap))
  }

  // The block's own valuation that a flat valuation stands for.
  function Inward(u: Valuation, remap: Remap): Valuation { (n: nat) => u(MapNet(remap, n)) }

  lemma InwardIs(u: Valuation, remap: Remap, n: nat)
    ensures Inward(u, remap)(n) == if n in remap then u(remap[n]) else u(n)
  {
    var w := Inward(u, remap);
    assert w(n) == u(MapNet(remap, n));
  }

  lemma BitsInward(u: Valuation, bits: seq<Bit>, remap: Remap)
    ensures BitsVal(u, MapBits(bits, remap)) == BitsVal(Inward(u, remap), bits)
  {
    assert forall i :: 0 <= i < |bits| ==> BitVal(u, MapBit(bits[i], remap)) == BitVal(Inward(u, remap), bits[i]);
  }

  lemma CellInward(lib: Library, u: Valuation, c: Cell, remap: Remap)
    ensures Ins(u, MapCell(c, remap)) == Ins(Inward(u, remap), c)
    ensures forall p :: PinVal(u, MapCell(c, remap), p) == PinVal(Inward(u, remap), c, p)
    ensures forall p, i: nat, s :: OutVal(lib, MapCell(c, remap), p, i, s, u) == OutVal(lib, c, p, i, s, Inward(u, remap))
    ensures forall s :: NextVal(MapCell(c, remap), s, u) == NextVal(c, s, Inward(u, remap))
  {
    forall p | p in c.conns ensures BitsVal(u, MapBits(c.conns[p], remap)) == BitsVal(Inward(u, remap), c.conns[p]) {
      BitsInward(u, c.conns[p], remap);
    }
  }

  /** A renumbered cell asks of a valuation what the cell asks of its inward reading. */
  lemma CellOkInward(lib: Library, c: Cell, s: bool, u: Valuation, remap: Remap)
    ensures CellOk(lib, NoFault, MapCell(c, remap), s, u) <==> CellOk(lib, NoFault, c, s, Inward(u, remap))
  {
    CellInward(lib, u, c, remap);
    hide OutVal;
    var c', w := MapCell(c, remap), Inward(u, remap);
    assert forall p, i :: p in c.conns && 0 <= i < |c.conns[p]| ==> c'.conns[p][i] == MapBit(c.conns[p][i], remap);
  }

  /* ---- the hierarchical design ---- */

  datatype Block = Block(inst: Name, body: Module)

  // The glue nets at a block's port, by the instance's connections.
  function PortConns(c: Cell, name: Name): seq<Bit>
  {
    if Named(name) in c.conns then c.conns[Named(name)] else []
  }

  // Bit i of a port is wired at the instance.
  predicate Wired(c: Cell, body: Module, name: Name, i: int)
  {
    name in body.ports && 0 <= i < |body.ports[name].bits| && i < |PortConns(c, name)|
  }

  // Across the boundary an input carries the glue's value in, an output the block's out.
  ghost predicate Bind(c: Cell, body: Module, v: Valuation, w: Valuation)
  {
    forall name, i :: Wired(c, body, name, i) ==>
      var inner, outer := body.ports[name].bits[i], PortConns(c, name)[i];
      if body.ports[name].dir.Input? then inner.Net? ==> w(inner.id) == BitVal(v, outer)
      else outer.Net? ==> v(outer.id) == BitVal(w, inner)
  }

  function InnerState(st: State, inst: Name): State { (x: Name) => st(Made(Inside(inst), x)) }

  ghost predicate BodyOk(lib: Library, b: Block, st: State, w: Valuation)
  {
    forall x :: x in b.body.cells ==> CellOk(lib, NoFault, b.body.cells[x], InnerState(st, b.inst)(x), w)
  }

  ghost predicate IsBlock(blocks: seq<Block>, x: Name) { exists i :: 0 <= i < |blocks| && blocks[i].inst == x }

  // The top module, its block instances left open.
  ghost predicate TopOk(lib: Library, m: Module, blocks: seq<Block>, env: Inputs, st: State, v: Valuation)
  {
    && (forall name :: name in m.ports ==> PortOk(NoFault, env, name, m.ports[name], v))
    && (forall x :: x in m.cells && !IsBlock(blocks, x) ==> CellOk(lib, NoFault, m.cells[x], st(x), v))
  }

  // A settled hierarchical design: one valuation for the top, one for each block.
  ghost predicate HierSettled(lib: Library, m: Module, blocks: seq<Block>, env: Inputs, st: State, v: Valuation, ws: seq<Valuation>)
  {
    TopOk(lib, m, blocks, env, st, v) && BlocksOk(lib, m, blocks, st, v, ws)
  }

  ghost predicate BlocksOk(lib: Library, m: Module, blocks: seq<Block>, st: State, v: Valuation, ws: seq<Valuation>)
  {
    |ws| == |blocks| && forall i :: 0 <= i < |blocks| ==> BlockOk(lib, m, blocks[i], st, v, ws[i])
  }

  ghost predicate BlockOk(lib: Library, m: Module, b: Block, st: State, v: Valuation, w: Valuation)
  {
    b.inst in m.cells && BodyOk(lib, b, st, w) && Bind(m.cells[b.inst], b.body, v, w)
  }

  /* ---- one block ---- */

  // A net occurs in the block.
  ghost predicate InBody(body: Module, n: nat)
  {
    || (exists name :: name in body.ports && Net(n) in body.ports[name].bits)
    || (exists x, p :: x in body.cells && p in body.cells[x].conns && Net(n) in body.cells[x].conns[p])
  }

  // A wired port bit that joins block net n to glue net g.
  ghost predicate Joins(c: Cell, body: Module, n: nat, g: nat, name: Name, i: int)
  {
    Wired(c, body, name, i) && body.ports[name].bits[i] == Net(n) && PortConns(c, name)[i] == Net(g)
  }

  // Port nets take a glue net they are wired to; every other net a fresh id of its own.
  ghost predicate RemapOk(c: Cell, body: Module, remap: Remap, next: nat, next': nat)
  {
    && next <= next'
    && (forall n :: n in remap <==> InBody(body, n))
    && (forall n :: n in remap ==>
          || (exists name, i :: Joins(c, body, n, remap[n], name, i))
          || (next <= remap[n] < next' && forall g, name, i :: !Joins(c, body, n, g, name, i)))
    && (forall a, b :: a in remap && b in remap && remap[a] == remap[b] >= next ==> a == b)
  }

  function Splice(m: Module, b: Block, remap: Remap): Module
  {
    Module(m.ports, (map x | x in m.cells && x != b.inst :: m.cells[x]) + SplicedCells(b, remap))
  }

  function SplicedCells(b: Block, remap: Remap): map<Name, Cell>
  {
    map x | x in Spliced(b) :: MapCell(b.body.cells[x.base], remap)
  }

  // The names of a block's cells once flat.
  function Spliced(b: Block): (r: set<Name>)
    ensures forall x :: x in r <==> x.Made? && x.tag == Inside(b.inst) && x.base in b.body.cells
  {
    set x | x in b.body.cells :: Made(Inside(b.inst), x)
  }

  // A block that can be spliced: its instance is there, its cell names are free.
  ghost predicate SpliceReady(m: Module, b: Block, rest: seq<Block>, remap: Remap, next: nat, next': nat)
  {
    && Below(m, next) && b.inst in m.cells && !IsBlock(rest, b.inst)
    && (forall x :: x in m.cells ==> !(x.Made? && x.tag == Inside(b.inst)))
    && (forall i :: 0 <= i < |rest| ==> !(rest[i].inst.Made? && rest[i].inst.tag == Inside(b.inst)))
    && RemapOk(m.cells[b.inst], b.body, remap, next, next')
  }

  lemma SpliceCells(m: Module, b: Block, rest: seq<Block>, remap: Remap, next: nat, next': nat)
    requires SpliceReady(m, b, rest, remap, next, next')
    ensures var m' := Splice(m, b, remap);
            && m'.ports == m.ports
            && (forall x :: x in m.cells && x != b.inst ==> x in m'.cells && m'.cells[x] == m.cells[x])
            && (forall x :: x in b.body.cells ==> Made(Inside(b.inst), x) in m'.cells
                                                  && m'.cells[Made(Inside(b.inst), x)] == MapCell(b.body.cells[x], remap))
            && (forall x :: x in m'.cells && x !in Spliced(b) ==> x in m.cells && x != b.inst)
  {
    hide RemapOk, MapCell;
    var m' := Splice(m, b, remap);
    forall x | x in b.body.cells
      ensures Made(Inside(b.inst), x) in m'.cells && m'.cells[Made(Inside(b.inst), x)] == MapCell(b.body.cells[x], remap)
    {
      assert Made(Inside(b.inst), x) in Spliced(b);
    }
  }

  lemma WiredBelow(m: Module, next: nat, inst: Name, body: Module, name: Name, i: int)
    requires Below(m, next) && inst in m.cells && Wired(m.cells[inst], body, name, i)
    ensures PortConns(m.cells[inst], name)[i].Net? ==> PortConns(m.cells[inst], name)[i].id < next
  {
    assert CellBelow(m.cells[inst], next) && BitsBelow(m.cells[inst].conns[Named(name)], next);
  }

  /* ---- from hierarchy to flat ---- */

  ghost predicate FreshFor(remap: Remap, next: nat, n: nat, a: nat) { a in remap && remap[a] == n >= next }

  ghost function OutNet(v: Valuation, w: Valuation, remap: Remap, next: nat, n: nat): bool
  {
    if exists a: nat :: FreshFor(remap, next, n, a) then
      var a: nat :| FreshFor(remap, next, n, a); w(a)
    else v(n)
  }

  // Glue nets keep their value, fresh nets take the block's.
  ghost function Outward(v: Valuation, w: Valuation, remap: Remap, next: nat): Valuation
  {
    (n: nat) => OutNet(v, w, remap, next, n)
  }

  lemma OneFresh(c: Cell, body: Module, remap: Remap, next: nat, next': nat, a: nat, b: nat)
    requires RemapOk(c, body, remap, next, next') && a in remap && b in remap && remap[a] == remap[b] && remap[b] >= next
    ensures a == b
  {}

  lemma OutwardInside(m: Module, b: Block, rest: seq<Block>, remap: Remap, next: nat, next': nat, v: Valuation, w: Valuation, n: nat)
    requires SpliceReady(m, b, rest, remap, next, next') && Bind(m.cells[b.inst], b.body, v, w) && n in remap
    ensures Outward(v, w, remap, next)(remap[n]) == w(n)
  {
    var c := m.cells[b.inst];
    if remap[n] >= next {
      assert FreshFor(remap, next, remap[n], n);
      forall a: nat | FreshFor(remap, next, remap[n], a) ensures a == n {
        OneFresh(c, b.body, remap, next, next', a, n);
      }
    } else {
      var name, i :| Joins(c, b.body, n, remap[n], name, i);
      assert Wired(c, b.body, name, i);
      assert forall a: nat :: !FreshFor(remap, next, remap[n], a);
    }
  }

  lemma OutwardAgrees(v: Valuation, w: Valuation, remap: Remap, next: nat)
    ensures AgreeBelow(v, Outward(v, w, remap, next), next)
  {}

  lemma InBodyCell(body: Module, x: Name, p: Pin, i: int)
    requires x in body.cells && p in body.cells[x].conns && 0 <= i < |body.cells[x].conns[p]| && body.cells[x].conns[p][i].Net?
    ensures InBody(body, body.cells[x].conns[p][i].id)
  {}

  lemma BodyCellOut(lib: Library, m: Module, b: Block, rest: seq<Block>, remap: Remap, next: nat, next': nat,
                    v: Valuation, w: Valuation, x: Name, s: bool)
    requires SpliceReady(m, b, rest, remap, next, next') && Bind(m.cells[b.inst], b.body, v, w) && x in b.body.cells
    ensures var u, c := Outward(v, w, remap, next), b.body.cells[x];
            && (CellOk(lib, NoFault, MapCell(c, remap), s, u) <==> CellOk(lib, NoFault, c, s, w))
            && NextVal(MapCell(c, remap), s, u) == NextVal(c, s, w)
  {
    var u, c := Outward(v, w, remap, next), b.body.cells[x];
    assert AgreeOn(c, Inward(u, remap), w) by {
      hide Outward, OutNet;
      forall p, i | p in c.conns && 0 <= i < |c.conns[p]| ensures BitVal(Inward(u, remap), c.conns[p][i]) == BitVal(w, c.conns[p][i]) {
        if c.conns[p][i].Net? {
          var n := c.conns[p][i].id;
          InBodyCell(b.body, x, p, i);
          assert n in remap;
          OutwardInside(m, b, rest, remap, next, next', v, w, n);
          InwardIs(u, remap, n);
        }
      }
    }
    hide AgreeOn, CellOk, NextVal, Outward, SpliceReady, Bind;
    CellOkInward(lib, c, s, u, remap);
    CellInward(lib, u, c, remap);
    CellOkAgree(lib, NoFault, c, s, Inward(u, remap), w);
  }

  lemma BindAgrees(m: Module, next: nat, inst: Name, body: Module, v: Valuation, u: Valuation, w: Valuation)
    requires Below(m, next) && inst in m.cells && AgreeBelow(v, u, next)
    ensures Bind(m.cells[inst], body, v, w) <==> Bind(m.cells[inst], body, u, w)
  {
    forall name, i | Wired(m.cells[inst], body, name, i)
      ensures BitVal(v, PortConns(m.cells[inst], name)[i]) == BitVal(u, PortConns(m.cells[inst], name)[i])
    {
      WiredBelow(m, next, inst, body, name, i);
    }
    hide Wired, PortConns, Below;
  }

  lemma StillBlock(b: Block, rest: seq<Block>, x: Name)
    ensures IsBlock([b] + rest, x) <==> x == b.inst || IsBlock(rest, x)
  {
    var all := [b] + rest;
    assert all[0] == b && forall i :: 0 <= i < |rest| ==> all[i + 1] == rest[i];
    if IsBlock(rest, x) {
      var i :| 0 <= i < |rest| && rest[i].inst == x;
      assert all[i + 1].inst == x;
    }
  }

  /** Flattening a block keeps every settled hierarchical design. */
  lemma SpliceForth(lib: Library, m: Module, b: Block, rest: seq<Block>, remap: Remap, next: nat, next': nat,
                    env: Inputs, st: State, v: Valuation, w: Valuation, ws: seq<Valuation>)
    requires SpliceReady(m, b, rest, remap, next, next')
    requires HierSettled(lib, m, [b] + rest, env, st, v, [w] + ws)
    ensures HierSettled(lib, Splice(m, b, remap), rest, env, st, Outward(v, w, remap, next), ws)
  {
    var m', u := Splice(m, b, remap), Outward(v, w, remap, next);
    HierHead(lib, m, b, rest, env, st, v, w, ws);
    TopForth(lib, m, b, rest, remap, next, next', env, st, v, w);
    OutwardAgrees(v, w, remap, next);
    RestForth(lib, m, b, rest, remap, next, next', st, v, u, ws);
  }

  // A hierarchical design taken apart: the top, the first block, the others.
  lemma HierHead(lib: Library, m: Module, b: Block, rest: seq<Block>, env: Inputs, st: State, v: Valuation, w: Valuation, ws: seq<Valuation>)
    ensures HierSettled(lib, m, [b] + rest, env, st, v, [w] + ws) <==>
              && TopOk(lib, m, [b] + rest, env, st, v) && b.inst in m.cells && BodyOk(lib, b, st, w)
              && Bind(m.cells[b.inst], b.body, v, w) && BlocksOk(lib, m, rest, st, v, ws)
  {
    hide TopOk, BodyOk, Bind;
    var all, vs := [b] + rest, [w] + ws;
    assert all[0] == b && vs[0] == w;
    assert forall i :: 0 <= i < |rest| ==> all[i + 1] == rest[i];
    assert forall i :: 0 <= i < |ws| ==> vs[i + 1] == ws[i];
    if BlocksOk(lib, m, rest, st, v, ws) {
      forall i | 1 <= i < |all| ensures all[i] == rest[i - 1] && vs[i] == ws[i - 1] {}
    }
  }

  lemma RestForth(lib: Library, m: Module, b: Block, rest: seq<Block>, remap: Remap, next: nat, next': nat,
                  st: State, v: Valuation, u: Valuation, ws: seq<Valuation>)
    requires SpliceReady(m, b, rest, remap, next, next') && AgreeBelow(v, u, next)
    ensures BlocksOk(lib, m, rest, st, v, ws) <==> BlocksOk(lib, Splice(m, b, remap), rest, st, u, ws)
  {
    SpliceCells(m, b, rest, remap, next, next');
    hide Bind, BodyOk, RemapOk, Splice;
    assert Below(m, next);
    hide Below;
    forall i | 0 <= i < |rest| && i < |ws|
      ensures BlockOk(lib, m, rest[i], st, v, ws[i]) <==> BlockOk(lib, Splice(m, b, remap), rest[i], st, u, ws[i])
    {
      assert rest[i].inst != b.inst by { assert !IsBlock(rest, b.inst); }
      if rest[i].inst in m.cells {
        BindAgrees(m, next, rest[i].inst, rest[i].body, v, u, ws[i]);
      }
    }
    hide BlockOk;
  }

  lemma TopForth(lib: Library, m: Module, b: Block, rest: seq<Block>, remap: Remap, next: nat, next': nat,
                 env: Inputs, st: State, v: Valuation, w: Valuation)
    requires SpliceReady(m, b, rest, remap, next, next') && Bind(m.cells[b.inst], b.body, v, w) && BodyOk(lib, b, st, w)
    requires TopOk(lib, m, [b] + rest, env, st, v)
    ensures TopOk(lib, Splice(m, b, remap), rest, env, st, Outward(v, w, remap, next))
  {
    var m', u := Splice(m, b, remap), Outward(v, w, remap, next);
    SpliceCells(m, b, rest, remap, next, next');
    OutwardAgrees(v, w, remap, next);
    hide Splice, Outward, RemapOk, IsBlock;
    forall name | name in m'.ports ensures PortOk(NoFault, env, name, m'.ports[name], u) {
      assert PortOk(NoFault, env, name, m.ports[name], v);
      assert BitsBelow(m.ports[name].bits, next);
    }
    hide PortOk;
    forall x | x in m'.cells && !IsBlock(rest, x) ensures CellOk(lib, NoFault, m'.cells[x], st(x), u) {
      if x in Spliced(b) {
        assert x == Made(Inside(b.inst), x.base);
        BodyCellOut(lib, m, b, rest, remap, next, next', v, w, x.base, st(x));
        assert InnerState(st, b.inst)(x.base) == st(x);
      } else {
        StillBlock(b, rest, x);
        GlueAgrees(lib, m, next, x, st(x), v, u);
      }
    }
  }

  lemma GlueAgrees(lib: Library, m: Module, next: nat, x: Name, s: bool, v: Valuation, u: Valuation)
    requires Below(m, next) && x in m.cells && AgreeBelow(v, u, next)
    ensures CellOk(lib, NoFault, m.cells[x], s, v) <==> CellOk(lib, NoFault, m.cells[x], s, u)
    ensures NextVal(m.cells[x], s, v) == NextVal(m.cells[x], s, u)
  {
    var c := m.cells[x];
    assert CellBelow(c, next);
    assert AgreeOn(c, v, u) by {
      forall p, i | p in c.conns && 0 <= i < |c.conns[p]| ensures BitVal(v, c.conns[p][i]) == BitVal(u, c.conns[p][i]) {
        assert BitsBelow(c.conns[p], next);
      }
    }
    CellOkAgree(lib, NoFault, c, s, v, u);
  }

  /* ---- from flat to hierarchy ---- */

  // A wired input bit that the glue ties to a constant.
  ghost predicate Tie(c: Cell, body: Module, n: nat, name: Name, i: int, value: bool)
  {
    Wired(c, body, name, i) && body.ports[name].dir.Input? && body.ports[name].bits[i] == Net(n) && PortConns(c, name)[i] == Lit(value)
  }

  ghost predicate OnCell(body: Module, n: nat)
  {
    exists x, p :: x in body.cells && p in body.cells[x].conns && Net(n) in body.cells[x].conns[p]
  }

  ghost predicate Joined(c: Cell, body: Module, n: nat) { exists g: nat, name, i :: Joins(c, body, n, g, name, i) }

  // A tied net that nothing reads: no cell, and no other port of the instance.
  ghost predicate IdleTie(c: Cell, body: Module, n: nat)
  {
    && !OnCell(body, n) && !Joined(c, body, n)
    && (forall name, i, x, other, k, y :: Tie(c, body, n, name, i, x) && Tie(c, body, n, other, k, y) ==> x == y)
  }

  // A wired output bit that is a constant inside and a net outside.
  ghost predicate Constant(c: Cell, body: Module, name: Name, i: int)
  {
    Wired(c, body, name, i) && body.ports[name].dir.Output? && PortConns(c, name)[i].Net? && body.ports[name].bits[i].Lit?
  }

  ghost predicate JoinsOnce(c: Cell, body: Module, n: nat)
  {
    forall g, h, name, i, other, k :: Joins(c, body, n, g, name, i) && Joins(c, body, n, h, other, k) ==> g == h
  }

  // The wiring that flattening keeps: constants tied only where nothing looks, no
  // constant outputs, and no block net on two glue nets.
  ghost predicate KeepsWiring(c: Cell, body: Module)
  {
    && (forall n, name, i, x :: Tie(c, body, n, name, i, x) ==> IdleTie(c, body, n))
    && (forall name, i :: !Constant(c, body, name, i))
    && (forall n: nat :: JoinsOnce(c, body, n))
  }

  // The block's own valuation: read inward, with tied nets at their constant.
  ghost function TiedNet(c: Cell, body: Module, u: Valuation, remap: Remap, n: nat): bool
  {
    if exists name, i, x :: Tie(c, body, n, name, i, x) then
      var name, i, x :| Tie(c, body, n, name, i, x); x
    else Inward(u, remap)(n)
  }

  ghost function TiedInward(c: Cell, body: Module, u: Valuation, remap: Remap): Valuation
  {
    (n: nat) => TiedNet(c, body, u, remap, n)
  }

  lemma TiedAt(c: Cell, body: Module, u: Valuation, remap: Remap, n: nat, name: Name, i: int, x: bool)
    requires Tie(c, body, n, name, i, x) && IdleTie(c, body, n)
    ensures TiedInward(c, body, u, remap)(n) == x
  {
    assert TiedInward(c, body, u, remap)(n) == TiedNet(c, body, u, remap, n);
  }

  lemma UntiedAt(c: Cell, body: Module, u: Valuation, remap: Remap, n: nat)
    requires forall name, i, x :: !Tie(c, body, n, name, i, x)
    ensures TiedInward(c, body, u, remap)(n) == Inward(u, remap)(n)
  {
    assert TiedInward(c, body, u, remap)(n) == TiedNet(c, body, u, remap, n);
  }

  // The block's cells see what the flat valuation says.
  ghost predicate SeesAlike(body: Module, remap: Remap, u: Valuation, w: Valuation)
  {
    forall n: nat :: OnCell(body, n) ==> w(n) == Inward(u, remap)(n)
  }

  lemma TiedSees(c: Cell, body: Module, u: Valuation, remap: Remap)
    requires KeepsWiring(c, body)
    ensures SeesAlike(body, remap, u, TiedInward(c, body, u, remap))
  {
    hide TiedInward, Tie, Inward;
    forall n: nat | OnCell(body, n) ensures TiedInward(c, body, u, remap)(n) == Inward(u, remap)(n) {
      UntiedAt(c, body, u, remap, n);
    }
  }

  lemma JoinedNet(c: Cell, body: Module, remap: Remap, next: nat, next': nat, u: Valuation, n: nat, g: nat, name: Name, i: int)
    requires RemapOk(c, body, remap, next, next') && KeepsWiring(c, body) && Joins(c, body, n, g, name, i)
    ensures TiedInward(c, body, u, remap)(n) == u(g)
  {
    assert InBody(body, n) by { assert body.ports[name].bits[i] in body.ports[name].bits; }
    assert exists other, k :: Joins(c, body, n, remap[n], other, k);
    assert remap[n] == g by { assert JoinsOnce(c, body, n); }
    assert Joined(c, body, n);
    hide Joins, RemapOk;
    UntiedAt(c, body, u, remap, n);
    InwardIs(u, remap, n);
  }

  lemma BindBack(c: Cell, body: Module, remap: Remap, next: nat, next': nat, u: Valuation)
    requires RemapOk(c, body, remap, next, next') && KeepsWiring(c, body)
    ensures Bind(c, body, u, TiedInward(c, body, u, remap))
  {
    var w := TiedInward(c, body, u, remap);
    hide TiedInward, RemapOk;
    forall name, i | Wired(c, body, name, i)
      ensures var inner, outer := body.ports[name].bits[i], PortConns(c, name)[i];
              if body.ports[name].dir.Input? then inner.Net? ==> w(inner.id) == BitVal(u, outer)
              else outer.Net? ==> u(outer.id) == BitVal(w, inner)
    {
      var inner, outer := body.ports[name].bits[i], PortConns(c, name)[i];
      assert !Constant(c, body, name, i);
      if inner.Net? && outer.Net? {
        JoinedNet(c, body, remap, next, next', u, inner.id, outer.id, name, i);
      } else if inner.Net? && body.ports[name].dir.Input? {
        assert Tie(c, body, inner.id, name, i, outer.value);
        TiedAt(c, body, u, remap, inner.id, name, i, outer.value);
      }
    }
    hide KeepsWiring, Wired, PortConns;
  }

  lemma SeenOnCell(lib: Library, body: Module, remap: Remap, u: Valuation, w: Valuation, x: Name, s: bool)
    requires SeesAlike(body, remap, u, w) && x in body.cells
    ensures CellOk(lib, NoFault, MapCell(body.cells[x], remap), s, u) <==> CellOk(lib, NoFault, body.cells[x], s, w)
    ensures NextVal(MapCell(body.cells[x], remap), s, u) == NextVal(body.cells[x], s, w)
  {
    var c := body.cells[x];
    CellOkInward(lib, c, s, u, remap);
    CellInward(lib, u, c, remap);
    hide Inward, CellOk, NextVal, MapCell;
    assert AgreeOn(c, Inward(u, remap), w) by {
      forall p, i | p in c.conns && 0 <= i < |c.conns[p]| ensures BitVal(Inward(u, remap), c.conns[p][i]) == BitVal(w, c.conns[p][i]) {
        if c.conns[p][i].Net? {
          assert c.conns[p][i] in c.conns[p];
          assert OnCell(body, c.conns[p][i].id);
        }
      }
    }
    hide AgreeOn;
    CellOkAgree(lib, NoFault, c, s, Inward(u, remap), w);
  }

  /** With such wiring, every settled valuation of the flat design is a settled
      hierarchical design read inward. */
  lemma SpliceBack(lib: Library, m: Module, b: Block, rest: seq<Block>, remap: Remap, next: nat, next': nat,
                   env: Inputs, st: State, u: Valuation, ws: seq<Valuation>)
    requires SpliceReady(m, b, rest, remap, next, next') && KeepsWiring(m.cells[b.inst], b.body)
    requires HierSettled(lib, Splice(m, b, remap), rest, env, st, u, ws)
    ensures HierSettled(lib, m, [b] + rest, env, st, u, [TiedInward(m.cells[b.inst], b.body, u, remap)] + ws)
    ensures SeesAlike(b.body, remap, u, TiedInward(m.cells[b.inst], b.body, u, remap))
  {
    var w := TiedInward(m.cells[b.inst], b.body, u, remap);
    BindBack(m.cells[b.inst], b.body, remap, next, next', u);
    TiedSees(m.cells[b.inst], b.body, u, remap);
    SpliceCells(m, b, rest, remap, next, next');
    RestForth(lib, m, b, rest, remap, next, next', st, u, u, ws);
    var m' := Splice(m, b, remap);
    hide Bind, KeepsWiring, RemapOk, Splice, BlocksOk, Below, TiedInward, PortOk, SeesAlike, MapCell;
    forall x | x in b.body.cells ensures CellOk(lib, NoFault, b.body.cells[x], InnerState(st, b.inst)(x), w) {
      var flat := Made(Inside(b.inst), x);
      assert !IsBlock(rest, flat);
      SeenOnCell(lib, b.body, remap, u, w, x, st(flat));
    }
    forall x | x in m.cells && !IsBlock([b] + rest, x) ensures CellOk(lib, NoFault, m.cells[x], st(x), u) {
      StillBlock(b, rest, x);
    }
    HierHead(lib, m, b, rest, env, st, u, w, ws);
  }

  /* ---- next states ---- */

  ghost predicate InBlock(blocks: seq<Block>, i: int, name: Name)
  {
    0 <= i < |blocks| && name.Made? && name.tag == Inside(blocks[i].inst) && name.base in blocks[i].body.cells
  }

  // The state a cell of the hierarchical design takes at the clock edge.
  ghost predicate NextIs(m: Module, blocks: seq<Block>, st: State, v: Valuation, ws: seq<Valuation>, name: Name, x: bool)
    requires |ws| == |blocks|
  {
    || (exists i :: InBlock(blocks, i, name) && x == NextVal(blocks[i].body.cells[name.base], st(name), ws[i]))
    || (name in m.cells && !IsBlock(blocks, name) && x == NextVal(m.cells[name], st(name), v))
  }

  // Where a next state comes from: a block, or (below 0) the top.
  lemma NextCases(m: Module, blocks: seq<Block>, st: State, v: Valuation, ws: seq<Valuation>, name: Name, x: bool) returns (i: int)
    requires |ws| == |blocks| && NextIs(m, blocks, st, v, ws, name, x)
    ensures i >= 0 ==> InBlock(blocks, i, name) && x == NextVal(blocks[i].body.cells[name.base], st(name), ws[i])
    ensures i < 0 ==> name in m.cells && !IsBlock(blocks, name) && x == NextVal(m.cells[name], st(name), v)
  {
    hide NextVal, IsBlock;
    if k :| InBlock(blocks, k, name) && x == NextVal(blocks[k].body.cells[name.base], st(name), ws[k]) {
      i := k;
    } else {
      i := -1;
    }
  }

  lemma NextTail(m: Module, b: Block, rest: seq<Block>, st: State, v: Valuation, w: Valuation, ws: seq<Valuation>, name: Name, x: bool, i: int)
    requires |ws| == |rest| && InBlock(rest, i, name) && x == NextVal(rest[i].body.cells[name.base], st(name), ws[i])
    ensures NextIs(m, [b] + rest, st, v, [w] + ws, name, x)
  {
    hide NextVal, IsBlock;
    var blocks, all := [b] + rest, [w] + ws;
    assert blocks[i + 1] == rest[i] && all[i + 1] == ws[i];
    assert InBlock(blocks, i + 1, name);
  }

  lemma NextHead(m: Module, b: Block, rest: seq<Block>, st: State, v: Valuation, w: Valuation, ws: seq<Valuation>, name: Name, x: bool)
    requires |ws| == |rest| && name in Spliced(b) && x == NextVal(b.body.cells[name.base], st(name), w)
    ensures NextIs(m, [b] + rest, st, v, [w] + ws, name, x)
  {
    hide NextVal, IsBlock;
    var blocks, all := [b] + rest, [w] + ws;
    assert blocks[0] == b && all[0] == w;
    assert InBlock(blocks, 0, name);
  }

  lemma NextTop(m: Module, b: Block, rest: seq<Block>, st: State, v: Valuation, w: Valuation, ws: seq<Valuation>, name: Name, x: bool)
    requires |ws| == |rest| && name in m.cells && name != b.inst && !IsBlock(rest, name) && x == NextVal(m.cells[name], st(name), v)
    ensures NextIs(m, [b] + rest, st, v, [w] + ws, name, x)
  {
    StillBlock(b, rest, name);
  }

  // The flat netlist's next states are the hierarchy's.
  lemma NextForth(lib: Library, m: Module, b: Block, rest: seq<Block>, remap: Remap, next: nat, next': nat,
                  st: State, v: Valuation, w: Valuation, ws: seq<Valuation>, name: Name, x: bool)
    requires SpliceReady(m, b, rest, remap, next, next') && Bind(m.cells[b.inst], b.body, v, w) && |ws| == |rest|
    requires NextIs(Splice(m, b, remap), rest, st, Outward(v, w, remap, next), ws, name, x)
    ensures NextIs(m, [b] + rest, st, v, [w] + ws, name, x)
  {
    var m', u := Splice(m, b, remap), Outward(v, w, remap, next);
    SpliceCells(m, b, rest, remap, next, next');
    OutwardAgrees(v, w, remap, next);
    assert Below(m, next);
    hide Splice, Outward, RemapOk, NextVal, SpliceReady, Below, Bind, NextIs, MapCell, InBlock;
    var i := NextCases(m', rest, st, u, ws, name, x);
    if i >= 0 {
      NextTail(m, b, rest, st, v, w, ws, name, x, i);
    } else if name in Spliced(b) {
      BodyCellOut(lib, m, b, rest, remap, next, next', v, w, name.base, st(name));
      NextHead(m, b, rest, st, v, w, ws, name, x);
    } else {
      GlueAgrees(lib, m, next, name, st(name), v, u);
      NextTop(m, b, rest, st, v, w, ws, name, x);
    }
  }

  // And read inward.
  lemma NextBack(lib: Library, m: Module, b: Block, rest: seq<Block>, remap: Remap, next: nat, next': nat,
                 st: State, u: Valuation, w: Valuation, ws: seq<Valuation>, name: Name, x: bool)
    requires SpliceReady(m, b, rest, remap, next, next') && |ws| == |rest| && SeesAlike(b.body, remap, u, w)
    requires NextIs(Splice(m, b, remap), rest, st, u, ws, name, x)
    ensures NextIs(m, [b] + rest, st, u, [w] + ws, name, x)
  {
    SpliceCells(m, b, rest, remap, next, next');
    hide Splice, SeesAlike, RemapOk, NextVal, SpliceReady, MapCell, NextIs, InBlock;
    var i := NextCases(Splice(m, b, remap), rest, st, u, ws, name, x);
    if i >= 0 {
      NextTail(m, b, rest, st, u, w, ws, name, x, i);
    } else if name in Spliced(b) {
      SeenOnCell(lib, b.body, remap, u, w, name.base, st(name));
      NextHead(m, b, rest, st, u, w, ws, name, x);
    } else {
      NextTop(m, b, rest, st, u, w, ws, name, x);
    }
  }
}
