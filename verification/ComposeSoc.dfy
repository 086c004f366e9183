/** A whole SoC flattened, block after block (faultflow/project/assemble.py). */
module ComposeSoc {
  import opened Netlist
  import opened Compose
  import ScanPlan
  import ViewBuilder

  // The netlist once the first n blocks are spliced in.
  function Flat(m: Module, blocks: seq<Block>, remaps: seq<Remap>, n: nat): Module
    requires n <= |blocks| && n <= |remaps|
  {
    if n == 0 then m else Splice(Flat(m, blocks, remaps, n - 1), blocks[n - 1], remaps[n - 1])
  }

  // Each of the first n blocks could be spliced, with its own range of fresh ids.
  ghost predicate Numbered(m: Module, blocks: seq<Block>, remaps: seq<Remap>, nexts: seq<nat>, n: nat)
    requires n <= |blocks| && n <= |remaps| && n < |nexts|
  {
    forall i :: 0 <= i < n ==> SpliceReady(Flat(m, blocks, remaps, i), blocks[i], blocks[i + 1..], remaps[i], nexts[i], nexts[i + 1])
  }

  // Wiring that flattening keeps, at every instance.
  ghost predicate WellWired(m: Module, blocks: seq<Block>)
  {
    forall i :: 0 <= i < |blocks| ==> blocks[i].inst in m.cells && KeepsWiring(m.cells[blocks[i].inst], blocks[i].body)
  }

  lemma Peel<T>(s: seq<T>, i: nat)
    requires i < |s|
    ensures s[i..] == [s[i]] + s[i + 1..]
  {}

  // The valuation a settled hierarchical design gives the netlist with n blocks flat.
  ghost function FlatValues(remaps: seq<Remap>, nexts: seq<nat>, v: Valuation, ws: seq<Valuation>, n: nat): Valuation
    requires n <= |remaps| && n <= |nexts| && n <= |ws|
  {
    if n == 0 then v else Outward(FlatValues(remaps, nexts, v, ws, n - 1), ws[n - 1], remaps[n - 1], nexts[n - 1])
  }

  // Settled with some blocks flat, the top nets unchanged, and with every flop's
  // next state.
  ghost predicate FlatOk(lib: Library, m: Module, blocks: seq<Block>, env: Inputs, st: State, v: Valuation, ws: seq<Valuation>,
                         top: nat, next: nat, flat: Module, rest: seq<Block>, u: Valuation, more: seq<Valuation>)
  {
    && |ws| == |blocks| && |more| == |rest| && top <= next
    && HierSettled(lib, flat, rest, env, st, u, more) && AgreeBelow(v, u, top)
    && (forall name, x :: NextIs(flat, rest, st, u, more, name, x) ==> NextIs(m, blocks, st, v, ws, name, x))
  }

  // After n splices.
  ghost predicate Follows(lib: Library, m: Module, blocks: seq<Block>, remaps: seq<Remap>, nexts: seq<nat>,
                          env: Inputs, st: State, v: Valuation, ws: seq<Valuation>, n: nat)
    requires n <= |blocks| == |ws| && n <= |remaps| && n < |nexts|
  {
    FlatOk(lib, m, blocks, env, st, v, ws, nexts[0], nexts[n], Flat(m, blocks, remaps, n), blocks[n..], FlatValues(remaps, nexts, v, ws, n), ws[n..])
  }

  // One block flattened.
  lemma OneForth(lib: Library, flat: Module, b: Block, rest: seq<Block>, remap: Remap, next: nat, next': nat,
                 env: Inputs, st: State, u: Valuation, w: Valuation, ws: seq<Valuation>)
    requires SpliceReady(flat, b, rest, remap, next, next') && HierSettled(lib, flat, [b] + rest, env, st, u, [w] + ws)
    ensures |ws| == |rest| && HierSettled(lib, Splice(flat, b, remap), rest, env, st, Outward(u, w, remap, next), ws)
    ensures AgreeBelow(u, Outward(u, w, remap, next), next) && next <= next'
    ensures forall name, x :: NextIs(Splice(flat, b, remap), rest, st, Outward(u, w, remap, next), ws, name, x) ==>
                              NextIs(flat, [b] + rest, st, u, [w] + ws, name, x)
  {
    HierSizes(lib, flat, [b] + rest, env, st, u, [w] + ws);
    RangeGrows(flat, b, rest, remap, next, next');
    hide HierSettled, SpliceReady, NextIs, Outward, Splice, Bind, TopOk, BlocksOk, BodyOk;
    HierHead(lib, flat, b, rest, env, st, u, w, ws);
    SpliceForth(lib, flat, b, rest, remap, next, next', env, st, u, w, ws);
    OutwardAgrees(u, w, remap, next);
    forall name, x | NextIs(Splice(flat, b, remap), rest, st, Outward(u, w, remap, next), ws, name, x)
      ensures NextIs(flat, [b] + rest, st, u, [w] + ws, name, x)
    {
      NextForth(lib, flat, b, rest, remap, next, next', st, u, w, ws, name, x);
    }
  }

  lemma FlatOkStep(lib: Library, m: Module, blocks: seq<Block>, env: Inputs, st: State, v: Valuation, ws: seq<Valuation>,
                   top: nat, next: nat, next': nat, flat: Module, b: Block, rest: seq<Block>, remap: Remap, u: Valuation, w: Valuation, more: seq<Valuation>)
    requires SpliceReady(flat, b, rest, remap, next, next')
    requires FlatOk(lib, m, blocks, env, st, v, ws, top, next, flat, [b] + rest, u, [w] + more)
    ensures FlatOk(lib, m, blocks, env, st, v, ws, top, next', Splice(flat, b, remap), rest, Outward(u, w, remap, next), more)
  {
    hide HierSettled, SpliceReady, NextIs, Outward, Splice;
    OneForth(lib, flat, b, rest, remap, next, next', env, st, u, w, more);
  }

  lemma FollowsStep(lib: Library, m: Module, blocks: seq<Block>, remaps: seq<Remap>, nexts: seq<nat>,
                    env: Inputs, st: State, v: Valuation, ws: seq<Valuation>, n: nat)
    requires n < |blocks| == |ws| && n < |remaps| && n + 1 < |nexts| && Numbered(m, blocks, remaps, nexts, n + 1)
    requires Follows(lib, m, blocks, remaps, nexts, env, st, v, ws, n)
    ensures Follows(lib, m, blocks, remaps, nexts, env, st, v, ws, n + 1)
  {
    hide FlatOk, SpliceReady, Outward, Splice;
    var u, flat := FlatValues(remaps, nexts, v, ws, n), Flat(m, blocks, remaps, n);
    assert SpliceReady(flat, blocks[n], blocks[n + 1..], remaps[n], nexts[n], nexts[n + 1]);
    Peel(blocks, n);
    Peel(ws, n);
    FlatOkStep(lib, m, blocks, env, st, v, ws, nexts[0], nexts[n], nexts[n + 1], flat, blocks[n], blocks[n + 1..], remaps[n], u, ws[n], ws[n + 1..]);
  }

  lemma RangeGrows(m: Module, b: Block, rest: seq<Block>, remap: Remap, next: nat, next': nat)
    requires SpliceReady(m, b, rest, remap, next, next')
    ensures next <= next'
  {}

  /** Every settled hierarchical design settles the flat netlist, and each flop,
      in glue or block, takes the same next state. */
  lemma {:induction false} FlatForth(lib: Library, m: Module, blocks: seq<Block>, remaps: seq<Remap>, nexts: seq<nat>,
                                     env: Inputs, st: State, v: Valuation, ws: seq<Valuation>, n: nat)
    requires n <= |remaps| == |blocks| == |ws| && |nexts| == |blocks| + 1 && Numbered(m, blocks, remaps, nexts, |blocks|)
    requires HierSettled(lib, m, blocks, env, st, v, ws)
    ensures Follows(lib, m, blocks, remaps, nexts, env, st, v, ws, n)
  {
    hide Follows, HierSettled, SpliceReady;
    if n == 0 {
      FollowsStart(lib, m, blocks, remaps, nexts, env, st, v, ws);
    } else {
      FlatForth(lib, m, blocks, remaps, nexts, env, st, v, ws, n - 1);
      FollowsStep(lib, m, blocks, remaps, nexts, env, st, v, ws, n - 1);
    }
  }

  lemma FollowsStart(lib: Library, m: Module, blocks: seq<Block>, remaps: seq<Remap>, nexts: seq<nat>,
                     env: Inputs, st: State, v: Valuation, ws: seq<Valuation>)
    requires |remaps| == |blocks| == |ws| && |nexts| == |blocks| + 1 && HierSettled(lib, m, blocks, env, st, v, ws)
    ensures Follows(lib, m, blocks, remaps, nexts, env, st, v, ws, 0)
  {
    hide HierSettled, NextIs;
    assert blocks[0..] == blocks && ws[0..] == ws;
  }

  // With no blocks left, a hierarchical design is a flat netlist.
  lemma TopSettled(lib: Library, m: Module, env: Inputs, st: State, v: Valuation)
    ensures HierSettled(lib, m, [], env, st, v, []) <==> Settled(lib, m, NoFault, env, st, v)
    ensures forall name, x :: NextIs(m, [], st, v, [], name, x) <==> name in m.cells && x == NextVal(m.cells[name], st(name), v)
  {
    hide CellOk, PortOk, NextVal;
    assert forall x :: !IsBlock([], x);
  }

  lemma HierSizes(lib: Library, m: Module, blocks: seq<Block>, env: Inputs, st: State, v: Valuation, ws: seq<Valuation>)
    requires HierSettled(lib, m, blocks, env, st, v, ws)
    ensures |ws| == |blocks|
  {}

  // One block back out of the flat netlist.
  lemma OneBack(lib: Library, flat: Module, b: Block, rest: seq<Block>, remap: Remap, next: nat, next': nat,
                env: Inputs, st: State, u: Valuation, tail: seq<Valuation>) returns (w: Valuation)
    requires SpliceReady(flat, b, rest, remap, next, next') && KeepsWiring(flat.cells[b.inst], b.body)
    requires HierSettled(lib, Splice(flat, b, remap), rest, env, st, u, tail)
    ensures |tail| == |rest| && HierSettled(lib, flat, [b] + rest, env, st, u, [w] + tail) && SeesAlike(b.body, remap, u, w)
    ensures forall name, x :: NextIs(Splice(flat, b, remap), rest, st, u, tail, name, x) ==>
                              NextIs(flat, [b] + rest, st, u, [w] + tail, name, x)
  {
    HierSizes(lib, Splice(flat, b, remap), rest, env, st, u, tail);
    SpliceBack(lib, flat, b, rest, remap, next, next', env, st, u, tail);
    w := TiedInward(flat.cells[b.inst], b.body, u, remap);
    hide HierSettled, KeepsWiring, Splice, TiedInward, NextIs, SpliceReady, SeesAlike;
    forall name, x | NextIs(Splice(flat, b, remap), rest, st, u, tail, name, x)
      ensures NextIs(flat, [b] + rest, st, u, [w] + tail, name, x)
    {
      NextBack(lib, flat, b, rest, remap, next, next', st, u, w, tail, name, x);
    }
  }

  lemma BackReady(m: Module, blocks: seq<Block>, remaps: seq<Remap>, nexts: seq<nat>, n: nat)
    requires 0 < n <= |remaps| == |blocks| && |nexts| == |blocks| + 1 && Numbered(m, blocks, remaps, nexts, |blocks|) && WellWired(m, blocks)
    ensures var flat, b := Flat(m, blocks, remaps, n - 1), blocks[n - 1];
            && SpliceReady(flat, b, blocks[n..], remaps[n - 1], nexts[n - 1], nexts[n])
            && KeepsWiring(flat.cells[b.inst], b.body) && Flat(m, blocks, remaps, n) == Splice(flat, b, remaps[n - 1])
            && blocks[n - 1..] == [b] + blocks[n..]
  {
    var flat, b := Flat(m, blocks, remaps, n - 1), blocks[n - 1];
    hide SpliceReady, KeepsWiring, Splice;
    assert b.inst in m.cells && KeepsWiring(m.cells[b.inst], b.body);
    assert SpliceReady(flat, b, blocks[n - 1 + 1..], remaps[n - 1], nexts[n - 1], nexts[n - 1 + 1]);
    assert Flat(m, blocks, remaps, n) == Splice(flat, b, remaps[n - 1]);
    hide WellWired, Numbered, Flat;
    InstanceStays(m, blocks, remaps, nexts, n - 1, n - 1);
    Peel(blocks, n - 1);
  }

  // From block n on, every block's cells see what the flat valuation says.
  ghost predicate SeenFrom(blocks: seq<Block>, remaps: seq<Remap>, u: Valuation, ws: seq<Valuation>, n: nat)
    requires n <= |blocks| == |remaps| && |ws| == |blocks| - n
  {
    forall i :: 0 <= i < |ws| ==> SeesAlike(blocks[n + i].body, remaps[n + i], u, ws[i])
  }

  /** With such wiring everywhere, every settled valuation of the flat netlist comes
      from a settled hierarchical design, net for net and with its next states. */
  lemma {:induction false} FlatBack(lib: Library, m: Module, blocks: seq<Block>, remaps: seq<Remap>, nexts: seq<nat>,
                                    env: Inputs, st: State, u: Valuation, tail: seq<Valuation>, n: nat) returns (ws: seq<Valuation>)
    requires n <= |remaps| == |blocks| && |nexts| == |blocks| + 1 && Numbered(m, blocks, remaps, nexts, |blocks|) && WellWired(m, blocks)
    requires HierSettled(lib, Flat(m, blocks, remaps, n), blocks[n..], env, st, u, tail)
    requires |tail| == |blocks| - n && SeenFrom(blocks, remaps, u, tail, n)
    ensures HierSettled(lib, m, blocks, env, st, u, ws)
    ensures |ws| == |blocks| && SeenFrom(blocks, remaps, u, ws, 0)
    ensures forall name, x :: NextIs(Flat(m, blocks, remaps, n), blocks[n..], st, u, tail, name, x) ==> NextIs(m, blocks, st, u, ws, name, x)
    decreases n
  {
    if n == 0 {
      hide HierSettled, NextIs;
      ws := tail;
      assert blocks[0..] == blocks;
    } else {
      hide HierSettled, NextIs, Flat, Numbered, WellWired, SpliceReady, KeepsWiring, Splice, SeesAlike;
      var flat, b, remap := Flat(m, blocks, remaps, n - 1), blocks[n - 1], remaps[n - 1];
      BackReady(m, blocks, remaps, nexts, n);
      var w := OneBack(lib, flat, b, blocks[n..], remap, nexts[n - 1], nexts[n], env, st, u, tail);
      SeenMore(blocks, remaps, u, w, tail, n);
      ws := FlatBack(lib, m, blocks, remaps, nexts, env, st, u, [w] + tail, n - 1);
    }
  }

  lemma SeenMore(blocks: seq<Block>, remaps: seq<Remap>, u: Valuation, w: Valuation, tail: seq<Valuation>, n: nat)
    requires 0 < n <= |blocks| == |remaps| && |tail| == |blocks| - n
    requires SeenFrom(blocks, remaps, u, tail, n) && SeesAlike(blocks[n - 1].body, remaps[n - 1], u, w)
    ensures SeenFrom(blocks, remaps, u, [w] + tail, n - 1)
  {
    hide SeesAlike;
    var ws := [w] + tail;
    forall i | 0 <= i < |ws| ensures SeesAlike(blocks[n - 1 + i].body, remaps[n - 1 + i], u, ws[i]) {
      if i > 0 {
        assert ws[i] == tail[i - 1] && blocks[n - 1 + i] == blocks[n + (i - 1)];
      }
    }
  }

  // Splicing the earlier blocks leaves a later instance alone.
  lemma {:induction false} InstanceStays(m: Module, blocks: seq<Block>, remaps: seq<Remap>, nexts: seq<nat>, i: nat, n: nat)
    requires n <= i < |blocks| == |remaps| && |nexts| == |blocks| + 1 && Numbered(m, blocks, remaps, nexts, |blocks|)
    ensures blocks[i].inst in Flat(m, blocks, remaps, n).cells <==> blocks[i].inst in m.cells
    ensures blocks[i].inst in m.cells ==> Flat(m, blocks, remaps, n).cells[blocks[i].inst] == m.cells[blocks[i].inst]
    decreases n
  {
    hide SpliceReady, Splice;
    if n > 0 {
      InstanceStays(m, blocks, remaps, nexts, i, n - 1);
      var flat, rest := Flat(m, blocks, remaps, n - 1), blocks[n..];
      assert SpliceReady(flat, blocks[n - 1], rest, remaps[n - 1], nexts[n - 1], nexts[n]);
      assert rest[i - n] == blocks[i];
      assert IsBlock(rest, blocks[i].inst);
      LaterStays(flat, blocks[n - 1], rest, remaps[n - 1], nexts[n - 1], nexts[n], blocks[i].inst);
    }
  }

  lemma LaterStays(m: Module, b: Block, rest: seq<Block>, remap: Remap, next: nat, next': nat, x: Name)
    requires SpliceReady(m, b, rest, remap, next, next') && IsBlock(rest, x)
    ensures x in m.cells <==> x in Splice(m, b, remap).cells
    ensures x in m.cells ==> Splice(m, b, remap).cells[x] == m.cells[x]
  {
    SpliceCells(m, b, rest, remap, next, next');
    hide Splice, RemapOk, Below;
  }

  /* ---- the flat netlist as a netlist ---- */

  lemma {:induction false} FlatPorts(m: Module, blocks: seq<Block>, remaps: seq<Remap>, n: nat)
    requires n <= |blocks| && n <= |remaps|
    ensures Flat(m, blocks, remaps, n).ports == m.ports
  {
    hide SplicedCells;
    if n > 0 {
      FlatPorts(m, blocks, remaps, n - 1);
    }
  }

  // Every cell of the flat netlist takes a next state of the hierarchy.
  ghost predicate SameNext(m: Module, blocks: seq<Block>, st: State, v: Valuation, ws: seq<Valuation>, flat: Module, u: Valuation)
  {
    |ws| == |blocks| && forall name :: name in flat.cells ==> NextIs(m, blocks, st, v, ws, name, NextVal(flat.cells[name], st(name), u))
  }

  /** The flat netlist settles as every settled hierarchical design does: same
      values at every port and on every glue net, same next states. */
  lemma FlatSettledForth(lib: Library, m: Module, blocks: seq<Block>, remaps: seq<Remap>, nexts: seq<nat>,
                         env: Inputs, st: State, v: Valuation, ws: seq<Valuation>) returns (u: Valuation)
    requires |remaps| == |blocks| == |ws| && |nexts| == |blocks| + 1 && Numbered(m, blocks, remaps, nexts, |blocks|) && Below(m, nexts[0])
    requires HierSettled(lib, m, blocks, env, st, v, ws)
    ensures var flat := Flat(m, blocks, remaps, |blocks|);
            && Settled(lib, flat, NoFault, env, st, u) && AgreeBelow(v, u, nexts[0]) && flat.ports == m.ports
            && (forall name :: name in m.ports ==> BitsVal(u, m.ports[name].bits) == BitsVal(v, m.ports[name].bits))
            && SameNext(m, blocks, st, v, ws, flat, u)
  {
    var n := |blocks|;
    FlatForth(lib, m, blocks, remaps, nexts, env, st, v, ws, n);
    FlatPorts(m, blocks, remaps, n);
    u := FlatValues(remaps, nexts, v, ws, n);
    var flat := Flat(m, blocks, remaps, n);
    assert blocks[n..] == [] && ws[n..] == [];
    TopSettled(lib, flat, env, st, u);
    assert Below(m, nexts[0]);
    hide HierSettled, NextIs, Flat, FlatValues, Settled, NextVal, BitsVal, BitsBelow;
    forall name | name in m.ports ensures BitsVal(u, m.ports[name].bits) == BitsVal(v, m.ports[name].bits) {
      BitsAgree(v, u, m.ports[name].bits, nexts[0]);
    }
    forall name | name in flat.cells ensures NextIs(m, blocks, st, v, ws, name, NextVal(flat.cells[name], st(name), u)) {
      assert NextIs(flat, [], st, u, [], name, NextVal(flat.cells[name], st(name), u));
    }
  }

  // A settled hierarchical design that a flat valuation stands for, net for net.
  ghost predicate Explains(lib: Library, m: Module, blocks: seq<Block>, remaps: seq<Remap>, env: Inputs, st: State, u: Valuation, ws: seq<Valuation>)
  {
    && |ws| == |blocks| == |remaps| && HierSettled(lib, m, blocks, env, st, u, ws) && SeenFrom(blocks, remaps, u, ws, 0)
    && SameNext(m, blocks, st, u, ws, Flat(m, blocks, remaps, |blocks|), u)
  }

  /** With wiring that flattening keeps, every settled valuation of the flat netlist
      is a settled hierarchical design: the same on every net, next states included. */
  lemma FlatSettledBack(lib: Library, m: Module, blocks: seq<Block>, remaps: seq<Remap>, nexts: seq<nat>,
                        env: Inputs, st: State, u: Valuation) returns (ws: seq<Valuation>)
    requires |remaps| == |blocks| && |nexts| == |blocks| + 1 && Numbered(m, blocks, remaps, nexts, |blocks|) && WellWired(m, blocks)
    requires Settled(lib, Flat(m, blocks, remaps, |blocks|), NoFault, env, st, u)
    ensures Explains(lib, m, blocks, remaps, env, st, u, ws)
  {
    var n, flat := |blocks|, Flat(m, blocks, remaps, |blocks|);
    TopSettled(lib, flat, env, st, u);
    assert blocks[n..] == [];
    hide HierSettled, NextIs, Flat, Settled, NextVal, SeesAlike, Numbered, WellWired;
    ws := FlatBack(lib, m, blocks, remaps, nexts, env, st, u, [], n);
    forall name | name in flat.cells ensures NextIs(m, blocks, st, u, ws, name, NextVal(flat.cells[name], st(name), u)) {
      assert NextIs(flat, [], st, u, [], name, NextVal(flat.cells[name], st(name), u));
    }
  }

  /* ---- how it is carried out ---- */

  // Some net bit of a wired port has no glue bit beside it.
  ghost predicate TooNarrow(c: Cell, body: Module)
  {
    exists name, i :: name in body.ports && NarrowAt(c, body, name, i)
  }

  ghost predicate NarrowAt(c: Cell, body: Module, name: Name, i: int)
    requires name in body.ports
  {
    PortConns(c, name) != [] && |PortConns(c, name)| <= i < |body.ports[name].bits| && body.ports[name].bits[i].Net?
  }

  // Every entry so far is a wired port bit, and the ports done are all entered.
  ghost predicate Entered(c: Cell, body: Module, remap: Remap)
  {
    forall n :: n in remap ==> exists name, i :: Joins(c, body, n, remap[n], name, i)
  }

  ghost predicate PortEntered(c: Cell, body: Module, remap: Remap, name: Name, k: int)
    requires name in body.ports
  {
    forall i, n, g :: 0 <= i < k && Joins(c, body, n, g, name, i) ==> n in remap
  }

  method BindPort(c: Cell, body: Module, name: Name, before: Remap) returns (ok: bool, remap: Remap)
    requires name in body.ports && Entered(c, body, before)
    ensures ok <==> !exists i :: NarrowAt(c, body, name, i)
    ensures ok ==> Entered(c, body, remap) && before.Keys <= remap.Keys && PortEntered(c, body, remap, name, |body.ports[name].bits|)
  {
    remap := before;
    var inner, outer := body.ports[name].bits, PortConns(c, name);
    if outer == [] {
      return true, remap;
    }
    for i := 0 to |inner|
      invariant Entered(c, body, remap) && before.Keys <= remap.Keys && PortEntered(c, body, remap, name, i)
      invariant forall k :: 0 <= k < i ==> !NarrowAt(c, body, name, k)
    {
      if inner[i].Net? {
        if i >= |outer| {
          assert NarrowAt(c, body, name, i);
          return false, remap;
        }
        if outer[i].Net? {
          assert Joins(c, body, inner[i].id, outer[i].id, name, i);
          remap := remap[inner[i].id := outer[i].id];
        }
      }
    }
    ok := true;
  }

  function BodyNets(body: Module): (r: set<nat>)
  {
    (set name, i | name in body.ports && 0 <= i < |body.ports[name].bits| && body.ports[name].bits[i].Net? :: body.ports[name].bits[i].id)
    + (set x, p, i | x in body.cells && p in body.cells[x].conns && 0 <= i < |body.cells[x].conns[p]| && body.cells[x].conns[p][i].Net?
         :: body.cells[x].conns[p][i].id)
  }

  lemma BodyNetsAre(body: Module, n: nat)
    ensures n in BodyNets(body) <==> InBody(body, n)
  {
    if name :| name in body.ports && Net(n) in body.ports[name].bits {
      var i :| 0 <= i < |body.ports[name].bits| && body.ports[name].bits[i] == Net(n);
    }
    if x, p :| x in body.cells && p in body.cells[x].conns && Net(n) in body.cells[x].conns[p] {
      var i :| 0 <= i < |body.cells[x].conns[p]| && body.cells[x].conns[p][i] == Net(n);
    }
  }

  // Which part of RemapOk holds while the fresh ids are handed out.
  ghost predicate Filled(c: Cell, body: Module, remap: Remap, bound: Remap, next: nat, next': nat)
  {
    && next <= next' && bound.Keys <= remap.Keys
    && (forall n :: n in bound ==> remap[n] == bound[n])
    && (forall n :: n in remap && n !in bound ==> next <= remap[n] < next')
    && (forall a, b :: a in remap && b in remap && a !in bound && b !in bound && remap[a] == remap[b] ==> a == b)
  }

  lemma FillStep(c: Cell, body: Module, remap: Remap, bound: Remap, next: nat, k: nat, n: nat)
    requires Filled(c, body, remap, bound, next, k) && n !in remap
    ensures Filled(c, body, remap[n := k], bound, next, k + 1)
  {}

  lemma FillDone(c: Cell, body: Module, remap: Remap, bound: Remap, next: nat, next': nat)
    requires Filled(c, body, remap, bound, next, next') && Entered(c, body, bound) && CellBelow(c, next)
    requires forall name :: name in body.ports ==> PortEntered(c, body, bound, name, |body.ports[name].bits|)
    requires forall n :: n in remap <==> InBody(body, n)
    ensures RemapOk(c, body, remap, next, next')
  {
    forall n | n in bound ensures remap[n] < next {
      var name, i :| Joins(c, body, n, bound[n], name, i);
      assert BitsBelow(c.conns[Named(name)], next);
    }
    forall n | n in remap && n !in bound ensures forall g: nat, name, i :: !Joins(c, body, n, g, name, i) {
      forall g: nat, name, i ensures !Joins(c, body, n, g, name, i) {
        assert name in body.ports ==> PortEntered(c, body, bound, name, |body.ports[name].bits|);
      }
    }
  }

  ghost predicate Given(remap: Remap, k: nat) { exists n :: n in remap && remap[n] == k }

  // Fresh ids are handed out in the order of the nets, none left out.
  ghost predicate InOrder(remap: Remap, bound: Remap, next: nat, next': nat)
  {
    && (forall a, b :: a in remap && b in remap && a !in bound && b !in bound && a < b ==> remap[a] < remap[b])
    && (forall k :: next <= k < next' ==> Given(remap, k))
  }

  lemma InOrderStep(remap: Remap, bound: Remap, next: nat, k: nat, n: nat)
    requires InOrder(remap, bound, next, k) && n !in remap && next <= k && bound.Keys <= remap.Keys
    requires forall a :: a in remap && a !in bound ==> a < n && remap[a] < k
    ensures InOrder(remap[n := k], bound, next, k + 1)
  {
    var more := remap[n := k];
    forall i | next <= i < k + 1 ensures Given(more, i) {
      if i == k {
        assert more[n] == i;
      } else {
        assert Given(remap, i);
        var x :| x in remap && remap[x] == i;
        assert more[x] == i;
      }
    }
  }

  // The fresh part of a renumbering: consecutive ids, in the order of the nets.
  ghost predicate Sequential(remap: Remap, next: nat, next': nat)
  {
    && (forall a, b :: a in remap && b in remap && next <= remap[a] && next <= remap[b] && a < b ==> remap[a] < remap[b])
    && (forall k :: next <= k < next' ==> Given(remap, k))
  }

  lemma SequentialIs(c: Cell, body: Module, remap: Remap, bound: Remap, next: nat, next': nat)
    requires InOrder(remap, bound, next, next') && Filled(c, body, remap, bound, next, next')
    requires Entered(c, body, bound) && CellBelow(c, next)
    ensures Sequential(remap, next, next')
  {
    forall n | n in bound ensures remap[n] < next {
      var name, i :| Joins(c, body, n, bound[n], name, i);
      assert BitsBelow(c.conns[Named(name)], next);
    }
  }

  lemma FilledBelow(c: Cell, body: Module, remap: Remap, bound: Remap, next: nat, k: nat)
    requires Filled(c, body, remap, bound, next, k)
    ensures next <= k && bound.Keys <= remap.Keys && forall a :: a in remap && a !in bound ==> remap[a] < k
  {}

  // Port nets first, then a fresh id for every other net, smallest net first.
  method BuildRemap(c: Cell, body: Module, next: nat) returns (r: Option<Remap>, next': nat)
    requires CellBelow(c, next)
    ensures r.Some? <==> !TooNarrow(c, body)
    ensures r.Some? ==> RemapOk(c, body, r.value, next, next') && Sequential(r.value, next, next')
  {
    hide InOrder, Sequential;
    hide Entered, PortEntered, NarrowAt, Filled, RemapOk, CellBelow, InBody, BodyNets;
    var bound: Remap := map[];
    next' := next;
    var ports := body.ports.Keys;
    EnterNone(c, body);
    while ports != {}
      invariant ports <= body.ports.Keys && Entered(c, body, bound)
      invariant forall name :: name in body.ports && name !in ports ==> PortEntered(c, body, bound, name, |body.ports[name].bits|)
      invariant forall name, i :: name in body.ports && name !in ports ==> !NarrowAt(c, body, name, i)
    {
      var name :| name in ports;
      var ok, more := BindPort(c, body, name, bound);
      if !ok {
        return None, next';
      }
      forall other | other in body.ports && other !in ports ensures PortEntered(c, body, more, other, |body.ports[other].bits|) {
        EnteredMore(c, body, bound, more, other, |body.ports[other].bits|);
      }
      bound := more;
      ports := ports - {name};
    }
    var remap: Remap := bound;
    var todo := BodyNets(body);
    FillNone(c, body, bound, next);
    assert InOrder(remap, bound, next, next') by { NoneFresh(bound, next); }
    while todo != {}
      invariant Filled(c, body, remap, bound, next, next')
      invariant todo <= BodyNets(body) && forall n :: n in remap <==> n in bound || (n in BodyNets(body) && n !in todo)
      invariant InOrder(remap, bound, next, next') && forall a, b :: a in remap && a !in bound && b in todo ==> a < b
    {
      var n := ScanPlan.SmallestOf(todo);
      if n !in remap {
        FilledBelow(c, body, remap, bound, next, next');
        InOrderStep(remap, bound, next, next', n);
        FillStep(c, body, remap, bound, next, next', n);
        remap := remap[n := next'];
        next' := next' + 1;
      }
      todo := todo - {n};
    }
    forall n: nat ensures n in remap <==> InBody(body, n) {
      BodyNetsAre(body, n);
      if n in bound {
        BoundInside(c, body, bound, n);
      }
    }
    FillDone(c, body, remap, bound, next, next');
    SequentialIs(c, body, remap, bound, next, next');
    r := Some(remap);
  }

  lemma NoneFresh(bound: Remap, next: nat)
    ensures InOrder(bound, bound, next, next)
  {}

  lemma EnterNone(c: Cell, body: Module)
    ensures Entered(c, body, map[])
  {}

  lemma EnteredMore(c: Cell, body: Module, bound: Remap, more: Remap, name: Name, k: int)
    requires name in body.ports && PortEntered(c, body, bound, name, k) && bound.Keys <= more.Keys
    ensures PortEntered(c, body, more, name, k)
  {}

  lemma FillNone(c: Cell, body: Module, bound: Remap, next: nat)
    ensures Filled(c, body, bound, bound, next, next)
  {}

  lemma BoundInside(c: Cell, body: Module, bound: Remap, n: nat)
    requires Entered(c, body, bound) && n in bound
    ensures InBody(body, n)
  {}

  method SpliceCellsIn(m: Module, b: Block, remap: Remap) returns (r: Module)
    requires b.inst in m.cells && forall x :: x in m.cells ==> !(x.Made? && x.tag == Inside(b.inst))
    requires b.inst !in Spliced(b)
    ensures r == Splice(m, b, remap)
  {
    var cells := m.cells;
    var todo := b.body.cells.Keys;
    assert cells == Partly(m.cells, b, remap, todo);
    while todo != {}
      invariant todo <= b.body.cells.Keys && cells == Partly(m.cells, b, remap, todo)
    {
      var x :| x in todo;
      PartlyStep(m.cells, b, remap, todo, x);
      cells := cells[Made(Inside(b.inst), x) := MapCell(b.body.cells[x], remap)];
      todo := todo - {x};
    }
    PartlyDone(m, b, remap);
    hide Partly, Splice;
    cells := map x | x in cells && x != b.inst :: cells[x];
    r := Module(m.ports, cells);
  }

  // The cells while a block is being spliced in.
  ghost function Partly(cells: map<Name, Cell>, b: Block, remap: Remap, todo: set<Name>): map<Name, Cell>
  {
    cells + (map x | x in Spliced(b) && x.base !in todo :: MapCell(b.body.cells[x.base], remap))
  }

  lemma PartlyStep(cells: map<Name, Cell>, b: Block, remap: Remap, todo: set<Name>, x: Name)
    requires x in todo && todo <= b.body.cells.Keys
    ensures Partly(cells, b, remap, todo - {x}) == Partly(cells, b, remap, todo)[Made(Inside(b.inst), x) := MapCell(b.body.cells[x], remap)]
  {
    hide MapCell;
    assert Made(Inside(b.inst), x) in Spliced(b);
  }

  lemma PartlyDone(m: Module, b: Block, remap: Remap)
    requires b.inst !in Spliced(b)
    ensures var cells := Partly(m.cells, b, remap, {}); Splice(m, b, remap) == Module(m.ports, map x | x in cells && x != b.inst :: cells[x])
  {
    assert Partly(m.cells, b, remap, {}) == m.cells + SplicedCells(b, remap) by { hide MapCell; }
    assert b.inst !in SplicedCells(b, remap);
    hide MapCell, Partly, Spliced, SplicedCells;
    DropJoin(m.cells, SplicedCells(b, remap), b.inst);
  }

  lemma DropJoin(cells: map<Name, Cell>, more: map<Name, Cell>, inst: Name)
    requires inst !in more
    ensures (map x | x in cells + more && x != inst :: (cells + more)[x]) == (map x | x in cells && x != inst :: cells[x]) + more
  {}

  // Each block once, under an instance name of the glue, its own cell names free.
  ghost predicate Placed(m: Module, blocks: seq<Block>)
  {
    && (forall i, j :: 0 <= i < j < |blocks| ==> blocks[i].inst != blocks[j].inst)
    && (forall i :: 0 <= i < |blocks| ==> blocks[i].inst.Text?)
    && (forall i, x :: 0 <= i < |blocks| && x in m.cells ==> !(x.Made? && x.tag == Inside(blocks[i].inst)))
  }

  lemma MappedBelow(bits: seq<Bit>, remap: Remap, next: nat)
    requires forall i :: 0 <= i < |bits| && bits[i].Net? ==> bits[i].id in remap && remap[bits[i].id] < next
    ensures BitsBelow(MapBits(bits, remap), next)
  {}

  lemma RemapBelow(c: Cell, body: Module, remap: Remap, next: nat, next': nat, n: nat)
    requires RemapOk(c, body, remap, next, next') && CellBelow(c, next) && n in remap
    ensures remap[n] < next'
  {
    if name, i :| Joins(c, body, n, remap[n], name, i) {
      assert BitsBelow(c.conns[Named(name)], next);
    }
  }

  lemma SpliceBelow(m: Module, b: Block, rest: seq<Block>, remap: Remap, next: nat, next': nat)
    requires SpliceReady(m, b, rest, remap, next, next')
    ensures Below(Splice(m, b, remap), next')
  {
    var m' := Splice(m, b, remap);
    SpliceCells(m, b, rest, remap, next, next');
    assert CellBelow(m.cells[b.inst], next);
    forall x | x in m'.cells ensures CellBelow(m'.cells[x], next') {
      if x in Spliced(b) {
        SplicedBelow(m, b, rest, remap, next, next', x.base);
      } else {
        assert CellBelow(m.cells[x], next);
        forall p | p in m'.cells[x].conns ensures BitsBelow(m'.cells[x].conns[p], next') {
          assert BitsBelow(m.cells[x].conns[p], next);
        }
      }
    }
    forall name | name in m'.ports ensures BitsBelow(m'.ports[name].bits, next') {
      assert BitsBelow(m.ports[name].bits, next);
    }
  }

  lemma SplicedBelow(m: Module, b: Block, rest: seq<Block>, remap: Remap, next: nat, next': nat, x: Name)
    requires SpliceReady(m, b, rest, remap, next, next') && x in b.body.cells
    ensures CellBelow(MapCell(b.body.cells[x], remap), next')
  {
    var c := b.body.cells[x];
    assert CellBelow(m.cells[b.inst], next);
    forall p | p in c.conns ensures BitsBelow(MapBits(c.conns[p], remap), next') {
      forall i | 0 <= i < |c.conns[p]| && c.conns[p][i].Net? ensures c.conns[p][i].id in remap && remap[c.conns[p][i].id] < next' {
        InBodyCell(b.body, x, p, i);
        RemapBelow(m.cells[b.inst], b.body, remap, next, next', c.conns[p][i].id);
      }
      MappedBelow(c.conns[p], remap, next');
    }
  }

  lemma {:induction false} FlatPrefix(m: Module, blocks: seq<Block>, remaps: seq<Remap>, more: seq<Remap>, n: nat)
    requires n <= |blocks| && n <= |remaps|
    ensures Flat(m, blocks, remaps + more, n) == Flat(m, blocks, remaps, n)
  {
    hide Splice;
    if n > 0 {
      FlatPrefix(m, blocks, remaps, more, n - 1);
    }
  }

  // What holds once n blocks are in: ids, names, and the instances still to come.
  ghost predicate Progress(glue: Module, blocks: seq<Block>, remaps: seq<Remap>, nexts: seq<nat>, m: Module, n: nat)
  {
    && n <= |blocks| && |remaps| == n && |nexts| == n + 1
    && m == Flat(glue, blocks, remaps, n) && Numbered(glue, blocks, remaps, nexts, n) && Below(m, nexts[n])
    && (forall k :: n <= k < |blocks| ==> Untouched(glue, m, blocks[k]))
  }

  ghost predicate Untouched(glue: Module, m: Module, b: Block)
  {
    && (b.inst in m.cells <==> b.inst in glue.cells)
    && (b.inst in m.cells ==> m.cells[b.inst] == glue.cells[b.inst])
    && (forall x :: x in m.cells ==> !(x.Made? && x.tag == Inside(b.inst)))
  }

  lemma NextReady(glue: Module, blocks: seq<Block>, remaps: seq<Remap>, nexts: seq<nat>, m: Module, n: nat, remap: Remap, next': nat)
    requires Placed(glue, blocks) && Progress(glue, blocks, remaps, nexts, m, n) && n < |blocks| && blocks[n].inst in m.cells
    requires RemapOk(m.cells[blocks[n].inst], blocks[n].body, remap, nexts[n], next')
    ensures SpliceReady(m, blocks[n], blocks[n + 1..], remap, nexts[n], next')
  {
    hide RemapOk, Numbered, Below, Flat;
    assert Untouched(glue, m, blocks[n]);
    var rest := blocks[n + 1..];
    forall i | 0 <= i < |rest| ensures rest[i].inst.Text? && rest[i].inst != blocks[n].inst {
      assert rest[i] == blocks[n + 1 + i];
    }
  }

  lemma UntouchedStep(glue: Module, blocks: seq<Block>, m: Module, n: nat, remap: Remap, next: nat, next': nat)
    requires Placed(glue, blocks) && n < |blocks| && SpliceReady(m, blocks[n], blocks[n + 1..], remap, next, next')
    requires forall k :: n <= k < |blocks| ==> Untouched(glue, m, blocks[k])
    ensures forall k :: n < k < |blocks| ==> Untouched(glue, Splice(m, blocks[n], remap), blocks[k])
  {
    hide SpliceReady, Untouched, Splice;
    forall k | n < k < |blocks| ensures Untouched(glue, Splice(m, blocks[n], remap), blocks[k]) {
      assert blocks[n + 1..][k - n - 1] == blocks[k];
      StillUntouched(glue, m, blocks[n], blocks[n + 1..], remap, next, next', blocks[k]);
    }
  }

  lemma NumberedStep(m: Module, blocks: seq<Block>, remaps: seq<Remap>, nexts: seq<nat>, n: nat, remap: Remap, next': nat)
    requires n < |blocks| && |remaps| == n && |nexts| == n + 1 && Numbered(m, blocks, remaps, nexts, n)
    requires SpliceReady(Flat(m, blocks, remaps, n), blocks[n], blocks[n + 1..], remap, nexts[n], next')
    ensures Numbered(m, blocks, remaps + [remap], nexts + [next'], n + 1)
    ensures Flat(m, blocks, remaps + [remap], n + 1) == Splice(Flat(m, blocks, remaps, n), blocks[n], remap)
  {
    FlatPrefix(m, blocks, remaps, [remap], n);
    hide SpliceReady, Splice;
    var all, ids := remaps + [remap], nexts + [next'];
    forall i | 0 <= i < n + 1
      ensures SpliceReady(Flat(m, blocks, all, i), blocks[i], blocks[i + 1..], all[i], ids[i], ids[i + 1])
    {
      FlatPrefix(m, blocks, remaps, [remap], i);
      hide Flat;
      if i < n {
        assert SpliceReady(Flat(m, blocks, remaps, i), blocks[i], blocks[i + 1..], remaps[i], nexts[i], nexts[i + 1]);
      }
    }
  }

  lemma ProgressStep(glue: Module, blocks: seq<Block>, remaps: seq<Remap>, nexts: seq<nat>, m: Module, n: nat, remap: Remap, next': nat)
    requires Placed(glue, blocks) && Progress(glue, blocks, remaps, nexts, m, n) && n < |blocks| && blocks[n].inst in m.cells
    requires RemapOk(m.cells[blocks[n].inst], blocks[n].body, remap, nexts[n], next')
    ensures Progress(glue, blocks, remaps + [remap], nexts + [next'], Splice(m, blocks[n], remap), n + 1)
  {
    hide RemapOk, SpliceReady, Below, Splice, Untouched, Flat, Numbered, Placed;
    NextReady(glue, blocks, remaps, nexts, m, n, remap, next');
    SpliceBelow(m, blocks[n], blocks[n + 1..], remap, nexts[n], next');
    UntouchedStep(glue, blocks, m, n, remap, nexts[n], next');
    NumberedStep(glue, blocks, remaps, nexts, n, remap, next');
  }

  lemma StillUntouched(glue: Module, m: Module, b: Block, rest: seq<Block>, remap: Remap, next: nat, next': nat, later: Block)
    requires SpliceReady(m, b, rest, remap, next, next') && later in rest && Untouched(glue, m, later) && later.inst.Text?
    ensures Untouched(glue, Splice(m, b, remap), later)
  {
    var i :| 0 <= i < |rest| && rest[i] == later;
    assert IsBlock(rest, later.inst);
    assert later.inst != b.inst;
    SpliceCells(m, b, rest, remap, next, next');
    LaterStays(m, b, rest, remap, next, next', later.inst);
    hide RemapOk, Splice, Below;
  }

  /** Flatten every block in turn with a running net counter. It fails exactly when
      an instance is missing or too narrow for its block; otherwise the result is
      the flat netlist and no two blocks share a fresh id. */
  method ComposeAll(glue: Module, blocks: seq<Block>) returns (r: Option<Module>, ghost remaps: seq<Remap>, ghost nexts: seq<nat>)
    requires Placed(glue, blocks)
    ensures r.Some? <==> forall i :: 0 <= i < |blocks| ==> blocks[i].inst in glue.cells && !TooNarrow(glue.cells[blocks[i].inst], blocks[i].body)
    ensures r.Some? ==> |remaps| == |blocks| && |nexts| == |blocks| + 1 && Numbered(glue, blocks, remaps, nexts, |blocks|)
    ensures r.Some? ==> r.value == Flat(glue, blocks, remaps, |blocks|)
  {
    hide TooNarrow, Splice, RemapOk, Flat, Numbered, Below;
    var m := glue;
    var next := ViewBuilder.NextNetId(glue);
    remaps, nexts := [], [next];
    ProgressStart(glue, blocks, next);
    for i := 0 to |blocks|
      invariant Progress(glue, blocks, remaps, nexts, m, i) && nexts[i] == next
      invariant forall k :: 0 <= k < i ==> blocks[k].inst in glue.cells && !TooNarrow(glue.cells[blocks[k].inst], blocks[k].body)
    {
      var b := blocks[i];
      assert Untouched(glue, m, b);
      if b.inst !in m.cells {
        return None, remaps, nexts;
      }
      InstanceBelow(m, next, b.inst);
      var remap, next' := BuildRemap(m.cells[b.inst], b.body, next);
      if remap.None? {
        return None, remaps, nexts;
      }
      assert b.inst !in Spliced(b);
      ProgressStep(glue, blocks, remaps, nexts, m, i, remap.value, next');
      m := SpliceCellsIn(m, b, remap.value);
      next := next';
      remaps, nexts := remaps + [remap.value], nexts + [next];
    }
    r := Some(m);
  }

  lemma ProgressStart(glue: Module, blocks: seq<Block>, next: nat)
    requires Placed(glue, blocks) && Below(glue, next)
    ensures Progress(glue, blocks, [], [next], glue, 0)
  {}

  lemma InstanceBelow(m: Module, next: nat, inst: Name)
    requires Below(m, next) && inst in m.cells
    ensures CellBelow(m.cells[inst], next)
  {}
}
