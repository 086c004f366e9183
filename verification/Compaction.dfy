/** Vector compaction (faultflow/runner/compaction.py): a reverse sweep that keeps
    the vectors that still contribute, and a packing of their cubes. */
module Compaction {
  import opened Campaign

  type Detects = (Vector, Fault) -> bool

  // The given faults that a vector detects.
  function Hits(detects: Detects, v: Vector, targets: set<Fault>): set<Fault>
  {
    set f | f in targets && detects(v, f)
  }

  ghost predicate CoveredBy(detects: Detects, vectors: seq<Vector>, f: Fault)
  {
    exists i :: 0 <= i < |vectors| && detects(vectors[i], f)
  }

  // Every target the first set covers, the second covers too.
  ghost predicate CoversAs(detects: Detects, raw: seq<Vector>, kept: seq<Vector>, targets: set<Fault>)
  {
    forall f :: f in targets && CoveredBy(detects, raw, f) ==> CoveredBy(detects, kept, f)
  }

  /* ---- the reverse sweep ---- */

  datatype Contribution = Contribution(index: nat, newly: set<Fault>)

  // From the last vector down: each one that detects a fault still uncovered.
  function Sweep(detects: Detects, vectors: seq<Vector>, n: nat, remaining: set<Fault>): seq<Contribution>
    requires n <= |vectors|
    decreases n
  {
    if n == 0 || remaining == {} then []
    else
      var newly := Hits(detects, vectors[n - 1], remaining);
      if newly == {} then Sweep(detects, vectors, n - 1, remaining)
      else [Contribution(n - 1, newly)] + Sweep(detects, vectors, n - 1, remaining - newly)
  }

  ghost predicate Contributes(cs: seq<Contribution>, f: Fault, j: int) { 0 <= j < |cs| && f in cs[j].newly }

  // A contribution is real: later in the list, earlier in the vectors.
  ghost predicate RealAt(detects: Detects, vectors: seq<Vector>, n: nat, remaining: set<Fault>, c: Contribution)
    requires n <= |vectors|
  {
    c.index < n && c.newly != {} && c.newly <= remaining && forall f :: f in c.newly ==> detects(vectors[c.index], f)
  }

  ghost predicate Real(detects: Detects, vectors: seq<Vector>, n: nat, remaining: set<Fault>, cs: seq<Contribution>)
    requires n <= |vectors|
  {
    && (forall j :: 0 <= j < |cs| ==> RealAt(detects, vectors, n, remaining, cs[j]))
    && (forall j, k :: 0 <= j < k < |cs| ==> cs[j].index > cs[k].index)
  }

  // One vector of the sweep.
  lemma SweepStep(detects: Detects, vectors: seq<Vector>, n: nat, remaining: set<Fault>)
    requires 0 < n <= |vectors| && remaining != {}
    ensures var newly := Hits(detects, vectors[n - 1], remaining);
            Sweep(detects, vectors, n, remaining)
            == (if newly == {} then [] else [Contribution(n - 1, newly)]) + Sweep(detects, vectors, n - 1, remaining - newly)
  {
    var newly := Hits(detects, vectors[n - 1], remaining);
    assert newly == {} ==> remaining - newly == remaining;
  }

  lemma RealMore(detects: Detects, vectors: seq<Vector>, n: nat, remaining: set<Fault>, newly: set<Fault>, rest: seq<Contribution>)
    requires 0 < n <= |vectors| && Real(detects, vectors, n - 1, remaining - newly, rest)
    requires newly == Hits(detects, vectors[n - 1], remaining)
    ensures Real(detects, vectors, n, remaining, (if newly == {} then [] else [Contribution(n - 1, newly)]) + rest)
  {
    hide Real;
    forall j | 0 <= j < |rest| ensures RealAt(detects, vectors, n, remaining, rest[j]) && rest[j].index < n - 1 {
      RealWider(detects, vectors, n, remaining, newly, rest, j);
    }
    if newly == {} {
      assert [] + rest == rest;
      SameReal(detects, vectors, n, remaining, newly, rest);
    } else {
      assert RealAt(detects, vectors, n, remaining, Contribution(n - 1, newly));
      hide RealAt;
      ConsReal(detects, vectors, n, remaining, newly, rest);
    }
  }

  lemma RealWider(detects: Detects, vectors: seq<Vector>, n: nat, remaining: set<Fault>, newly: set<Fault>, rest: seq<Contribution>, j: nat)
    requires 0 < n <= |vectors| && Real(detects, vectors, n - 1, remaining - newly, rest) && j < |rest|
    ensures RealAt(detects, vectors, n, remaining, rest[j]) && rest[j].index < n - 1
  {
    assert RealAt(detects, vectors, n - 1, remaining - newly, rest[j]);
  }

  lemma SameReal(detects: Detects, vectors: seq<Vector>, n: nat, remaining: set<Fault>, newly: set<Fault>, rest: seq<Contribution>)
    requires 0 < n <= |vectors| && Real(detects, vectors, n - 1, remaining - newly, rest)
    requires forall j :: 0 <= j < |rest| ==> RealAt(detects, vectors, n, remaining, rest[j])
    ensures Real(detects, vectors, n, remaining, rest)
  {
    hide RealAt;
  }

  lemma ConsReal(detects: Detects, vectors: seq<Vector>, n: nat, remaining: set<Fault>, newly: set<Fault>, rest: seq<Contribution>)
    requires 0 < n <= |vectors| && Real(detects, vectors, n - 1, remaining - newly, rest)
    requires forall j :: 0 <= j < |rest| ==> RealAt(detects, vectors, n, remaining, rest[j]) && rest[j].index < n - 1
    requires RealAt(detects, vectors, n, remaining, Contribution(n - 1, newly))
    ensures Real(detects, vectors, n, remaining, [Contribution(n - 1, newly)] + rest)
  {
    hide RealAt;
    var cs := [Contribution(n - 1, newly)] + rest;
    assert cs[0] == Contribution(n - 1, newly) && forall j :: 1 <= j < |cs| ==> cs[j] == rest[j - 1];
    forall j, k | 0 <= j < k < |cs| ensures cs[j].index > cs[k].index {
      if j > 0 {
        assert rest[j - 1].index > rest[k - 1].index;
      }
    }
  }

  lemma {:induction false} SweepReal(detects: Detects, vectors: seq<Vector>, n: nat, remaining: set<Fault>)
    requires n <= |vectors|
    ensures Real(detects, vectors, n, remaining, Sweep(detects, vectors, n, remaining))
    decreases n
  {
    if n > 0 && remaining != {} {
      var newly := Hits(detects, vectors[n - 1], remaining);
      SweepStep(detects, vectors, n, remaining);
      hide Sweep, Real;
      SweepReal(detects, vectors, n - 1, remaining - newly);
      RealMore(detects, vectors, n, remaining, newly, Sweep(detects, vectors, n - 1, remaining - newly));
    }
  }

  lemma {:induction false} SweepCovers(detects: Detects, vectors: seq<Vector>, n: nat, remaining: set<Fault>, f: Fault)
    requires n <= |vectors| && f in remaining && exists i :: 0 <= i < n && detects(vectors[i], f)
    ensures exists j :: Contributes(Sweep(detects, vectors, n, remaining), f, j)
    decreases n
  {
    var newly := Hits(detects, vectors[n - 1], remaining);
    var cs := Sweep(detects, vectors, n, remaining);
    if f in newly {
      assert Contributes(cs, f, 0);
    } else {
      var rest := Sweep(detects, vectors, n - 1, remaining - newly);
      assert newly == {} ==> remaining - newly == remaining;
      SweepCovers(detects, vectors, n - 1, remaining - newly, f);
      var j :| Contributes(rest, f, j);
      if newly == {} {
        assert Contributes(cs, f, j);
      } else {
        assert cs[j + 1] == rest[j];
        assert Contributes(cs, f, j + 1);
      }
    }
  }

  // The last of the first n vectors that detects a fault.
  ghost predicate LastHit(detects: Detects, vectors: seq<Vector>, n: int, f: Fault, i: int)
  {
    0 <= i < n <= |vectors| && detects(vectors[i], f) && forall k :: i < k < n ==> !detects(vectors[k], f)
  }

  ghost predicate ComesFrom(cs: seq<Contribution>, f: Fault, i: int, j: int) { Contributes(cs, f, j) && cs[j].index == i }

  lemma FromStep(first: seq<Contribution>, rest: seq<Contribution>, f: Fault, i: int)
    ensures (exists j :: ComesFrom(first + rest, f, i, j)) <==> (exists j :: ComesFrom(first, f, i, j)) || (exists j :: ComesFrom(rest, f, i, j))
  {
    var cs := first + rest;
    if j :| ComesFrom(cs, f, i, j) {
      assert if j < |first| then ComesFrom(first, f, i, j) else ComesFrom(rest, f, i, j - |first|);
    }
    if j :| ComesFrom(first, f, i, j) {
      assert ComesFrom(cs, f, i, j);
    }
    if j :| ComesFrom(rest, f, i, j) {
      assert ComesFrom(cs, f, i, j + |first|);
    }
  }

  /** A fault is credited to one contribution only: that of the last vector that detects it. */
  lemma {:induction false} SweepExact(detects: Detects, vectors: seq<Vector>, n: nat, remaining: set<Fault>, f: Fault, i: int)
    requires n <= |vectors|
    ensures (exists j :: ComesFrom(Sweep(detects, vectors, n, remaining), f, i, j)) <==> f in remaining && LastHit(detects, vectors, n, f, i)
    decreases n
  {
    if n > 0 && remaining != {} {
      var newly := Hits(detects, vectors[n - 1], remaining);
      var first: seq<Contribution> := if newly == {} then [] else [Contribution(n - 1, newly)];
      SweepStep(detects, vectors, n, remaining);
      SweepExact(detects, vectors, n - 1, remaining - newly, f, i);
      FromStep(first, Sweep(detects, vectors, n - 1, remaining - newly), f, i);
      hide Sweep;
      assert (exists j :: ComesFrom(first, f, i, j)) <==> f in newly && i == n - 1 by {
        if f in newly && i == n - 1 {
          assert ComesFrom(first, f, i, 0);
        }
      }
    }
  }

  // The vectors that are the last to detect some target, in their order.
  ghost predicate LastOnes(detects: Detects, vectors: seq<Vector>, targets: set<Fault>, kept: seq<Vector>)
  {
    exists at: seq<nat> :: Picks(vectors, kept, at) && IsLast(detects, vectors, targets, at)
  }

  ghost predicate IsLast(detects: Detects, vectors: seq<Vector>, targets: set<Fault>, at: seq<nat>)
  {
    forall i :: i in at <==> exists f :: f in targets && LastHit(detects, vectors, |vectors|, f, i)
  }

  ghost predicate HasIndex(cs: seq<Contribution>, i: int, j: int) { 0 <= j < |cs| && cs[j].index == i }

  lemma IndexLast(detects: Detects, vectors: seq<Vector>, targets: set<Fault>, cs: seq<Contribution>, i: int)
    requires cs == Sweep(detects, vectors, |vectors|, targets)
    ensures (exists j :: HasIndex(cs, i, j)) <==> exists f :: f in targets && LastHit(detects, vectors, |vectors|, f, i)
  {
    hide Sweep, LastHit;
    if j :| HasIndex(cs, i, j) {
      SweepReal(detects, vectors, |vectors|, targets);
      assert RealAt(detects, vectors, |vectors|, targets, cs[j]);
      var f :| f in cs[j].newly;
      assert ComesFrom(cs, f, i, j);
      SweepExact(detects, vectors, |vectors|, targets, f, i);
    }
    if f :| f in targets && LastHit(detects, vectors, |vectors|, f, i) {
      SweepExact(detects, vectors, |vectors|, targets, f, i);
      var j :| ComesFrom(cs, f, i, j);
      assert HasIndex(cs, i, j);
    }
  }

  ghost function Indexes(cs: seq<Contribution>): (r: seq<nat>)
    ensures |r| == |cs|
  {
    seq(|cs|, j requires 0 <= j < |cs| => cs[|cs| - 1 - j].index)
  }

  lemma IndexesHave(cs: seq<Contribution>, i: int)
    ensures (exists k :: 0 <= k < |cs| && Indexes(cs)[k] == i) <==> exists j :: HasIndex(cs, i, j)
  {
    if k :| 0 <= k < |cs| && Indexes(cs)[k] == i {
      assert HasIndex(cs, i, |cs| - 1 - k);
    }
    if j :| HasIndex(cs, i, j) {
      assert Indexes(cs)[|cs| - 1 - j] == i;
    }
  }

  lemma KeptLast(detects: Detects, vectors: seq<Vector>, targets: set<Fault>, cs: seq<Contribution>)
    requires cs == Sweep(detects, vectors, |vectors|, targets)
    ensures forall j :: 0 <= j < |cs| ==> cs[j].index < |vectors|
    ensures LastOnes(detects, vectors, targets, Kept(vectors, cs))
  {
    SweepReal(detects, vectors, |vectors|, targets);
    KeptPicks(detects, vectors, targets, cs);
    hide Sweep, LastHit, Indexes, Real, Kept, Picks;
    var at := Indexes(cs);
    forall i ensures i in at <==> exists f :: f in targets && LastHit(detects, vectors, |vectors|, f, i) {
      IndexesHave(cs, i);
      IndexLast(detects, vectors, targets, cs, i);
    }
    assert IsLast(detects, vectors, targets, at);
  }

  lemma KeptPicks(detects: Detects, vectors: seq<Vector>, targets: set<Fault>, cs: seq<Contribution>)
    requires Real(detects, vectors, |vectors|, targets, cs)
    ensures forall j :: 0 <= j < |cs| ==> cs[j].index < |vectors|
    ensures Picks(vectors, Kept(vectors, cs), Indexes(cs))
  {
    forall j | 0 <= j < |cs| ensures cs[j].index < |vectors| {
      assert RealAt(detects, vectors, |vectors|, targets, cs[j]);
    }
  }

  // The kept vectors, in their original order.
  function Kept(vectors: seq<Vector>, cs: seq<Contribution>): (r: seq<Vector>)
    requires forall j :: 0 <= j < |cs| ==> cs[j].index < |vectors|
    ensures |r| == |cs|
  {
    seq(|cs|, j requires 0 <= j < |cs| => vectors[cs[|cs| - 1 - j].index])
  }

  // Some of the vectors, in their original order.
  ghost predicate InOrder(vectors: seq<Vector>, kept: seq<Vector>)
  {
    exists at: seq<nat> :: Picks(vectors, kept, at)
  }

  ghost predicate Picks(vectors: seq<Vector>, kept: seq<Vector>, at: seq<nat>)
  {
    && |at| == |kept| && (forall j :: 0 <= j < |at| ==> at[j] < |vectors| && kept[j] == vectors[at[j]])
    && (forall j, k :: 0 <= j < k < |at| ==> at[j] < at[k])
  }

  /** Reverse compaction keeps exactly the vectors that are the last to detect some
      target, in the original order, and loses no target that the raw vectors cover. */
  method CompactReverse(detects: Detects, vectors: seq<Vector>, targets: set<Fault>) returns (kept: seq<Vector>)
    ensures CoversAs(detects, vectors, kept, targets)
    ensures |kept| == |Sweep(detects, vectors, |vectors|, targets)| <= |vectors|
    ensures InOrder(vectors, kept) && LastOnes(detects, vectors, targets, kept)
  {
    hide Sweep, Hits, Real, CoversAs, Kept, InOrder, LastOnes;
    var indices: seq<nat> := [];
    ghost var done: seq<Contribution> := [];
    ghost var all := Sweep(detects, vectors, |vectors|, targets);
    var remaining, n := targets, |vectors|;
    while n > 0 && remaining != {}
      invariant 0 <= n <= |vectors| && all == done + Sweep(detects, vectors, n, remaining)
      invariant |indices| == |done| && forall j :: 0 <= j < |done| ==> indices[j] == done[j].index
    {
      var newly := Hits(detects, vectors[n - 1], remaining);
      SweepStep(detects, vectors, n, remaining);
      if newly != {} {
        done := done + [Contribution(n - 1, newly)];
        indices := indices + [n - 1];
      }
      remaining := remaining - newly;
      n := n - 1;
    }
    SweepOver(detects, vectors, n, remaining);
    assert all == done;
    KeptCovers(detects, vectors, targets, all);
    KeptLast(detects, vectors, targets, all);
    // The indices went down, so sorting them is reversing them.
    kept := seq(|indices|, j requires 0 <= j < |indices| => vectors[indices[|indices| - 1 - j]]);
    assert kept == Kept(vectors, all) by { KeptIs(vectors, indices, all); }
  }

  lemma KeptIs(vectors: seq<Vector>, indices: seq<nat>, cs: seq<Contribution>)
    requires |indices| == |cs| && forall j :: 0 <= j < |cs| ==> indices[j] == cs[j].index < |vectors|
    ensures seq(|indices|, j requires 0 <= j < |indices| => vectors[indices[|indices| - 1 - j]]) == Kept(vectors, cs)
  {}

  lemma SweepOver(detects: Detects, vectors: seq<Vector>, n: nat, remaining: set<Fault>)
    requires n <= |vectors| && (n == 0 || remaining == {})
    ensures Sweep(detects, vectors, n, remaining) == []
  {}

  lemma KeptInOrder(vectors: seq<Vector>, cs: seq<Contribution>, detects: Detects, targets: set<Fault>)
    requires Real(detects, vectors, |vectors|, targets, cs)
    ensures forall j :: 0 <= j < |cs| ==> cs[j].index < |vectors|
    ensures InOrder(vectors, Kept(vectors, cs))
  {
    KeptPicks(detects, vectors, targets, cs);
    hide Picks;
  }

  lemma KeptCovers(detects: Detects, vectors: seq<Vector>, targets: set<Fault>, cs: seq<Contribution>)
    requires cs == Sweep(detects, vectors, |vectors|, targets)
    ensures |cs| <= |vectors| && forall j :: 0 <= j < |cs| ==> cs[j].index < |vectors|
    ensures CoversAs(detects, vectors, Kept(vectors, cs), targets)
    ensures InOrder(vectors, Kept(vectors, cs))
  {
    SweepReal(detects, vectors, |vectors|, targets);
    assert InOrder(vectors, Kept(vectors, cs)) by { KeptInOrder(vectors, cs, detects, targets); }
    hide InOrder;
    forall j | 0 <= j < |cs| ensures cs[j].index < |vectors| {
      assert RealAt(detects, vectors, |vectors|, targets, cs[j]);
    }
    IndicesFit(cs, |vectors|);
    hide Sweep;
    forall f | f in targets && CoveredBy(detects, vectors, f) ensures CoveredBy(detects, Kept(vectors, cs), f) {
      SweepCovers(detects, vectors, |vectors|, targets, f);
      var j :| Contributes(cs, f, j);
      assert RealAt(detects, vectors, |vectors|, targets, cs[j]);
      assert Kept(vectors, cs)[|cs| - 1 - j] == vectors[cs[j].index];
    }
  }

  lemma {:induction false} IndicesFit(cs: seq<Contribution>, n: nat)
    requires (forall j :: 0 <= j < |cs| ==> cs[j].index < n) && (forall j, k :: 0 <= j < k < |cs| ==> cs[j].index > cs[k].index)
    ensures |cs| <= n
  {
    if cs != [] {
      IndicesFit(cs[1..], cs[0].index);
    }
  }

  /* ---- cubes ---- */

  datatype Cube = Cube(spec: Vector, vector: Vector, newly: set<Fault>)

  // A cube being filled: its merged bits, its vector and the faults it must detect.
  datatype Open = Open(spec: Vector, members: set<Fault>, vector: Vector)

  predicate Compatible(a: Vector, b: Vector) { forall name :: name in b && name in a ==> a[name] == b[name] }

  // The targets stay detected whichever value the input takes, the others held.
  predicate DontCare(detects: Detects, v: Vector, name: string, targets: set<Fault>)
  {
    targets <= Hits(detects, v[name := false], targets) && targets <= Hits(detects, v[name := true], targets)
  }

  // Some target is lost at one of the input's two values, the others held.
  ghost predicate Matters(detects: Detects, v: Vector, name: string, targets: set<Fault>)
  {
    exists f :: f in targets && !(detects(v[name := false], f) && detects(v[name := true], f))
  }

  lemma MattersIs(detects: Detects, v: Vector, name: string, targets: set<Fault>)
    ensures DontCare(detects, v, name, targets) <==> !Matters(detects, v, name, targets)
  {
    var off, on := v[name := false], v[name := true];
    if DontCare(detects, v, name, targets) {
      forall f | f in targets ensures detects(off, f) && detects(on, f) {
        assert f in Hits(detects, off, targets) && f in Hits(detects, on, targets);
      }
    } else {
      var f :| f in targets && (f !in Hits(detects, off, targets) || f !in Hits(detects, on, targets));
      assert f !in Hits(detects, off, targets) ==> !detects(off, f);
      assert f !in Hits(detects, on, targets) ==> !detects(on, f);
    }
  }

  // The inputs that matter on their own, at their values.
  method ExtractCube(detects: Detects, v: Vector, inputs: seq<string>, targets: set<Fault>) returns (spec: Vector)
    ensures forall name :: name in spec <==> name in inputs && Matters(detects, v, name, targets)
    ensures forall name :: name in spec ==> spec[name] == (name in v && v[name])
  {
    forall name ensures DontCare(detects, v, name, targets) <==> !Matters(detects, v, name, targets) {
      MattersIs(detects, v, name, targets);
    }
    hide DontCare, Matters;
    spec := map[];
    for i := 0 to |inputs|
      invariant forall name :: name in spec <==> name in inputs[..i] && !DontCare(detects, v, name, targets)
      invariant forall name :: name in spec ==> spec[name] == (name in v && v[name])
    {
      var name := inputs[i];
      assert inputs[..i + 1] == inputs[..i] + [name];
      if !DontCare(detects, v, name, targets) {
        spec := spec[name := name in v && v[name]];
      }
    }
    assert inputs[..|inputs|] == inputs;
  }

  /** Bits that can each be flipped alone need not be flippable together, so a cube
      alone does not justify a merge. */
  lemma CubeNotEnough()
    ensures var either: Detects := (v, f) => ("a" in v && v["a"]) || ("b" in v && v["b"]);
            var v: Vector := map["a" := true, "b" := true];
            && Hits(either, v["a" := false], {0}) == {0} && Hits(either, v["b" := false], {0}) == {0}
            && Hits(either, v["a" := false]["b" := false], {0}) == {}
  {
    assert "a" != "b";
  }

  /* ---- when dropped inputs may be filled at will ---- */

  // The inputs that extraction drops.
  ghost predicate Drops(detects: Detects, v: Vector, inputs: set<string>, targets: set<Fault>, dropped: set<string>)
  {
    forall name :: name in inputs ==> (name in dropped <==> DontCare(detects, v, name, targets))
  }

  // Whatever the simulator and the targets, if these inputs are dropped then they
  // may be filled at will.
  ghost predicate FillsSafely(v: Vector, inputs: set<string>, dropped: set<string>)
  {
    forall detects: Detects, targets: set<Fault>, fill: Vector ::
      targets <= Hits(detects, v, targets) && Drops(detects, v, inputs, targets, dropped) && fill.Keys <= dropped
      ==> targets <= Hits(detects, v + fill, targets)
  }

  // The vector itself and every vector with one dropped input changed.
  ghost predicate NearBy(v: Vector, dropped: set<string>, u: Vector)
  {
    u == v || exists name :: name in dropped && (u == v[name := false] || u == v[name := true])
  }

  lemma OneFill(detects: Detects, v: Vector, inputs: set<string>, targets: set<Fault>, dropped: set<string>, fill: Vector)
    requires targets <= Hits(detects, v, targets) && Drops(detects, v, inputs, targets, dropped) && fill.Keys <= dropped <= inputs && |dropped| <= 1
    ensures targets <= Hits(detects, v + fill, targets)
  {
    if name :| name in fill {
      assert dropped == {name} by { OnlyOne(dropped, name); }
      assert DontCare(detects, v, name, targets);
      assert v + fill == v[name := fill[name]];
      assert v + fill == if fill[name] then v[name := true] else v[name := false];
    } else {
      assert v + fill == v;
    }
  }

  lemma OnlyOne(s: set<string>, x: string)
    requires x in s && |s| <= 1
    ensures s == {x}
  {
    assert |s - {x}| == 0;
    assert s == s - {x} + {x};
  }

  // A value the vector does not have there.
  function Other(v: Vector, name: string): bool { if name in v then !v[name] else false }

  lemma TwoFills(v: Vector, inputs: set<string>, dropped: set<string>, a: string, b: string)
    requires a in dropped && b in dropped && a != b && dropped <= inputs
    ensures !FillsSafely(v, inputs, dropped)
  {
    var detects: Detects := (u: Vector, f: Fault) => NearBy(v, dropped, u);
    var targets: set<Fault> := {0};
    var fill: Vector := map[a := Other(v, a), b := Other(v, b)];
    forall name | name in inputs ensures name in dropped <==> DontCare(detects, v, name, targets) {
      if name in dropped {
        assert NearBy(v, dropped, v[name := false]) && NearBy(v, dropped, v[name := true]);
      } else {
        var u := v[name := Other(v, name)];
        assert !NearBy(v, dropped, u) by { FarBy(v, dropped, u, name); }
        assert 0 !in Hits(detects, u, targets);
      }
    }
    assert Drops(detects, v, inputs, targets, dropped);
    assert NearBy(v, dropped, v);
    assert targets <= Hits(detects, v, targets);
    assert !NearBy(v, dropped, v + fill) by { FarByTwo(v, dropped, v + fill, a, b); }
    assert 0 !in Hits(detects, v + fill, targets);
    hide Hits, Drops, NearBy;
    assert fill.Keys <= dropped && !(targets <= Hits(detects, v + fill, targets));
  }

  lemma FarBy(v: Vector, dropped: set<string>, u: Vector, name: string)
    requires name !in dropped && name in u && (name in v ==> u[name] != v[name])
    ensures !NearBy(v, dropped, u)
  {}

  lemma FarByTwo(v: Vector, dropped: set<string>, u: Vector, a: string, b: string)
    requires a != b && a in u && b in u && (a in v ==> u[a] != v[a]) && (b in v ==> u[b] != v[b])
    ensures !NearBy(v, dropped, u)
  {}

  /** Filling the dropped inputs at will is safe for every simulator exactly when at
      most one input is dropped; beyond that only a merge that is simulated again is. */
  lemma CubeExact(v: Vector, inputs: set<string>, dropped: set<string>)
    requires dropped <= inputs
    ensures FillsSafely(v, inputs, dropped) <==> |dropped| <= 1
  {
    hide Hits, DontCare, Drops;
    if |dropped| <= 1 {
      forall detects: Detects, targets: set<Fault>, fill: Vector |
        targets <= Hits(detects, v, targets) && Drops(detects, v, inputs, targets, dropped) && fill.Keys <= dropped
        ensures targets <= Hits(detects, v + fill, targets)
      {
        OneFill(detects, v, inputs, targets, dropped, fill);
      }
    } else {
      var a :| a in dropped;
      assert |dropped - {a}| >= 1;
      var b :| b in dropped - {a};
      TwoFills(v, inputs, dropped, a, b);
    }
  }

  // Every open cube detects its members.
  ghost predicate OpenOk(detects: Detects, o: Open) { forall f :: f in o.members ==> detects(o.vector, f) }

  ghost predicate CubeOk(detects: Detects, c: Cube) { forall f :: f in c.newly ==> detects(c.vector, f) }

  ghost predicate InOpen(open: seq<Open>, f: Fault) { exists i :: 0 <= i < |open| && f in open[i].members }

  ghost predicate InCubes(cubes: seq<Cube>, f: Fault) { exists i :: 0 <= i < |cubes| && f in cubes[i].newly }

  function Alone(c: Cube): Open { Open(c.spec, c.newly, c.vector) }

  function Merged(o: Open, c: Cube): Open { Open(o.spec + c.spec, o.members + c.newly, o.vector + c.spec) }

  // No bit conflicts, and the merged vector detects the members of both.
  predicate Merges(detects: Detects, o: Open, c: Cube)
  {
    Compatible(o.spec, c.spec) && Merged(o, c).members <= Hits(detects, Merged(o, c).vector, Merged(o, c).members)
  }

  // The two agree where both are specified, and laying the cube's bits over the open
  // vector keeps every fault of both detected.
  ghost predicate CanMerge(detects: Detects, o: Open, c: Cube)
  {
    && (forall name :: name in o.spec && name in c.spec ==> o.spec[name] == c.spec[name])
    && (forall f :: f in o.members || f in c.newly ==> detects(o.vector + c.spec, f))
  }

  lemma MergesIs(detects: Detects, o: Open, c: Cube)
    ensures Merges(detects, o, c) <==> CanMerge(detects, o, c)
  {}

  // The open cubes after one more: merged into the first that takes it, or opened.
  ghost predicate PlacedIn(detects: Detects, open: seq<Open>, c: Cube, r: seq<Open>)
  {
    if exists i :: 0 <= i < |open| && CanMerge(detects, open[i], c) then
      exists i :: 0 <= i < |open| && CanMerge(detects, open[i], c) && (forall k :: 0 <= k < i ==> !CanMerge(detects, open[k], c))
                  && r == open[i := Open(open[i].spec + c.spec, open[i].members + c.newly, open[i].vector + c.spec)]
    else r == open + [Open(c.spec, c.newly, c.vector)]
  }

  // Put a cube into the first open one it merges with, or open a new one if there
  // is none.
  method PlaceCube(detects: Detects, open: seq<Open>, c: Cube) returns (r: seq<Open>)
    requires CubeOk(detects, c) && forall i :: 0 <= i < |open| ==> OpenOk(detects, open[i])
    ensures forall i :: 0 <= i < |r| ==> OpenOk(detects, r[i])
    ensures forall f :: InOpen(r, f) <==> InOpen(open, f) || f in c.newly
    ensures |r| <= |open| + 1 && PlacedIn(detects, open, c, r)
  {
    forall i | 0 <= i < |open| ensures Merges(detects, open[i], c) <==> CanMerge(detects, open[i], c) {
      MergesIs(detects, open[i], c);
    }
    hide Compatible, CanMerge;
    for i := 0 to |open|
      invariant forall k :: 0 <= k < i ==> !Merges(detects, open[k], c)
    {
      var o := open[i];
      if Merges(detects, o, c) {
        r := open[i := Merged(o, c)];
        MergedMembers(open, r, i, c.newly);
        return;
      }
    }
    r := open + [Alone(c)];
    AddedMembers(open, Alone(c));
  }

  // The open cubes after packing them one by one, and the vectors they give.
  ghost predicate PackedAs(detects: Detects, cubes: seq<Cube>, open: seq<Open>)
  {
    if cubes == [] then open == []
    else
      var rest, last := cubes[..|cubes| - 1], cubes[|cubes| - 1];
      exists before :: PackedAs(detects, rest, before) && PlacedIn(detects, before, last, open)
  }

  ghost predicate PackedInto(detects: Detects, cubes: seq<Cube>, packed: seq<Vector>)
  {
    exists open: seq<Open> :: PackedAs(detects, cubes, open) && |packed| == |open| && forall i :: 0 <= i < |open| ==> packed[i] == open[i].vector
  }

  // There is one packing.
  lemma PlacedOnce(detects: Detects, open: seq<Open>, c: Cube, a: seq<Open>, b: seq<Open>)
    requires PlacedIn(detects, open, c, a) && PlacedIn(detects, open, c, b)
    ensures a == b
  {
    hide CanMerge;
  }

  lemma {:induction false} PackedOnce(detects: Detects, cubes: seq<Cube>, a: seq<Open>, b: seq<Open>)
    requires PackedAs(detects, cubes, a) && PackedAs(detects, cubes, b)
    ensures a == b
    decreases |cubes|
  {
    if cubes != [] {
      var n := |cubes| - 1;
      var x :| PackedAs(detects, cubes[..n], x) && PlacedIn(detects, x, cubes[n], a);
      var y :| PackedAs(detects, cubes[..n], y) && PlacedIn(detects, y, cubes[n], b);
      hide PlacedIn;
      PackedOnce(detects, cubes[..n], x, y);
      PlacedOnce(detects, x, cubes[n], a, b);
    }
  }

  lemma MergedMembers(open: seq<Open>, r: seq<Open>, i: nat, newly: set<Fault>)
    requires i < |open| == |r| && r[i].members == open[i].members + newly && forall j :: 0 <= j < |open| && j != i ==> r[j] == open[j]
    ensures forall f :: InOpen(r, f) <==> InOpen(open, f) || f in newly
  {
    forall f ensures InOpen(r, f) <==> InOpen(open, f) || f in newly {
      if InOpen(open, f) {
        var j :| 0 <= j < |open| && f in open[j].members;
        assert f in r[j].members;
      }
      if f in newly {
        assert f in r[i].members;
      }
    }
  }

  lemma AddedMembers(open: seq<Open>, o: Open)
    ensures forall f :: InOpen(open + [o], f) <==> InOpen(open, f) || f in o.members
  {
    var r := open + [o];
    forall f ensures InOpen(r, f) <==> InOpen(open, f) || f in o.members {
      if InOpen(open, f) {
        var j :| 0 <= j < |open| && f in open[j].members;
        assert f in r[j].members;
      }
      if f in o.members {
        assert f in r[|open|].members;
      }
    }
  }

  /** Packing cubes in any order: no more vectors than cubes, and every fault of
      every cube is detected. */
  method PackCubes(detects: Detects, cubes: seq<Cube>) returns (packed: seq<Vector>)
    requires forall i :: 0 <= i < |cubes| ==> CubeOk(detects, cubes[i])
    ensures |packed| <= |cubes| && PackedInto(detects, cubes, packed)
    ensures forall f :: InCubes(cubes, f) ==> CoveredBy(detects, packed, f)
  {
    hide OpenOk, CubeOk, InOpen, InCubes, Merges, Merged, Alone, PlacedIn;
    var open: seq<Open> := [];
    assert forall f :: !InOpen(open, f) && !InCubes([], f) by { NoMembers(); }
    assert cubes[..0] == [];
    for n := 0 to |cubes|
      invariant |open| <= n && forall i :: 0 <= i < |open| ==> OpenOk(detects, open[i])
      invariant forall f :: InCubes(cubes[..n], f) ==> InOpen(open, f)
      invariant PackedAs(detects, cubes[..n], open)
    {
      ghost var before := open;
      open := PlaceCube(detects, open, cubes[n]);
      PackedMore(detects, cubes, n, before, open);
      forall f | InCubes(cubes[..n + 1], f) ensures InOpen(open, f) {
        CubesMore(cubes, n, f);
      }
    }
    assert cubes[..|cubes|] == cubes;
    packed := seq(|open|, i requires 0 <= i < |open| => open[i].vector);
    forall f | InCubes(cubes, f) ensures CoveredBy(detects, packed, f) {
      OpenCovers(detects, open, packed, f);
    }
  }

  lemma PackedMore(detects: Detects, cubes: seq<Cube>, n: nat, before: seq<Open>, open: seq<Open>)
    requires n < |cubes| && PackedAs(detects, cubes[..n], before) && PlacedIn(detects, before, cubes[n], open)
    ensures PackedAs(detects, cubes[..n + 1], open)
  {
    hide PlacedIn;
    assert cubes[..n + 1][..n] == cubes[..n];
  }

  lemma NoMembers()
    ensures forall f :: !InOpen([], f) && !InCubes([], f)
  {}

  lemma CubesMore(cubes: seq<Cube>, n: nat, f: Fault)
    requires n < |cubes|
    ensures InCubes(cubes[..n + 1], f) ==> InCubes(cubes[..n], f) || f in cubes[n].newly
  {
    if InCubes(cubes[..n + 1], f) {
      var i :| 0 <= i < |cubes[..n + 1]| && f in cubes[..n + 1][i].newly;
      if i < n {
        assert cubes[..n][i] == cubes[..n + 1][i];
      }
    }
  }

  lemma OpenCovers(detects: Detects, open: seq<Open>, packed: seq<Vector>, f: Fault)
    requires InOpen(open, f) && |packed| == |open| && forall i :: 0 <= i < |open| ==> OpenOk(detects, open[i]) && packed[i] == open[i].vector
    ensures CoveredBy(detects, packed, f)
  {
    var i :| 0 <= i < |open| && f in open[i].members;
    assert OpenOk(detects, open[i]);
    assert detects(packed[i], f);
  }

  /* ---- dynamic compaction ---- */

  // A packing order: some permutation of the cubes.
  type Order = (nat, seq<Cube>) -> seq<Cube>

  // The first order tried is the one the cubes come in.
  ghost predicate Permutes(order: Order) { forall k, cs :: multiset(order(k, cs)) == multiset(cs) && order(0, cs) == cs }

  lemma PermutedCubes(a: seq<Cube>, b: seq<Cube>)
    requires multiset(a) == multiset(b)
    ensures |a| == |b| && forall c :: c in a <==> c in b
  {
    assert |multiset(a)| == |multiset(b)|;
    forall c ensures c in a <==> c in b {
      assert c in multiset(a) <==> c in multiset(b);
    }
  }

  // The contributing vectors and what each newly covers, as the sweep selects them.
  method Contributions(detects: Detects, vectors: seq<Vector>, targets: set<Fault>) returns (cs: seq<Contribution>)
    ensures cs == Sweep(detects, vectors, |vectors|, targets)
  {
    hide Sweep, Hits;
    cs := [];
    ghost var all := Sweep(detects, vectors, |vectors|, targets);
    var remaining, n := targets, |vectors|;
    while n > 0 && remaining != {}
      invariant 0 <= n <= |vectors| && all == cs + Sweep(detects, vectors, n, remaining)
    {
      var newly := Hits(detects, vectors[n - 1], remaining);
      SweepStep(detects, vectors, n, remaining);
      if newly != {} {
        cs := cs + [Contribution(n - 1, newly)];
      }
      remaining := remaining - newly;
      n := n - 1;
    }
    SweepOver(detects, vectors, n, remaining);
  }

  // More new faults than this and a vector stays fully specified.
  const DENSE_FAULTS := 8

  // The cube of one contribution: all inputs when it covers more than eight new
  // faults, else those that matter on their own.
  ghost predicate CubeOf(detects: Detects, vectors: seq<Vector>, inputs: seq<string>, c: Contribution, cube: Cube)
    requires c.index < |vectors|
  {
    var v := vectors[c.index];
    && cube.vector == v && cube.newly == c.newly
    && (forall name :: name in cube.spec <==> name in inputs && (|c.newly| > 8 || Matters(detects, v, name, c.newly)))
    && (forall name :: name in cube.spec ==> cube.spec[name] == (name in v && v[name]))
  }

  ghost predicate CubesOf(detects: Detects, vectors: seq<Vector>, inputs: seq<string>, cs: seq<Contribution>, cubes: seq<Cube>)
    requires forall j :: 0 <= j < |cs| ==> cs[j].index < |vectors|
  {
    |cubes| == |cs| && forall j :: 0 <= j < |cs| ==> CubeOf(detects, vectors, inputs, cs[j], cubes[j])
  }

  method MakeCubes(detects: Detects, vectors: seq<Vector>, inputs: seq<string>, cs: seq<Contribution>) returns (cubes: seq<Cube>)
    requires forall j :: 0 <= j < |cs| ==> cs[j].index < |vectors| && forall f :: f in cs[j].newly ==> detects(vectors[cs[j].index], f)
    ensures CubesOf(detects, vectors, inputs, cs, cubes) && forall j :: 0 <= j < |cs| ==> CubeOk(detects, cubes[j])
  {
    hide Matters;
    cubes := [];
    for j := 0 to |cs|
      invariant |cubes| == j && forall k :: 0 <= k < j ==> CubeOk(detects, cubes[k]) && CubeOf(detects, vectors, inputs, cs[k], cubes[k])
    {
      var v := vectors[cs[j].index];
      var spec;
      if |cs[j].newly| > DENSE_FAULTS {
        spec := map name | name in inputs :: name in v && v[name];
      } else {
        spec := ExtractCube(detects, v, inputs, cs[j].newly);
      }
      cubes := cubes + [Cube(spec, v, cs[j].newly)];
    }
  }

  // The packing of the first order that packs into fewest vectors.
  ghost predicate BestPacking(detects: Detects, cubes: seq<Cube>, order: Order, orders: nat, best: seq<Vector>)
  {
    && (exists k :: FirstWith(detects, cubes, order, orders, best, k))
    && forall k, other :: 0 <= k < orders && PackedInto(detects, order(k, cubes), other) ==> |best| <= |other|
  }

  // Order k packs like this, and every order before it into more vectors.
  ghost predicate FirstWith(detects: Detects, cubes: seq<Cube>, order: Order, orders: nat, best: seq<Vector>, k: nat)
  {
    && k < orders && PackedInto(detects, order(k, cubes), best)
    && forall j, other :: 0 <= j < k && PackedInto(detects, order(j, cubes), other) ==> |best| < |other|
  }

  lemma OnePacking(detects: Detects, cubes: seq<Cube>, a: seq<Vector>, b: seq<Vector>)
    requires PackedInto(detects, cubes, a) && PackedInto(detects, cubes, b)
    ensures a == b
  {
    hide PackedAs;
    var x: seq<Open> :| PackedAs(detects, cubes, x) && |a| == |x| && forall i :: 0 <= i < |x| ==> a[i] == x[i].vector;
    var y: seq<Open> :| PackedAs(detects, cubes, y) && |b| == |y| && forall i :: 0 <= i < |y| ==> b[i] == y[i].vector;
    PackedOnce(detects, cubes, x, y);
  }

  lemma BestMore(detects: Detects, cubes: seq<Cube>, order: Order, k: nat, best: seq<Vector>, candidate: seq<Vector>)
    requires BestPacking(detects, cubes, order, k, best) && PackedInto(detects, order(k, cubes), candidate)
    ensures BestPacking(detects, cubes, order, k + 1, if |candidate| < |best| then candidate else best)
  {
    hide PackedInto;
    var next := if |candidate| < |best| then candidate else best;
    forall i, other | 0 <= i < k + 1 && PackedInto(detects, order(i, cubes), other) ensures |next| <= |other| {
      if i == k {
        OnePacking(detects, order(k, cubes), candidate, other);
      }
    }
    var i :| FirstWith(detects, cubes, order, k, best, i);
    var j := if |candidate| < |best| then k else i;
    assert FirstWith(detects, cubes, order, k + 1, next, j);
  }

  lemma BestFirst(detects: Detects, cubes: seq<Cube>, order: Order, best: seq<Vector>)
    requires PackedInto(detects, order(0, cubes), best)
    ensures BestPacking(detects, cubes, order, 1, best)
  {
    hide PackedInto;
    forall i, other | 0 <= i < 1 && PackedInto(detects, order(i, cubes), other) ensures |best| <= |other| {
      OnePacking(detects, order(0, cubes), best, other);
    }
    assert FirstWith(detects, cubes, order, 1, best, 0);
  }

  // The best packing over the orders tried, the cubes' own order first.
  method PackBest(detects: Detects, cubes: seq<Cube>, order: Order, orders: nat) returns (best: seq<Vector>)
    requires Permutes(order) && forall i :: 0 <= i < |cubes| ==> CubeOk(detects, cubes[i])
    ensures |best| <= |cubes| && forall f :: InCubes(cubes, f) ==> CoveredBy(detects, best, f)
    ensures BestPacking(detects, cubes, order, if orders < 1 then 1 else orders, best)
  {
    hide CubeOk, CoveredBy, BestPacking, PackedInto;
    best := PackOrdered(detects, cubes, order, 0);
    BestFirst(detects, cubes, order, best);
    for k := 1 to (if orders < 1 then 1 else orders)
      invariant |best| <= |cubes| && forall f :: InCubes(cubes, f) ==> CoveredBy(detects, best, f)
      invariant BestPacking(detects, cubes, order, k, best)
    {
      var candidate := PackOrdered(detects, cubes, order, k);
      BestMore(detects, cubes, order, k, best, candidate);
      if |candidate| < |best| {
        best := candidate;
      }
    }
  }

  method PackOrdered(detects: Detects, cubes: seq<Cube>, order: Order, k: nat) returns (packed: seq<Vector>)
    requires Permutes(order) && forall i :: 0 <= i < |cubes| ==> CubeOk(detects, cubes[i])
    ensures |packed| <= |cubes| && forall f :: InCubes(cubes, f) ==> CoveredBy(detects, packed, f)
    ensures PackedInto(detects, order(k, cubes), packed)
  {
    hide CubeOk, CoveredBy, PackedInto;
    var ordered := order(k, cubes);
    PermutedCubes(ordered, cubes);
    forall i | 0 <= i < |ordered| ensures CubeOk(detects, ordered[i]) {
      assert ordered[i] in cubes;
    }
    packed := PackCubes(detects, ordered);
    forall f | InCubes(cubes, f) ensures CoveredBy(detects, packed, f) {
      var i :| 0 <= i < |cubes| && f in cubes[i].newly;
      assert cubes[i] in ordered;
      assert InCubes(ordered, f);
    }
  }

  function Detected(detects: Detects, vectors: seq<Vector>, targets: set<Fault>): set<Fault>
  {
    set f, i | f in targets && 0 <= i < |vectors| && detects(vectors[i], f) :: f
  }

  lemma DetectedIs(detects: Detects, vectors: seq<Vector>, targets: set<Fault>, f: Fault)
    ensures f in Detected(detects, vectors, targets) <==> f in targets && CoveredBy(detects, vectors, f)
  {}

  // The best packing of the cubes of the reverse sweep's contributions.
  ghost predicate PackedSweep(detects: Detects, vectors: seq<Vector>, inputs: seq<string>, targets: set<Fault>, order: Order, orders: nat, result: seq<Vector>)
  {
    var cs := Sweep(detects, vectors, |vectors|, targets);
    && (forall j :: 0 <= j < |cs| ==> cs[j].index < |vectors|)
    && exists cubes :: CubesOf(detects, vectors, inputs, cs, cubes) && BestPacking(detects, cubes, order, orders, result)
  }

  // The packing of the sweep leaves some target undetected.
  ghost predicate PackingMisses(detects: Detects, vectors: seq<Vector>, inputs: seq<string>, targets: set<Fault>, order: Order, orders: nat)
  {
    forall packed :: PackedSweep(detects, vectors, inputs, targets, order, orders, packed) ==> exists f :: f in targets && !CoveredBy(detects, packed, f)
  }

  lemma CubesOnce(detects: Detects, vectors: seq<Vector>, inputs: seq<string>, cs: seq<Contribution>, a: seq<Cube>, b: seq<Cube>)
    requires forall j :: 0 <= j < |cs| ==> cs[j].index < |vectors|
    requires CubesOf(detects, vectors, inputs, cs, a) && CubesOf(detects, vectors, inputs, cs, b)
    ensures a == b
  {
    hide Matters;
    forall j | 0 <= j < |cs| ensures a[j] == b[j] {
      assert CubeOf(detects, vectors, inputs, cs[j], a[j]) && CubeOf(detects, vectors, inputs, cs[j], b[j]);
      assert a[j].spec == b[j].spec;
    }
  }

  lemma BestOnce(detects: Detects, cubes: seq<Cube>, order: Order, orders: nat, a: seq<Vector>, b: seq<Vector>)
    requires BestPacking(detects, cubes, order, orders, a) && BestPacking(detects, cubes, order, orders, b)
    ensures a == b
  {
    hide PackedInto;
    var i: nat :| FirstWith(detects, cubes, order, orders, a, i);
    var j: nat :| FirstWith(detects, cubes, order, orders, b, j);
    OnePacking(detects, order(i, cubes), a, if i == j then b else a);
  }

  // There is one best packing of the sweep.
  lemma SweepOnce(detects: Detects, vectors: seq<Vector>, inputs: seq<string>, targets: set<Fault>, order: Order, orders: nat, a: seq<Vector>, b: seq<Vector>)
    requires PackedSweep(detects, vectors, inputs, targets, order, orders, a) && PackedSweep(detects, vectors, inputs, targets, order, orders, b)
    ensures a == b
  {
    hide Sweep, CubesOf, BestPacking;
    var cs := Sweep(detects, vectors, |vectors|, targets);
    var x :| CubesOf(detects, vectors, inputs, cs, x) && BestPacking(detects, x, order, orders, a);
    var y :| CubesOf(detects, vectors, inputs, cs, y) && BestPacking(detects, y, order, orders, b);
    CubesOnce(detects, vectors, inputs, cs, x, y);
    BestOnce(detects, x, order, orders, a, b);
  }

  /** Dynamic compaction, whatever the packing orders: no target the raw vectors
      cover is lost, there are no more vectors than reverse compaction keeps, and it
      falls back to reverse exactly if the packing leaves some target undetected, which
      then no raw vector detects. */
  method CompactDynamic(detects: Detects, vectors: seq<Vector>, inputs: seq<string>, targets: set<Fault>, order: Order, orders: nat)
    returns (result: seq<Vector>, fellBack: bool)
    requires Permutes(order)
    ensures CoversAs(detects, vectors, result, targets)
    ensures |result| <= |Sweep(detects, vectors, |vectors|, targets)|
    ensures fellBack ==> exists f :: f in targets && !CoveredBy(detects, vectors, f)
    ensures !fellBack ==> forall f :: f in targets ==> CoveredBy(detects, result, f)
    ensures fellBack ==> PackingMisses(detects, vectors, inputs, targets, order, if orders < 1 then 1 else orders)
    ensures !fellBack ==> PackedSweep(detects, vectors, inputs, targets, order, if orders < 1 then 1 else orders, result)
    ensures fellBack ==> InOrder(vectors, result) && LastOnes(detects, vectors, targets, result)
  {
    hide Sweep, BestPacking, InOrder, LastOnes, Matters;
    var cs := Contributions(detects, vectors, targets);
    SweepReal(detects, vectors, |vectors|, targets);
    forall j | 0 <= j < |cs| ensures cs[j].index < |vectors| && forall f :: f in cs[j].newly ==> detects(vectors[cs[j].index], f) {
      assert RealAt(detects, vectors, |vectors|, targets, cs[j]);
    }
    var cubes := MakeCubes(detects, vectors, inputs, cs);
    var packed := PackBest(detects, cubes, order, orders);
    forall f | f in targets && CoveredBy(detects, vectors, f) ensures CoveredBy(detects, packed, f) {
      SweepCovers(detects, vectors, |vectors|, targets, f);
      var j :| Contributes(cs, f, j);
      assert f in cubes[j].newly;
      assert InCubes(cubes, f);
    }
    ghost var tried := if orders < 1 then 1 else orders;
    assert BestPacking(detects, cubes, order, tried, packed);
    assert PackedSweep(detects, vectors, inputs, targets, order, tried, packed);
    forall f ensures f in Detected(detects, packed, targets) <==> f in targets && CoveredBy(detects, packed, f) {
      DetectedIs(detects, packed, targets, f);
    }
    hide PackedSweep, Detected;
    if !(targets <= Detected(detects, packed, targets)) || |packed| > |cs| {
      var f :| f in targets && f !in Detected(detects, packed, targets);
      assert !CoveredBy(detects, vectors, f) && !CoveredBy(detects, packed, f);
      forall other | PackedSweep(detects, vectors, inputs, targets, order, tried, other) ensures other == packed {
        SweepOnce(detects, vectors, inputs, targets, order, tried, other, packed);
      }
      result := CompactReverse(detects, vectors, targets);
      return result, true;
    }
    return packed, false;
  }
}
