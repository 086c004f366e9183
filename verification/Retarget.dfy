/** Retargeting a block's scan pattern to SoC chains (faultflow/retarget/transform.py,
    faultflow/retarget/soc_access.py): the block's bits are placed at its segments
    of longer chains, everything else is don't-care and masked. */
module Retarget {
  import opened Netlist
  import opened ShiftRegister

  // A stretch of a SoC chain; without a block chain it is a bypass or a sibling.
  datatype Segment = Segment(block: string, chain: Option<nat>, offset: nat, length: nat)

  datatype SocChain = SocChain(index: nat, length: nat, segments: seq<Segment>)

  // Load and expected-unload bits, by chain.
  datatype BlockPattern = BlockPattern(load: map<nat, seq<bool>>, unload: map<nat, seq<bool>>)

  datatype SocPattern = SocPattern(load: map<nat, seq<bool>>, unload: map<nat, seq<bool>>, mask: map<nat, seq<bool>>)

  /* ---- the access map ---- */

  // Each segment starts where the one before ends, and the last ends the chain.
  ghost predicate Tiles(segs: seq<Segment>, length: int)
  {
    if segs == [] then length == 0
    else segs[|segs| - 1].offset + segs[|segs| - 1].length == length && Tiles(segs[..|segs| - 1], segs[|segs| - 1].offset)
  }

  // Stable insertion by offset.
  function Insert(sorted: seq<Segment>, s: Segment): (r: seq<Segment>)
    ensures multiset(r) == multiset(sorted) + multiset{s}
  {
    if sorted == [] || sorted[|sorted| - 1].offset <= s.offset then sorted + [s]
    else
      assert sorted == sorted[..|sorted| - 1] + [sorted[|sorted| - 1]];
      Insert(sorted[..|sorted| - 1], s) + [sorted[|sorted| - 1]]
  }

  function SortByOffset(segs: seq<Segment>): (r: seq<Segment>)
    ensures multiset(r) == multiset(segs)
  {
    if segs == [] then []
    else
      assert segs == segs[..|segs| - 1] + [segs[|segs| - 1]];
      Insert(SortByOffset(segs[..|segs| - 1]), segs[|segs| - 1])
  }

  /** The segments, sorted stably by offset, when they then tile the chain, an error
      otherwise; ParseExact says which lists those are. */
  method ParseChain(raw: seq<Segment>, length: int) returns (r: Option<seq<Segment>>)
    ensures r.Some? <==> raw != [] && Tiles(SortByOffset(raw), length)
    ensures r.Some? ==> multiset(r.value) == multiset(raw) && Tiles(r.value, length)
  {
    hide SortByOffset;
    if raw == [] {
      return None;
    }
    var sorted := SortByOffset(raw);
    var covered := 0;
    for j := 0 to |sorted|
      invariant Tiles(sorted[..j], covered)
    {
      assert sorted[..j + 1][..j] == sorted[..j];
      if sorted[j].offset != covered {
        GapStays(sorted, j, |sorted|, covered, length);
        return None;
      }
      covered := covered + sorted[j].length;
    }
    assert sorted[..|sorted|] == sorted;
    if covered != length {
      TileOne(sorted, covered, length);
      return None;
    }
    r := Some(sorted);
  }

  // What a sequence covers is determined.
  lemma TileOne(segs: seq<Segment>, a: int, b: int)
    requires Tiles(segs, a) && a != b
    ensures !Tiles(segs, b)
  {}

  // A gap is never closed by later segments.
  lemma {:induction false} GapStays(segs: seq<Segment>, j: nat, n: nat, covered: int, length: int)
    requires j < n <= |segs| && Tiles(segs[..j], covered) && segs[j].offset != covered
    ensures !Tiles(segs[..n], length)
    ensures n == |segs| ==> !Tiles(segs, length)
    decreases n
  {
    assert segs[..n][..n - 1] == segs[..n - 1];
    if n - 1 > j {
      GapStays(segs, j, n - 1, covered, segs[n - 1].offset);
    } else {
      if Tiles(segs[..j], segs[j].offset) {
        TileOne(segs[..j], covered, segs[j].offset);
      }
    }
    assert n == |segs| ==> segs[..n] == segs;
  }

  /* ---- which access maps are accepted ---- */

  ghost predicate ByOffset(segs: seq<Segment>) { forall i, j :: 0 <= i < j < |segs| ==> segs[i].offset <= segs[j].offset }

  // Of the segments at one offset, the empty ones are listed first.
  ghost predicate EmptyFirst(segs: seq<Segment>)
  {
    forall i, j :: 0 <= i < j < |segs| && segs[i].offset == segs[j].offset && segs[j].length == 0 ==> segs[i].length == 0
  }

  lemma {:induction false} InsertKeeps(sorted: seq<Segment>, s: Segment)
    requires ByOffset(sorted)
    ensures ByOffset(Insert(sorted, s)) && (EmptyFirst(Insert(sorted, s)) <==> EmptyFirst(sorted + [s]))
  {
    if sorted != [] && sorted[|sorted| - 1].offset > s.offset {
      var front, last := sorted[..|sorted| - 1], sorted[|sorted| - 1];
      InsertKeeps(front, s);
      assert Insert(sorted, s) == Insert(front, s) + [last] && sorted == front + [last];
      EndsLast(front, Insert(front, s), s, last);
      hide Insert, EmptyFirst, ByOffset;
      MovedPast(front, Insert(front, s), s, last);
    }
  }

  lemma EndsLast(front: seq<Segment>, r: seq<Segment>, s: Segment, last: Segment)
    requires ByOffset(front + [last]) && ByOffset(r) && s.offset < last.offset && multiset(r) == multiset(front) + multiset{s}
    ensures ByOffset(r + [last])
  {
    forall i | 0 <= i < |r| ensures r[i].offset <= last.offset {
      assert r[i] in multiset(front) + multiset{s};
      if r[i] in front {
        var k :| 0 <= k < |front| && front[k] == r[i];
        assert (front + [last])[k] == r[i] && (front + [last])[|front|] == last;
      }
    }
  }

  // Moving a segment past one with a larger offset changes nothing about the groups.
  lemma MovedPast(front: seq<Segment>, r: seq<Segment>, s: Segment, last: Segment)
    requires multiset(r) == multiset(front) + multiset{s} && s.offset < last.offset && (EmptyFirst(r) <==> EmptyFirst(front + [s]))
    ensures EmptyFirst(r + [last]) <==> EmptyFirst(front + [last] + [s])
  {
    GroupMore(r, last);
    GroupMore(front + [last], s);
    GroupMore(front, last);
    GroupMore(front, s);
    forall x ensures x in r <==> x in front || x == s {
      assert x in multiset(r) <==> x in multiset(front) + multiset{s};
    }
    forall x ensures x in front + [last] <==> x in front || x == last {}
    hide EmptyFirst;
  }

  ghost predicate Clash(x: Segment, s: Segment) { x.offset == s.offset && s.length == 0 && x.length != 0 }

  lemma GroupMore(segs: seq<Segment>, s: Segment)
    ensures EmptyFirst(segs + [s]) <==> EmptyFirst(segs) && forall x :: x in segs ==> !Clash(x, s)
  {
    var all := segs + [s];
    if EmptyFirst(all) {
      forall x | x in segs ensures !Clash(x, s) {
        var i :| 0 <= i < |segs| && segs[i] == x;
        assert all[i] == x && all[|segs|] == s;
      }
      assert forall i :: 0 <= i < |segs| ==> all[i] == segs[i];
    }
    if EmptyFirst(segs) && forall x :: x in segs ==> !Clash(x, s) {
      forall i, j | 0 <= i < j < |all| && all[i].offset == all[j].offset && all[j].length == 0 ensures all[i].length == 0 {
        if j == |segs| {
          assert !Clash(segs[i], s);
        }
      }
    }
  }

  /** Sorting by offset is stable: it leaves the groups of one offset as they were. */
  lemma {:induction false} SortKeeps(segs: seq<Segment>)
    ensures ByOffset(SortByOffset(segs)) && (EmptyFirst(SortByOffset(segs)) <==> EmptyFirst(segs))
  {
    hide *;
    SortNone();
    if segs != [] {
      var front, s := segs[..|segs| - 1], segs[|segs| - 1];
      SortKeeps(front);
      SortStep(segs);
      InsertKeeps(SortByOffset(front), s);
      SameGroups(SortByOffset(front), front, s);
      assert segs == front + [s];
    }
  }

  lemma SortNone()
    ensures ByOffset(SortByOffset([])) && EmptyFirst(SortByOffset([])) && EmptyFirst([])
  {}

  lemma SortStep(segs: seq<Segment>)
    requires segs != []
    ensures SortByOffset(segs) == Insert(SortByOffset(segs[..|segs| - 1]), segs[|segs| - 1])
  {
    hide Insert;
  }

  lemma SameGroups(t: seq<Segment>, front: seq<Segment>, s: Segment)
    requires multiset(t) == multiset(front) && (EmptyFirst(t) <==> EmptyFirst(front))
    ensures EmptyFirst(t + [s]) <==> EmptyFirst(front + [s])
  {
    GroupMore(t, s);
    GroupMore(front, s);
    hide EmptyFirst;
    forall x ensures x in t <==> x in front {
      assert x in multiset(t) <==> x in multiset(front);
    }
  }

  // Only offsets and lengths matter for tiling.
  ghost predicate SameShape(a: seq<Segment>, b: seq<Segment>)
  {
    |a| == |b| && forall i :: 0 <= i < |a| ==> a[i].offset == b[i].offset && a[i].length == b[i].length
  }

  lemma {:induction false} ShapeTiles(a: seq<Segment>, b: seq<Segment>, length: int)
    requires SameShape(a, b) && Tiles(a, length)
    ensures Tiles(b, length)
    decreases |a|
  {
    if a != [] {
      ShapeTiles(a[..|a| - 1], b[..|b| - 1], a[|a| - 1].offset);
    }
  }

  // By offset, and by length within one offset.
  ghost predicate InShape(segs: seq<Segment>)
  {
    forall i, j :: 0 <= i < j < |segs| ==> Precedes(segs[i], segs[j])
  }

  predicate Precedes(a: Segment, b: Segment) { a.offset < b.offset || (a.offset == b.offset && a.length <= b.length) }

  lemma {:induction false} TilesInShape(segs: seq<Segment>, length: int)
    requires Tiles(segs, length)
    ensures InShape(segs) && EmptyFirst(segs)
    ensures forall i :: 0 <= i < |segs| ==> segs[i].offset + segs[i].length <= length
    ensures forall i, j :: 0 <= i < j < |segs| && segs[i].offset == segs[j].offset ==> segs[i].length == 0
  {
    if segs != [] {
      TilesInShape(segs[..|segs| - 1], segs[|segs| - 1].offset);
    }
  }

  // Two arrangements of the same segments in that order have the same shape.
  lemma {:induction false} OneShape(a: seq<Segment>, b: seq<Segment>)
    requires multiset(a) == multiset(b) && InShape(a) && InShape(b)
    ensures SameShape(a, b)
    decreases |a|
  {
    assert |a| == |multiset(a)| == |multiset(b)| == |b|;
    if a != [] {
      var n := |a| - 1;
      var x := a[n];
      LastIs(a, b);
      LastIs(b, a);
      assert x in b by { assert x in multiset(a); }
      var b' := SwapEnd(b, x);
      SameFront(a, b');
      OneShape(a[..n], b'[..n]);
    }
  }

  lemma SameFront(a: seq<Segment>, b: seq<Segment>)
    requires |a| == |b| > 0 && multiset(a) == multiset(b) && a[|a| - 1] == b[|b| - 1]
    ensures multiset(a[..|a| - 1]) == multiset(b[..|b| - 1])
  {
    assert a == a[..|a| - 1] + [a[|a| - 1]] && b == b[..|b| - 1] + [b[|b| - 1]];
    assert multiset(a[..|a| - 1]) == multiset(a) - multiset{a[|a| - 1]};
    assert multiset(b[..|b| - 1]) == multiset(b) - multiset{b[|b| - 1]};
  }

  // No segment of b comes after a's last.
  lemma LastIs(a: seq<Segment>, b: seq<Segment>)
    requires multiset(a) == multiset(b) && InShape(a) && a != [] && b != []
    ensures Precedes(b[|b| - 1], a[|a| - 1])
  {
    var y := b[|b| - 1];
    assert y in multiset(b);
    assert y in a;
    var i :| 0 <= i < |a| && a[i] == y;
  }

  // An equally shaped member of b brought to its end.
  lemma SwapEnd(b: seq<Segment>, x: Segment) returns (r: seq<Segment>)
    requires b != [] && x in b && InShape(b) && x.offset == b[|b| - 1].offset && x.length == b[|b| - 1].length
    ensures |r| == |b| && r[|r| - 1] == x && multiset(r) == multiset(b) && SameShape(r, b) && InShape(r) && InShape(r[..|r| - 1])
  {
    var n := |b| - 1;
    var i :| 0 <= i < |b| && b[i] == x;
    r := b[i := b[n]][n := x];
    SwapSame(b, i, n);
    forall k, l | 0 <= k < l < |r| ensures Precedes(r[k], r[l]) {
      assert k != l && Precedes(b[k], b[l]) && Precedes(b[k], b[n]);
      assert l < n ==> Precedes(b[l], b[n]);
      assert i < n ==> Precedes(b[i], b[n]);
    }
  }

  lemma SwapSame(b: seq<Segment>, i: nat, n: nat)
    requires i < |b| && n < |b|
    ensures multiset(b[i := b[n]][n := b[i]]) == multiset(b)
  {}

  ghost predicate Arrangement(raw: seq<Segment>, segs: seq<Segment>, length: int) { multiset(segs) == multiset(raw) && Tiles(segs, length) }

  /** Segments that can be arranged to tile the chain are accepted exactly when no
      empty segment is listed after one of the same offset that is not; in
      particular always when every segment has bits. */
  lemma ParseExact(raw: seq<Segment>, segs: seq<Segment>, length: int)
    requires Arrangement(raw, segs, length)
    ensures Tiles(SortByOffset(raw), length) <==> EmptyFirst(raw)
  {
    var sorted := SortByOffset(raw);
    SortKeeps(raw);
    TilesInShape(segs, length);
    if Tiles(sorted, length) {
      TilesInShape(sorted, length);
    } else if EmptyFirst(sorted) {
      OnePositive(segs, sorted);
      OneShape(segs, sorted);
      ShapeTiles(segs, sorted, length);
    }
  }

  // Sorted, empty first and with at most one segment that is not at each offset.
  lemma OnePositive(segs: seq<Segment>, sorted: seq<Segment>)
    requires multiset(segs) == multiset(sorted) && ByOffset(sorted) && EmptyFirst(sorted)
    requires forall i, j :: 0 <= i < j < |segs| && segs[i].offset == segs[j].offset ==> segs[i].length == 0
    ensures InShape(sorted)
  {
    forall i, j | 0 <= i < j < |sorted| ensures Precedes(sorted[i], sorted[j]) {
      if sorted[i].offset == sorted[j].offset && sorted[j].length < sorted[i].length {
        TwoOf(segs, sorted, i, j);
      }
    }
  }

  lemma TwoOf(segs: seq<Segment>, sorted: seq<Segment>, i: nat, j: nat)
    requires multiset(segs) == multiset(sorted) && i < j < |sorted| && sorted[i] != sorted[j] && sorted[i].offset == sorted[j].offset
    requires forall k, l :: 0 <= k < l < |segs| && segs[k].offset == segs[l].offset ==> segs[k].length == 0
    ensures sorted[i].length == 0 || sorted[j].length == 0
  {
    assert sorted[i] in multiset(segs) && sorted[j] in multiset(segs);
    var k :| 0 <= k < |segs| && segs[k] == sorted[i];
    var l :| 0 <= l < |segs| && segs[l] == sorted[j];
  }

  /** An empty segment listed second at offset 0 is refused, although the other order
      tiles the chain. */
  lemma EmptyRefused(block: string)
    ensures var full, empty := Segment(block, Some(0), 0, 3), Segment(block, None, 0, 0);
            Arrangement([full, empty], [empty, full], 3) && !Tiles(SortByOffset([full, empty]), 3)
  {
    var full, empty := Segment(block, Some(0), 0, 3), Segment(block, None, 0, 0);
    var raw, good := [full, empty], [empty, full];
    assert good[..1] == [empty] && [empty][..0] == [];
    assert Tiles([empty], 0) by { assert Tiles([], 0); }
    assert Arrangement(raw, good, 3);
    assert raw[0] == full && raw[1] == empty;
    ParseExact(raw, good, 3);
  }

  predicate Holds(s: Segment, pos: int) { s.offset <= pos < s.offset + s.length }

  // Tiled segments lie inside the chain and do not overlap.
  lemma {:induction false} TilesApart(segs: seq<Segment>, length: int, i: nat, k: nat, pos: int)
    requires Tiles(segs, length) && i < |segs| && k < |segs| && Holds(segs[i], pos)
    ensures 0 <= pos < length && (Holds(segs[k], pos) ==> i == k)
    decreases |segs|
  {
    var n := |segs| - 1;
    if i < n {
      TilesApart(segs[..n], segs[n].offset, i, if k < n then k else i, pos);
    } else if k < n && Holds(segs[k], pos) {
      TilesApart(segs[..n], segs[n].offset, k, k, pos);
    }
  }

  /* ---- one position ---- */

  function BitsOf(bits: map<nat, seq<bool>>, c: nat): seq<bool> { if c in bits then bits[c] else [] }

  // The block's own padding comes off before a load and after an unload.
  function Strip(bits: seq<bool>, length: nat, front: bool): seq<bool>
  {
    if |bits| <= length then bits else if front then bits[|bits| - length..] else bits[..length]
  }

  // The value at a position, in bits that come highest position first.
  function ValueAt(bits: seq<bool>, length: nat, pos: int): bool
  {
    var k := length - 1 - pos;
    0 <= k < |bits| && bits[k]
  }

  predicate Owned(s: Segment, block: string) { s.block == block && s.chain.Some? }

  function SegmentBit(s: Segment, bits: map<nat, seq<bool>>, front: bool, pos: int): bool
    requires s.chain.Some?
  {
    ValueAt(Strip(BitsOf(bits, s.chain.value), s.length, front), s.length, pos - s.offset)
  }

  // Segment i carries a chain of the block, and covers the position.
  ghost predicate OwnedAt(segs: seq<Segment>, block: string, n: nat, pos: int, i: int)
  {
    && 0 <= i < n && i < |segs| && segs[i].block == block && segs[i].chain.Some?
    && segs[i].offset <= pos < segs[i].offset + segs[i].length
  }

  // Position-indexed bits once the first n segments are placed.
  ghost predicate Placed(v: seq<bool>, segs: seq<Segment>, block: string, bits: map<nat, seq<bool>>, front: bool, n: nat)
  {
    && (forall pos, i :: 0 <= pos < |v| && OwnedAt(segs, block, n, pos, i) ==> v[pos] == SegmentBit(segs[i], bits, front, pos))
    && (forall pos :: 0 <= pos < |v| && (forall i :: !OwnedAt(segs, block, n, pos, i)) ==> !v[pos])
  }

  ghost predicate Masked(v: seq<bool>, segs: seq<Segment>, block: string, n: nat)
  {
    forall pos :: 0 <= pos < |v| ==> (v[pos] <==> exists i :: OwnedAt(segs, block, n, pos, i))
  }

  // The bits of segment n written over what was there.
  ghost predicate Written(v: seq<bool>, v': seq<bool>, s: Segment, bits: map<nat, seq<bool>>, front: bool)
    requires s.chain.Some?
  {
    |v'| == |v| && forall pos :: 0 <= pos < |v| ==> v'[pos] == if Holds(s, pos) then SegmentBit(s, bits, front, pos) else v[pos]
  }

  lemma OwnedMore(segs: seq<Segment>, block: string, n: nat, pos: int, i: int)
    requires n < |segs|
    ensures OwnedAt(segs, block, n + 1, pos, i) <==> OwnedAt(segs, block, n, pos, i) || (i == n && Owned(segs[n], block) && Holds(segs[n], pos))
  {}

  lemma PlacedStep(v: seq<bool>, v': seq<bool>, segs: seq<Segment>, length: int, block: string, bits: map<nat, seq<bool>>, front: bool, n: nat)
    requires Tiles(segs, length) && n < |segs| && Owned(segs[n], block) && Placed(v, segs, block, bits, front, n)
    requires Written(v, v', segs[n], bits, front)
    ensures Placed(v', segs, block, bits, front, n + 1)
  {
    hide Tiles, SegmentBit;
    forall pos, i | 0 <= pos < |v| && OwnedAt(segs, block, n + 1, pos, i) ensures v'[pos] == SegmentBit(segs[i], bits, front, pos) {
      OwnedMore(segs, block, n, pos, i);
      if i != n {
        TilesApart(segs, length, i, n, pos);
      }
    }
    var k := n + 1;
    forall pos | 0 <= pos < |v| && forall i :: !OwnedAt(segs, block, k, pos, i) ensures !v'[pos] {
      assert !OwnedAt(segs, block, k, pos, n);
      forall i ensures !OwnedAt(segs, block, n, pos, i) {
        assert !OwnedAt(segs, block, k, pos, i);
      }
    }
  }

  lemma PlacedSkip(v: seq<bool>, segs: seq<Segment>, block: string, bits: map<nat, seq<bool>>, front: bool, n: nat)
    requires n < |segs| && !Owned(segs[n], block) && Placed(v, segs, block, bits, front, n)
    ensures Placed(v, segs, block, bits, front, n + 1)
  {
    hide SegmentBit;
    forall pos, i ensures OwnedAt(segs, block, n + 1, pos, i) <==> OwnedAt(segs, block, n, pos, i) {}
  }

  lemma MaskedStep(v: seq<bool>, v': seq<bool>, segs: seq<Segment>, block: string, n: nat)
    requires n < |segs| && Masked(v, segs, block, n) && |v'| == |v|
    requires forall pos :: 0 <= pos < |v| ==> v'[pos] == (v[pos] || (Owned(segs[n], block) && Holds(segs[n], pos)))
    ensures Masked(v', segs, block, n + 1)
  {
    var k := n + 1;
    forall pos | 0 <= pos < |v| ensures v'[pos] <==> exists i :: OwnedAt(segs, block, k, pos, i) {
      if v[pos] {
        var i :| OwnedAt(segs, block, n, pos, i);
        OwnedMore(segs, block, n, pos, i);
      }
      if Owned(segs[n], block) && Holds(segs[n], pos) {
        OwnedMore(segs, block, n, pos, n);
      }
      if i :| OwnedAt(segs, block, k, pos, i) {
        OwnedMore(segs, block, n, pos, i);
        assert i != n ==> OwnedAt(segs, block, n, pos, i);
      }
    }
  }

  // One owned segment's bits into the buffers; false when it overruns the chain.
  method PlaceSegment(load: array<bool>, unload: array<bool>, mask: array<bool>, s: Segment, bp: BlockPattern) returns (ok: bool)
    requires load != unload && load != mask && unload != mask && load.Length == unload.Length == mask.Length && s.chain.Some?
    modifies load, unload, mask
    ensures ok <==> s.length == 0 || s.offset + s.length <= load.Length
    ensures ok ==> Written(old(load[..]), load[..], s, bp.load, true) && Written(old(unload[..]), unload[..], s, bp.unload, false)
    ensures ok ==> forall pos :: 0 <= pos < mask.Length ==> mask[pos] == (old(mask[pos]) || Holds(s, pos))
  {
    hide SegmentBit;
    var bload, bunload := Strip(BitsOf(bp.load, s.chain.value), s.length, true), Strip(BitsOf(bp.unload, s.chain.value), s.length, false);
    for p := 0 to s.length
      invariant p > 0 ==> s.offset + p <= load.Length
      invariant forall pos :: 0 <= pos < load.Length ==>
                  && load[pos] == (if s.offset <= pos < s.offset + p then SegmentBit(s, bp.load, true, pos) else old(load[pos]))
                  && unload[pos] == (if s.offset <= pos < s.offset + p then SegmentBit(s, bp.unload, false, pos) else old(unload[pos]))
                  && mask[pos] == (old(mask[pos]) || s.offset <= pos < s.offset + p)
    {
      var pos := s.offset + p;
      if pos >= load.Length {
        return false;
      }
      BitIs(s, bp.load, true, p);
      BitIs(s, bp.unload, false, p);
      load[pos] := ValueAt(bload, s.length, p);
      unload[pos] := ValueAt(bunload, s.length, p);
      mask[pos] := true;
    }
    ok := true;
  }

  lemma BitIs(s: Segment, bits: map<nat, seq<bool>>, front: bool, p: nat)
    requires s.chain.Some?
    ensures SegmentBit(s, bits, front, s.offset + p) == ValueAt(Strip(BitsOf(bits, s.chain.value), s.length, front), s.length, p)
  {}

  // The chain's bits by position: where the block has segments, its own.
  method PlaceChain(ch: SocChain, block: string, bp: BlockPattern)
    returns (ok: bool, load: seq<bool>, unload: seq<bool>, mask: seq<bool>, placed: set<nat>)
    ensures Tiles(ch.segments, ch.length) ==> ok
    ensures ok ==> |load| == |unload| == |mask| == ch.length
    ensures ok ==> forall c :: c in placed <==> exists i :: 0 <= i < |ch.segments| && ch.segments[i].block == block && ch.segments[i].chain == Some(c)
    ensures Tiles(ch.segments, ch.length) ==> Placed(load, ch.segments, block, bp.load, true, |ch.segments|)
    ensures Tiles(ch.segments, ch.length) ==> Placed(unload, ch.segments, block, bp.unload, false, |ch.segments|)
    ensures ok ==> Masked(mask, ch.segments, block, |ch.segments|)
  {
    hide SegmentBit, Tiles, Written, Placed, Masked;
    var l, u, m := new bool[ch.length](_ => false), new bool[ch.length](_ => false), new bool[ch.length](_ => false);
    placed := {};
    var segs := ch.segments;
    StartPlaced(l[..], segs, block, bp.load, true);
    StartPlaced(u[..], segs, block, bp.unload, false);
    StartMasked(m[..], segs, block);
    for n := 0 to |segs|
      invariant Tiles(segs, ch.length) ==> Placed(l[..], segs, block, bp.load, true, n) && Placed(u[..], segs, block, bp.unload, false, n)
      invariant Masked(m[..], segs, block, n)
      invariant forall c :: c in placed <==> exists i :: 0 <= i < n && segs[i].block == block && segs[i].chain == Some(c)
    {
      if Owned(segs[n], block) {
        ghost var l0, u0, m0 := l[..], u[..], m[..];
        if Tiles(segs, ch.length) { Inside(segs, ch.length, n); }
        ok := PlaceSegment(l, u, m, segs[n], bp);
        if !ok {
          return false, [], [], [], {};
        }
        if Tiles(segs, ch.length) {
          PlacedStep(l0, l[..], segs, ch.length, block, bp.load, true, n);
          PlacedStep(u0, u[..], segs, ch.length, block, bp.unload, false, n);
        }
        MaskedStep(m0, m[..], segs, block, n);
        placed := placed + {segs[n].chain.value};
      } else {
        if Tiles(segs, ch.length) {
          PlacedSkip(l[..], segs, block, bp.load, true, n);
          PlacedSkip(u[..], segs, block, bp.unload, false, n);
        }
        MaskedStep(m[..], m[..], segs, block, n);
      }
    }
    ok, load, unload, mask := true, l[..], u[..], m[..];
  }

  lemma StartPlaced(v: seq<bool>, segs: seq<Segment>, block: string, bits: map<nat, seq<bool>>, front: bool)
    requires forall i :: 0 <= i < |v| ==> !v[i]
    ensures Placed(v, segs, block, bits, front, 0)
  {}

  lemma StartMasked(v: seq<bool>, segs: seq<Segment>, block: string)
    requires forall i :: 0 <= i < |v| ==> !v[i]
    ensures Masked(v, segs, block, 0)
  {}

  lemma Inside(segs: seq<Segment>, length: int, n: nat)
    requires Tiles(segs, length) && n < |segs|
    ensures segs[n].length == 0 || segs[n].offset + segs[n].length <= length
  {
    if segs[n].length > 0 {
      TilesApart(segs, length, n, n, segs[n].offset + segs[n].length - 1);
    }
  }

  /* ---- the pattern ---- */

  // Position-indexed bits in shift order, highest position first.
  function Encode(v: seq<bool>): (r: seq<bool>)
    ensures |r| == |v|
  {
    seq(|v|, k requires 0 <= k < |v| => v[|v| - 1 - k])
  }

  ghost predicate LoadDone(bits: seq<bool>, ch: SocChain, block: string, bp: BlockPattern, total: nat)
  {
    exists v :: |v| == ch.length <= total && Placed(v, ch.segments, block, bp.load, true, |ch.segments|)
                && bits == Zeros(total - ch.length) + Encode(v)
  }

  ghost predicate UnloadDone(bits: seq<bool>, ch: SocChain, block: string, bp: BlockPattern, total: nat)
  {
    exists v :: |v| == ch.length <= total && Placed(v, ch.segments, block, bp.unload, false, |ch.segments|)
                && bits == Encode(v) + Zeros(total - ch.length)
  }

  ghost predicate MaskDone(bits: seq<bool>, ch: SocChain, block: string, total: nat)
  {
    exists v :: |v| == ch.length <= total && Masked(v, ch.segments, block, |ch.segments|) && bits == Encode(v) + Zeros(total - ch.length)
  }

  ghost predicate ChainDone(sp: SocPattern, ch: SocChain, block: string, bp: BlockPattern, total: nat)
  {
    && ch.index in sp.load && LoadDone(sp.load[ch.index], ch, block, bp, total)
    && ch.index in sp.unload && UnloadDone(sp.unload[ch.index], ch, block, bp, total)
    && ch.index in sp.mask && MaskDone(sp.mask[ch.index], ch, block, total)
  }

  ghost predicate AllTiled(chains: seq<SocChain>) { forall i :: 0 <= i < |chains| ==> Tiles(chains[i].segments, chains[i].length) }

  ghost predicate IndexesDiffer(chains: seq<SocChain>) { forall i, j :: 0 <= i < j < |chains| ==> chains[i].index != chains[j].index }

  // Some segment carries this chain of the block.
  ghost predicate Carried(chains: seq<SocChain>, block: string, c: nat)
  {
    exists k, i :: 0 <= k < |chains| && 0 <= i < |chains[k].segments| && chains[k].segments[i].block == block && chains[k].segments[i].chain == Some(c)
  }

  /** Retargeting over a tiled access map fails exactly when a SoC chain is longer
      than the shift count or a chain of the block has no segment. */
  method RetargetPattern(chains: seq<SocChain>, total: nat, block: string, bp: BlockPattern) returns (r: Option<SocPattern>)
    ensures AllTiled(chains) ==>
              (r.Some? <==> (forall k :: 0 <= k < |chains| ==> chains[k].length <= total) && (forall c :: c in bp.load ==> Carried(chains, block, c)))
    ensures r.Some? && AllTiled(chains) && IndexesDiffer(chains) ==> forall k :: 0 <= k < |chains| ==> ChainDone(r.value, chains[k], block, bp, total)
  {
    hide Tiles, Placed, Masked, LoadDone, UnloadDone, MaskDone, Owned, Encode;
    var sp := SocPattern(map[], map[], map[]);
    var placed: set<nat> := {};
    for k := 0 to |chains|
      invariant AllTiled(chains) && IndexesDiffer(chains) ==> forall i :: 0 <= i < k ==> ChainDone(sp, chains[i], block, bp, total)
      invariant forall i :: 0 <= i < k ==> chains[i].length <= total
      invariant forall c :: c in placed <==> Carried(chains[..k], block, c)
    {
      var ch := chains[k];
      var ok, load, unload, mask, here := PlaceChain(ch, block, bp);
      if !ok || ch.length > total {
        return None;
      }
      var pad := total - ch.length;
      assert AllTiled(chains) ==> LoadDone(Zeros(pad) + Encode(load), ch, block, bp, total) && UnloadDone(Encode(unload) + Zeros(pad), ch, block, bp, total) by {
        if AllTiled(chains) { LoadIsDone(load, ch, block, bp, total); UnloadIsDone(unload, ch, block, bp, total); }
      }
      MaskIsDone(mask, ch, block, total);
      sp := SocPattern(sp.load[ch.index := Zeros(pad) + Encode(load)], sp.unload[ch.index := Encode(unload) + Zeros(pad)],
                       sp.mask[ch.index := Encode(mask) + Zeros(pad)]);
      forall c ensures c in placed + here <==> Carried(chains[..k + 1], block, c) {
        CarriedMore(chains, block, c, k);
      }
      placed := placed + here;
    }
    assert chains[..|chains|] == chains;
    if bp.load.Keys - placed != {} {
      var c :| c in bp.load.Keys - placed;
      assert !Carried(chains, block, c);
      return None;
    }
    forall c | c in bp.load ensures Carried(chains, block, c) {
      assert c !in bp.load.Keys - placed;
    }
    r := Some(sp);
  }

  lemma LoadIsDone(v: seq<bool>, ch: SocChain, block: string, bp: BlockPattern, total: nat)
    requires |v| == ch.length <= total && Placed(v, ch.segments, block, bp.load, true, |ch.segments|)
    ensures LoadDone(Zeros(total - ch.length) + Encode(v), ch, block, bp, total)
  {
    hide Placed;
  }

  lemma UnloadIsDone(v: seq<bool>, ch: SocChain, block: string, bp: BlockPattern, total: nat)
    requires |v| == ch.length <= total && Placed(v, ch.segments, block, bp.unload, false, |ch.segments|)
    ensures UnloadDone(Encode(v) + Zeros(total - ch.length), ch, block, bp, total)
  {
    hide Placed;
  }

  lemma MaskIsDone(v: seq<bool>, ch: SocChain, block: string, total: nat)
    requires |v| == ch.length <= total && Masked(v, ch.segments, block, |ch.segments|)
    ensures MaskDone(Encode(v) + Zeros(total - ch.length), ch, block, total)
  {
    hide Masked;
  }

  lemma CarriedMore(chains: seq<SocChain>, block: string, c: nat, k: nat)
    requires k < |chains|
    ensures Carried(chains[..k + 1], block, c) <==>
              || Carried(chains[..k], block, c)
              || exists i :: 0 <= i < |chains[k].segments| && chains[k].segments[i].block == block && chains[k].segments[i].chain == Some(c)
  {
    var front, all := chains[..k], chains[..k + 1];
    assert all[k] == chains[k] && forall j :: 0 <= j < k ==> all[j] == front[j];
    if j, i :| 0 <= j < |front| && 0 <= i < |front[j].segments| && Owned(front[j].segments[i], block) && front[j].segments[i].chain.value == c {
      assert all[j] == front[j];
    }
    if j, i :| 0 <= j < |all| && 0 <= i < |all[j].segments| && Owned(all[j].segments[i], block) && all[j].segments[i].chain.value == c {
      if j < k {
        assert front[j] == all[j];
      }
    }
  }

  /* ---- exactness ---- */

  // Position q of a register after the padded, encoded load.
  lemma EncodedLoad(reg: seq<bool>, v: seq<bool>, total: nat, q: nat)
    requires |reg| == |v| <= total && q < |v|
    ensures ShiftAll(reg, Zeros(total - |v|) + Encode(v))[q] == v[q]
  {
    hide *;
    EncodeAt(v, q);
    FromEnd(Zeros(total - |v|), Encode(v), q);
    ShiftedIn(reg, Zeros(total - |v|) + Encode(v), q);
  }

  lemma FromEnd(a: seq<bool>, b: seq<bool>, q: nat)
    requires q < |b|
    ensures (a + b)[|a + b| - 1 - q] == b[|b| - 1 - q]
  {}

  /** Whatever the SoC chain held, after the retargeted load the block's segment
      holds what the block's own load would leave in a chain of that length. */
  lemma LoadExact(sp: SocPattern, ch: SocChain, block: string, bp: BlockPattern, total: nat,
                  i: nat, p: nat, reg: seq<bool>, own: seq<bool>)
    requires Tiles(ch.segments, ch.length) && ch.index in sp.load && LoadDone(sp.load[ch.index], ch, block, bp, total)
    requires i < |ch.segments| && ch.segments[i].block == block && ch.segments[i].chain.Some? && p < ch.segments[i].length
    requires |reg| == ch.length && |own| == ch.segments[i].length <= |BitsOf(bp.load, ch.segments[i].chain.value)|
    ensures ch.segments[i].offset + p < ch.length
    ensures ShiftAll(reg, sp.load[ch.index])[ch.segments[i].offset + p] == ShiftAll(own, BitsOf(bp.load, ch.segments[i].chain.value))[p]
  {
    hide Tiles, Placed, Encode, ShiftAll, SegmentBit, BitsOf;
    var seg := ch.segments[i];
    var q, bits := seg.offset + p, BitsOf(bp.load, seg.chain.value);
    TilesApart(ch.segments, ch.length, i, i, q);
    var v :| |v| == ch.length <= total && Placed(v, ch.segments, block, bp.load, true, |ch.segments|)
             && sp.load[ch.index] == Zeros(total - ch.length) + Encode(v);
    EncodedLoad(reg, v, total, q);
    PlacedValue(v, ch.segments, block, bp.load, true, i, q);
    LoadBitIs(seg, bp.load, p);
    ShiftedIn(own, bits, p);
  }

  lemma PlacedValue(v: seq<bool>, segs: seq<Segment>, block: string, bits: map<nat, seq<bool>>, front: bool, i: nat, pos: nat)
    requires Placed(v, segs, block, bits, front, |segs|) && i < |segs| && Owned(segs[i], block) && Holds(segs[i], pos) && pos < |v|
    ensures v[pos] == SegmentBit(segs[i], bits, front, pos)
  {
    assert OwnedAt(segs, block, |segs|, pos, i);
  }

  lemma LoadBitIs(s: Segment, bits: map<nat, seq<bool>>, p: nat)
    requires s.chain.Some? && p < s.length <= |BitsOf(bits, s.chain.value)|
    ensures SegmentBit(s, bits, true, s.offset + p) == BitsOf(bits, s.chain.value)[|BitsOf(bits, s.chain.value)| - 1 - p]
  {
    StripLoad(BitsOf(bits, s.chain.value), s.length, p);
  }

  lemma UnloadBitIs(s: Segment, bits: map<nat, seq<bool>>, p: nat)
    requires s.chain.Some? && p < s.length <= |BitsOf(bits, s.chain.value)|
    ensures SegmentBit(s, bits, false, s.offset + p) == BitsOf(bits, s.chain.value)[s.length - 1 - p]
  {
    StripUnload(BitsOf(bits, s.chain.value), s.length, p);
  }

  // Stripped or not, the bit for a position counts from the end of a load ...
  lemma StripLoad(bits: seq<bool>, length: nat, p: nat)
    requires p < length <= |bits|
    ensures ValueAt(Strip(bits, length, true), length, p) == bits[|bits| - 1 - p]
  {}

  // ... and from the start of an unload.
  lemma StripUnload(bits: seq<bool>, length: nat, p: nat)
    requires p < length <= |bits|
    ensures ValueAt(Strip(bits, length, false), length, p) == bits[length - 1 - p]
  {}

  /** Under the mask, and only there, the SoC compares the block's own captured bits
      with the block's own expected bits. */
  lemma UnloadExact(sp: SocPattern, ch: SocChain, block: string, bp: BlockPattern, total: nat,
                    i: nat, p: nat, reg: seq<bool>, n: nat)
    requires Tiles(ch.segments, ch.length) && ChainDone(sp, ch, block, bp, total) && |reg| == ch.length <= total
    requires i < |ch.segments| && ch.segments[i].block == block && ch.segments[i].chain.Some? && p < ch.segments[i].length <= n
    requires ch.segments[i].length <= |BitsOf(bp.unload, ch.segments[i].chain.value)|
    ensures var seg := ch.segments[i];
            && seg.offset + seg.length <= ch.length && |sp.mask[ch.index]| == |sp.unload[ch.index]| == total
            && var k := ch.length - 1 - (seg.offset + p);
            && sp.mask[ch.index][k]
            && Unload(reg, total)[k] == Unload(reg[seg.offset..seg.offset + seg.length], n)[seg.length - 1 - p]
            && sp.unload[ch.index][k] == BitsOf(bp.unload, seg.chain.value)[seg.length - 1 - p]
  {
    hide Tiles, Placed, Masked, Encode, Unload, SegmentBit, BitsOf, LoadDone;
    var seg := ch.segments[i];
    var q := seg.offset + p;
    var k := ch.length - 1 - q;
    TilesApart(ch.segments, ch.length, i, i, q);
    Inside(ch.segments, ch.length, i);
    var m :| |m| == ch.length <= total && Masked(m, ch.segments, block, |ch.segments|) && sp.mask[ch.index] == Encode(m) + Zeros(total - ch.length);
    MaskedValue(m, ch.segments, block, i, q);
    EncodeAt(m, q);
    var v :| |v| == ch.length <= total && Placed(v, ch.segments, block, bp.unload, false, |ch.segments|)
             && sp.unload[ch.index] == Encode(v) + Zeros(total - ch.length);
    EncodeAt(v, q);
    PlacedValue(v, ch.segments, block, bp.unload, false, i, q);
    UnloadBitIs(seg, bp.unload, p);
    var part := reg[seg.offset..seg.offset + seg.length];
    UnloadShows(reg, total, k);
    UnloadShows(part, n, seg.length - 1 - p);
    assert part[p] == reg[q];
  }

  lemma EncodeAt(v: seq<bool>, q: nat)
    requires q < |v|
    ensures Encode(v)[|v| - 1 - q] == v[q]
  {}

  lemma MaskedValue(v: seq<bool>, segs: seq<Segment>, block: string, i: nat, pos: nat)
    requires Masked(v, segs, block, |segs|) && i < |segs| && Owned(segs[i], block) && Holds(segs[i], pos) && pos < |v|
    ensures v[pos]
  {
    assert OwnedAt(segs, block, |segs|, pos, i);
  }

  // A segment of the block that carries a chain covers the position.
  ghost predicate InBlock(ch: SocChain, block: string, pos: int, i: int)
  {
    && 0 <= i < |ch.segments| && ch.segments[i].block == block && ch.segments[i].chain.Some?
    && ch.segments[i].offset <= pos < ch.segments[i].offset + ch.segments[i].length
  }

  /** A bit is compared exactly when a segment that carries a chain of the block covers
      its position; none is past the chain's length. */
  lemma MaskOwned(sp: SocPattern, ch: SocChain, block: string, bp: BlockPattern, total: nat, k: nat)
    requires ChainDone(sp, ch, block, bp, total) && k < |sp.mask[ch.index]|
    ensures var pos := ch.length - 1 - k; sp.mask[ch.index][k] <==> pos >= 0 && exists i :: InBlock(ch, block, pos, i)
  {
    hide LoadDone, UnloadDone, Masked, Encode;
    var m :| |m| == ch.length <= total && Masked(m, ch.segments, block, |ch.segments|) && sp.mask[ch.index] == Encode(m) + Zeros(total - ch.length);
    if k < ch.length {
      var pos := ch.length - 1 - k;
      EncodeAt(m, pos);
      if m[pos] {
        MaskedOwner(m, ch.segments, block, pos);
        var i :| OwnedAt(ch.segments, block, |ch.segments|, pos, i);
        assert InBlock(ch, block, pos, i);
      } else {
        forall i ensures !InBlock(ch, block, pos, i) {
          if InBlock(ch, block, pos, i) {
            MaskedValue(m, ch.segments, block, i, pos);
          }
        }
      }
    }
  }

  lemma MaskedOwner(v: seq<bool>, segs: seq<Segment>, block: string, pos: nat)
    requires Masked(v, segs, block, |segs|) && pos < |v| && v[pos]
    ensures exists i :: OwnedAt(segs, block, |segs|, pos, i)
  {}

  // Nobody else covers a position of segment i.
  lemma NotOwned(segs: seq<Segment>, length: int, block: string, i: nat, pos: int)
    requires Tiles(segs, length) && i < |segs| && Holds(segs[i], pos) && !(segs[i].block == block && segs[i].chain.Some?)
    ensures forall k :: !OwnedAt(segs, block, |segs|, pos, k)
  {
    hide Tiles;
    forall k ensures !OwnedAt(segs, block, |segs|, pos, k) {
      if OwnedAt(segs, block, |segs|, pos, k) {
        TilesApart(segs, length, i, k, pos);
      }
    }
  }

  /** A segment of another block, or one without a chain, is bypassed: it is loaded
      with zeros and none of its bits is compared. */
  lemma OthersBypassed(sp: SocPattern, ch: SocChain, block: string, bp: BlockPattern, total: nat, i: nat, p: nat, reg: seq<bool>)
    requires Tiles(ch.segments, ch.length) && ChainDone(sp, ch, block, bp, total) && |reg| == ch.length
    requires i < |ch.segments| && !(ch.segments[i].block == block && ch.segments[i].chain.Some?) && p < ch.segments[i].length
    ensures var q := ch.segments[i].offset + p;
            && q < ch.length && ch.length - 1 - q < |sp.mask[ch.index]|
            && !sp.mask[ch.index][ch.length - 1 - q] && !ShiftAll(reg, sp.load[ch.index])[q]
  {
    hide Tiles, Placed, Masked, Encode, ShiftAll, SegmentBit;
    var q := ch.segments[i].offset + p;
    TilesApart(ch.segments, ch.length, i, i, q);
    NotOwned(ch.segments, ch.length, block, i, q);
    var m :| |m| == ch.length <= total && Masked(m, ch.segments, block, |ch.segments|) && sp.mask[ch.index] == Encode(m) + Zeros(total - ch.length);
    EncodeAt(m, q);
    UnmaskedAt(m, ch.segments, block, q);
    var v :| |v| == ch.length <= total && Placed(v, ch.segments, block, bp.load, true, |ch.segments|)
             && sp.load[ch.index] == Zeros(total - ch.length) + Encode(v);
    EncodedLoad(reg, v, total, q);
    UnplacedAt(v, ch.segments, block, bp.load, true, q);
  }

  lemma UnmaskedAt(v: seq<bool>, segs: seq<Segment>, block: string, pos: nat)
    requires Masked(v, segs, block, |segs|) && pos < |v| && forall k :: !OwnedAt(segs, block, |segs|, pos, k)
    ensures !v[pos]
  {
    hide OwnedAt;
  }

  lemma UnplacedAt(v: seq<bool>, segs: seq<Segment>, block: string, bits: map<nat, seq<bool>>, front: bool, pos: nat)
    requires Placed(v, segs, block, bits, front, |segs|) && pos < |v| && forall k :: !OwnedAt(segs, block, |segs|, pos, k)
    ensures !v[pos]
  {
    hide OwnedAt;
  }

  lemma ShortBit(seg: Segment, bits: map<nat, seq<bool>>, front: bool, p: nat)
    requires seg.chain.Some? && p < seg.length && |BitsOf(bits, seg.chain.value)| <= seg.length
    ensures var b, k := BitsOf(bits, seg.chain.value), seg.length - 1 - p;
            SegmentBit(seg, bits, front, seg.offset + p) == (k < |b| && b[k])
  {}

  // The block's bit k of a segment's sequence, 0 past its end.
  ghost predicate ReadsBit(bits: map<nat, seq<bool>>, seg: Segment, k: nat, b: bool)
    requires seg.chain.Some?
  {
    var own := if seg.chain.value in bits then bits[seg.chain.value] else [];
    |own| <= seg.length ==> b == (k < |own| && own[k])
  }

  lemma ShortIs(seg: Segment, bits: map<nat, seq<bool>>, front: bool, p: nat)
    requires seg.chain.Some? && p < seg.length
    ensures ReadsBit(bits, seg, seg.length - 1 - p, SegmentBit(seg, bits, front, seg.offset + p))
  {
    if |BitsOf(bits, seg.chain.value)| <= seg.length {
      ShortBit(seg, bits, front, p);
    }
    hide SegmentBit;
  }

  lemma ShortLoad(sp: SocPattern, ch: SocChain, block: string, bp: BlockPattern, total: nat, i: nat, p: nat, reg: seq<bool>)
    requires Tiles(ch.segments, ch.length) && ChainDone(sp, ch, block, bp, total) && |reg| == ch.length
    requires i < |ch.segments| && ch.segments[i].block == block && ch.segments[i].chain.Some? && p < ch.segments[i].length
    ensures var q := ch.segments[i].offset + p;
            q < ch.length && ReadsBit(bp.load, ch.segments[i], ch.segments[i].length - 1 - p, ShiftAll(reg, sp.load[ch.index])[q])
  {
    hide Tiles, Placed, UnloadDone, MaskDone, Encode, ShiftAll, BitsOf, SegmentBit, ReadsBit;
    var q := ch.segments[i].offset + p;
    TilesApart(ch.segments, ch.length, i, i, q);
    var v :| |v| == ch.length <= total && Placed(v, ch.segments, block, bp.load, true, |ch.segments|)
             && sp.load[ch.index] == Zeros(total - ch.length) + Encode(v);
    EncodedLoad(reg, v, total, q);
    PlacedValue(v, ch.segments, block, bp.load, true, i, q);
    ShortIs(ch.segments[i], bp.load, true, p);
  }

  lemma ShortUnload(sp: SocPattern, ch: SocChain, block: string, bp: BlockPattern, total: nat, i: nat, p: nat)
    requires Tiles(ch.segments, ch.length) && ChainDone(sp, ch, block, bp, total)
    requires i < |ch.segments| && ch.segments[i].block == block && ch.segments[i].chain.Some? && p < ch.segments[i].length
    ensures var q := ch.segments[i].offset + p;
            && q < ch.length && ch.length - 1 - q < |sp.unload[ch.index]|
            && ReadsBit(bp.unload, ch.segments[i], ch.segments[i].length - 1 - p, sp.unload[ch.index][ch.length - 1 - q])
  {
    hide Tiles, Placed, LoadDone, MaskDone, Encode, BitsOf, SegmentBit, ReadsBit;
    var q := ch.segments[i].offset + p;
    TilesApart(ch.segments, ch.length, i, i, q);
    var u :| |u| == ch.length <= total && Placed(u, ch.segments, block, bp.unload, false, |ch.segments|)
             && sp.unload[ch.index] == Encode(u) + Zeros(total - ch.length);
    EncodeAt(u, q);
    PlacedValue(u, ch.segments, block, bp.unload, false, i, q);
    ShortIs(ch.segments[i], bp.unload, false, p);
  }

  /** A block sequence shorter than its segment, or one missing altogether, is read
      from its first bit down from the segment's end; the positions it does not
      reach are loaded with zeros and expected to be zero. */
  lemma ShortSequence(sp: SocPattern, ch: SocChain, block: string, bp: BlockPattern, total: nat, i: nat, p: nat, reg: seq<bool>)
    requires Tiles(ch.segments, ch.length) && ChainDone(sp, ch, block, bp, total) && |reg| == ch.length
    requires i < |ch.segments| && ch.segments[i].block == block && ch.segments[i].chain.Some? && p < ch.segments[i].length
    ensures var seg := ch.segments[i];
            var q, k := seg.offset + p, seg.length - 1 - p;
            && q < ch.length && ch.length - 1 - q < |sp.unload[ch.index]|
            && ReadsBit(bp.load, seg, k, ShiftAll(reg, sp.load[ch.index])[q])
            && ReadsBit(bp.unload, seg, k, sp.unload[ch.index][ch.length - 1 - q])
  {
    hide Tiles, LoadDone, UnloadDone, MaskDone, ShiftAll, ReadsBit;
    ShortLoad(sp, ch, block, bp, total, i, p, reg);
    ShortUnload(sp, ch, block, bp, total, i, p);
  }
}
