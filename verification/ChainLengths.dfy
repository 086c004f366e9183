/** Dividing the flops of several clock domains into scan chains
    (faultflow/scan/stitch.py). No chain may span two domains. */
module ChainLengths {
  import opened Netlist

  function Sum(s: seq<nat>): nat { if s == [] then 0 else Sum(s[..|s| - 1]) + s[|s| - 1] }

  function CeilDiv(n: nat, c: nat): nat
    requires c > 0
  {
    (n + c - 1) / c
  }

  lemma CeilIs(n: nat, c: nat, l: nat)
    requires c > 0
    ensures CeilDiv(n, c) <= l <==> n <= l * c
  {
    var q, r := (n + c - 1) / c, (n + c - 1) % c;
    assert n + c - 1 == q * c + r;
    if q <= l {
      assert q * c <= l * c;
    } else {
      assert (l + 1) * c <= q * c;
    }
  }

  lemma {:induction false} SumAppend(a: seq<nat>, b: seq<nat>)
    ensures Sum(a + b) == Sum(a) + Sum(b)
  {
    if b == [] {
      assert a + b == a;
    } else {
      var n := |b| - 1;
      assert (a + b)[..|a + b| - 1] == a + b[..n];
      SumAppend(a, b[..n]);
    }
  }

  lemma SumPush(s: seq<nat>, x: nat)
    ensures Sum(s + [x]) == Sum(s) + x
  {
    assert (s + [x])[..|s|] == s;
  }

  // The sum of a prefix grows with the prefix.
  lemma {:induction false} SumPrefix(s: seq<nat>, i: nat, j: nat)
    requires i <= j <= |s|
    ensures Sum(s[..i]) <= Sum(s[..j])
    ensures Sum(s[..i]) + Sum(s[i..j]) == Sum(s[..j])
  {
    assert s[..j] == s[..i] + s[i..j];
    SumAppend(s[..i], s[i..j]);
  }

  lemma {:induction false} SumBounded(s: seq<nat>, l: nat)
    requires forall i :: 0 <= i < |s| ==> s[i] <= l
    ensures Sum(s) <= l * |s|
  {
    if s != [] {
      var n := |s| - 1;
      SumBounded(s[..n], l);
      assert l * |s| == l * n + l;
    }
  }

  // The larger of two sums of equal length has a larger entry.
  lemma {:induction false} SumSmaller(a: seq<nat>, b: seq<nat>)
    requires |a| == |b| && forall i :: 0 <= i < |a| ==> a[i] <= b[i]
    ensures Sum(a) <= Sum(b)
    ensures Sum(a) == Sum(b) ==> a == b
  {
    if a != [] {
      var n := |a| - 1;
      SumSmaller(a[..n], b[..n]);
      assert a == a[..n] + [a[n]] && b == b[..n] + [b[n]];
    }
  }

  /* ---- an even split ---- */

  // As even as possible, the longer chains first.
  function Balanced(n: nat, c: nat): (r: seq<nat>)
    requires 1 <= c <= n
    ensures |r| == c
  {
    seq(c, i => n / c + (if i < n % c then 1 else 0))
  }

  lemma {:induction false} BalancedPrefix(n: nat, c: nat, i: nat)
    requires 1 <= c <= n && i <= c
    ensures Sum(Balanced(n, c)[..i]) == i * (n / c) + (if i < n % c then i else n % c)
  {
    var s := Balanced(n, c);
    if i > 0 {
      BalancedPrefix(n, c, i - 1);
      assert s[..i][..i - 1] == s[..i - 1];
      assert i * (n / c) == (i - 1) * (n / c) + n / c;
    }
  }

  // Quotient and remainder against the ceiling.
  lemma Parts(n: nat, c: nat)
    requires 1 <= c <= n
    ensures n == c * (n / c) + n % c && n / c >= 1
    ensures CeilDiv(n, c) == n / c + (if 0 < n % c then 1 else 0)
  {
    var q, r := n / c, n % c;
    assert q >= 1;
    CeilIs(n, c, q);
    CeilIs(n, c, q + 1);
    CeilIs(n, c, q - 1);
    assert (q + 1) * c == q * c + c && (q - 1) * c == q * c - c;
  }

  /** An even split uses every flop, leaves no chain empty, no chain is longer than the
      ceiling of the average, and lengths differ by at most one, the longer first. */
  lemma BalancedSplits(n: nat, c: nat)
    requires 1 <= c <= n
    ensures Sum(Balanced(n, c)) == n
    ensures forall i :: 0 <= i < c ==> 1 <= Balanced(n, c)[i] <= CeilDiv(n, c)
    ensures forall i, j :: 0 <= i < j < c ==> Balanced(n, c)[i] - 1 <= Balanced(n, c)[j] <= Balanced(n, c)[i]
  {
    var s := Balanced(n, c);
    BalancedPrefix(n, c, c);
    assert s[..c] == s;
    Parts(n, c);
  }

  /* ---- splits that respect the domains ---- */

  function Longest(s: seq<nat>): (r: nat)
    ensures forall i :: 0 <= i < |s| ==> s[i] <= r
    ensures r == 0 || r in s
  {
    if s == [] then 0
    else
      var m := Longest(s[..|s| - 1]);
      if m < s[|s| - 1] then s[|s| - 1] else m
  }

  // Where a chain ends: after the first k chains.
  ghost predicate EndsAt(lens: seq<nat>, at: nat)
  {
    exists k :: 0 <= k <= |lens| && Sum(lens[..k]) == at
  }

  // Every domain boundary is the end of a chain.
  ghost predicate Respects(sizes: seq<nat>, lens: seq<nat>)
  {
    && Sum(lens) == Sum(sizes)
    && forall d :: 0 <= d <= |sizes| ==> EndsAt(lens, Sum(sizes[..d]))
  }

  // A number of chains for each domain, enough to keep its chains within l.
  ghost predicate Shares(sizes: seq<nat>, counts: seq<nat>, total: nat, l: nat)
  {
    && |counts| == |sizes| && Sum(counts) <= total
    && forall d :: 0 <= d < |sizes| ==> sizes[d] <= l * counts[d]
  }

  // A split that respects the domains gives each one its own chains.
  lemma {:induction false} SplitShares(sizes: seq<nat>, lens: seq<nat>, l: nat) returns (counts: seq<nat>)
    requires Respects(sizes, lens) && forall i :: 0 <= i < |lens| ==> lens[i] <= l
    ensures Shares(sizes, counts, |lens|, l)
    decreases |sizes|
  {
    if sizes == [] {
      counts := [];
      return;
    }
    var n := |sizes| - 1;
    assert EndsAt(lens, Sum(sizes[..n]));
    var k :| 0 <= k <= |lens| && Sum(lens[..k]) == Sum(sizes[..n]);
    PrefixRespects(sizes, lens, n, k);
    var front := SplitShares(sizes[..n], lens[..k], l);
    counts := front + [|lens| - k];
    SumPush(front, |lens| - k);
    SumPrefix(lens, k, |lens|);
    assert lens[..|lens|] == lens;
    SumBounded(lens[k..], l);
    assert sizes[n] == Sum(lens[k..]);
  }

  lemma PrefixRespects(sizes: seq<nat>, lens: seq<nat>, n: nat, k: nat)
    requires Respects(sizes, lens) && n <= |sizes| && k <= |lens| && Sum(lens[..k]) == Sum(sizes[..n])
    ensures Respects(sizes[..n], lens[..k])
  {
    forall d | 0 <= d <= n ensures EndsAt(lens[..k], Sum(sizes[..n][..d])) {
      assert sizes[..n][..d] == sizes[..d];
      assert EndsAt(lens, Sum(sizes[..d]));
      var j :| 0 <= j <= |lens| && Sum(lens[..j]) == Sum(sizes[..d]);
      SumPrefix(sizes, d, n);
      if j <= k {
        assert lens[..k][..j] == lens[..j];
      } else {
        SumPrefix(lens, k, j);
        assert lens[..k][..k] == lens[..k];
      }
    }
  }

  /* ---- whole chains for each domain ---- */

  ghost predicate Counted(sizes: seq<nat>, counts: seq<nat>)
  {
    |counts| == |sizes| && forall d :: 0 <= d < |sizes| ==> 1 <= counts[d] <= sizes[d]
  }

  // Domain d's last chain was not given while domain e had longer chains.
  ghost predicate FairPair(sizes: seq<nat>, counts: seq<nat>, d: nat, e: nat)
    requires |counts| == |sizes| && d < |sizes| && e < |sizes|
  {
    counts[d] > 1 ==> sizes[e] * (counts[d] - 1) <= sizes[d] * counts[e]
  }

  ghost predicate Greedy(sizes: seq<nat>, counts: seq<nat>)
    requires |counts| == |sizes|
  {
    forall d, e :: 0 <= d < |sizes| && 0 <= e < |sizes| ==> FairPair(sizes, counts, d, e)
  }

  // Among the domains that can take another chain, one whose chains are longest.
  ghost predicate Widest(sizes: seq<nat>, counts: seq<nat>, w: nat)
    requires |counts| == |sizes|
  {
    w < |sizes| && counts[w] < sizes[w]
    && forall e :: 0 <= e < |sizes| && counts[e] < sizes[e] ==> sizes[e] * counts[w] <= sizes[w] * counts[e]
  }

  lemma SumOnes(n: nat)
    ensures Sum(seq(n, i => 1)) == n
  {
    if n > 0 {
      SumOnes(n - 1);
      assert seq(n, i => 1)[..n - 1] == seq(n - 1, i => 1);
    }
  }

  lemma SumBump(s: seq<nat>, w: nat)
    requires w < |s|
    ensures Sum(s[w := s[w] + 1]) == Sum(s) + 1
    decreases |s|
  {
    var n := |s| - 1;
    var t := s[w := s[w] + 1];
    if w < n {
      SumBump(s[..n], w);
      assert t[..n] == s[..n][w := s[w] + 1];
    } else {
      assert t[..n] == s[..n];
    }
  }

  lemma MulBound(a: nat, b: nat, c: nat, d: nat)
    requires a <= b && c <= d
    ensures a * c <= b * d
  {
    assert a * c <= b * c <= b * d;
  }

  lemma PairBump(sizes: seq<nat>, counts: seq<nat>, w: nat, d: nat, e: nat)
    requires Counted(sizes, counts) && d < |sizes| && e < |sizes| && w < |sizes|
    requires FairPair(sizes, counts, d, e) && counts[w] < sizes[w]
    requires counts[e] < sizes[e] ==> sizes[e] * counts[w] <= sizes[w] * counts[e]
    ensures FairPair(sizes, counts[w := counts[w] + 1], d, e)
  {
    if d == w && counts[e] == sizes[e] {
      MulBound(sizes[e], sizes[e], counts[w], sizes[w]);
    }
    if e == w {
      MulBound(sizes[d], sizes[d], counts[e], counts[e] + 1);
    }
  }

  lemma GreedyBump(sizes: seq<nat>, counts: seq<nat>, w: nat)
    requires Counted(sizes, counts) && Greedy(sizes, counts) && Widest(sizes, counts, w)
    ensures var next := counts[w := counts[w] + 1]; Counted(sizes, next) && Greedy(sizes, next)
  {
    hide FairPair;
    var next := counts[w := counts[w] + 1];
    forall d, e | 0 <= d < |sizes| && 0 <= e < |sizes| ensures FairPair(sizes, next, d, e) {
      PairBump(sizes, counts, w, d, e);
    }
  }

  // Sizes and counts with room left: some domain has fewer chains than flops.
  lemma RoomLeft(sizes: seq<nat>, counts: seq<nat>)
    requires Counted(sizes, counts) && Sum(counts) < Sum(sizes)
    ensures exists d :: 0 <= d < |sizes| && counts[d] < sizes[d]
  {
    if forall d :: 0 <= d < |sizes| ==> counts[d] >= sizes[d] {
      SumSmaller(sizes, counts);
    }
  }

  // Of the first d domains that can take another chain, the first whose chains are longest.
  ghost predicate WidestOf(sizes: seq<nat>, counts: seq<nat>, d: nat, b: nat)
    requires |counts| == |sizes| && d <= |sizes|
  {
    && b < d && counts[b] < sizes[b]
    && (forall e :: 0 <= e < d && counts[e] < sizes[e] ==> sizes[e] * counts[b] <= sizes[b] * counts[e])
    && (forall e :: 0 <= e < b && counts[e] < sizes[e] ==> sizes[e] * counts[b] < sizes[b] * counts[e])
  }

  lemma WidestFirst(sizes: seq<nat>, counts: seq<nat>, d: nat)
    requires |counts| == |sizes| && d < |sizes| && counts[d] < sizes[d] && forall e :: 0 <= e < d ==> counts[e] >= sizes[e]
    ensures WidestOf(sizes, counts, d + 1, d)
  {}

  lemma WidestStays(sizes: seq<nat>, counts: seq<nat>, d: nat, b: nat)
    requires |counts| == |sizes| && d < |sizes| && WidestOf(sizes, counts, d, b)
    requires counts[d] < sizes[d] ==> sizes[d] * counts[b] <= sizes[b] * counts[d]
    ensures WidestOf(sizes, counts, d + 1, b)
  {}

  lemma WidestMoves(sizes: seq<nat>, counts: seq<nat>, d: nat, b: nat)
    requires Counted(sizes, counts) && d < |sizes| && WidestOf(sizes, counts, d, b)
    requires counts[d] < sizes[d] && sizes[b] * counts[d] < sizes[d] * counts[b]
    ensures WidestOf(sizes, counts, d + 1, d)
  {
    forall e | 0 <= e < d && counts[e] < sizes[e] ensures sizes[e] * counts[d] < sizes[d] * counts[e] {
      RatioTransitive(sizes[e], counts[e], sizes[b], counts[b], sizes[d], counts[d]);
    }
  }

  method FindWidest(sizes: seq<nat>, counts: seq<nat>) returns (w: nat)
    requires Counted(sizes, counts) && exists d :: 0 <= d < |sizes| && counts[d] < sizes[d]
    ensures Widest(sizes, counts, w)
    ensures forall e :: 0 <= e < w && counts[e] < sizes[e] ==> sizes[e] * counts[w] < sizes[w] * counts[e]
  {
    var best: Option<nat> := None;
    for d := 0 to |sizes|
      invariant best.None? ==> forall e :: 0 <= e < d ==> counts[e] >= sizes[e]
      invariant best.Some? ==> WidestOf(sizes, counts, d, best.value)
    {
      hide WidestOf;
      if counts[d] < sizes[d] {
        if best.None? {
          WidestFirst(sizes, counts, d);
          best := Some(d);
        } else if sizes[best.value] * counts[d] < sizes[d] * counts[best.value] {
          WidestMoves(sizes, counts, d, best.value);
          best := Some(d);
        } else {
          WidestStays(sizes, counts, d, best.value);
        }
      } else if best.Some? {
        WidestStays(sizes, counts, d, best.value);
      }
    }
    w := best.value;
  }

  // a/x <= b/y < c/z
  lemma RatioTransitive(a: nat, x: nat, b: nat, y: nat, c: nat, z: nat)
    requires x > 0 && y > 0 && z > 0
    requires a * y <= b * x && b * z < c * y
    ensures a * z < c * x
  {
    assert (a * z) * y == (a * y) * z;
    assert (a * y) * z <= (b * x) * z by { MulBound(a * y, b * x, z, z); }
    assert (b * x) * z == (b * z) * x;
    assert (b * z) * x < (c * y) * x by { MulBound(b * z + 1, c * y, x, x); assert (b * z + 1) * x == (b * z) * x + x; }
    assert (c * y) * x == (c * x) * y;
    if a * z >= c * x {
      MulBound(c * x, a * z, y, y);
    }
  }

  // Whole chains per domain, `count` in all: one each, then each further one to
  // the domain whose chains are longest.
  method ChainsPerDomain(sizes: seq<nat>, count: nat) returns (counts: seq<nat>)
    requires forall d :: 0 <= d < |sizes| ==> sizes[d] >= 1
    requires |sizes| <= count <= Sum(sizes)
    ensures Counted(sizes, counts) && Sum(counts) == count && Greedy(sizes, counts)
  {
    counts := seq(|sizes|, i => 1);
    SumOnes(|sizes|);
    for k := 0 to count - |sizes|
      invariant Counted(sizes, counts) && Greedy(sizes, counts) && Sum(counts) == |sizes| + k
    {
      RoomLeft(sizes, counts);
      var w := FindWidest(sizes, counts);
      GreedyBump(sizes, counts, w);
      SumBump(counts, w);
      counts := counts[w := counts[w] + 1];
    }
  }

  // A greedy division cannot be beaten: if any division of as many chains keeps
  // every domain within l, so does the greedy one.
  lemma GreedyBest(sizes: seq<nat>, counts: seq<nat>, other: seq<nat>, l: nat, e: nat)
    requires Counted(sizes, counts) && Greedy(sizes, counts)
    requires Shares(sizes, other, Sum(counts), l) && e < |sizes|
    ensures CeilDiv(sizes[e], counts[e]) <= l
  {
    CeilIs(sizes[e], counts[e], l);
    if sizes[e] > l * counts[e] {
      assert other[e] > counts[e] by {
        if other[e] <= counts[e] { MulBound(l, l, other[e], counts[e]); }
      }
      if forall d :: 0 <= d < |sizes| ==> counts[d] <= other[d] {
        SumSmaller(counts, other);
      }
      var d :| 0 <= d < |sizes| && other[d] < counts[d];
      assert FairPair(sizes, counts, d, e);
      BeatenElsewhere(sizes[d], counts[d], other[d], sizes[e], counts[e], l);
    }
  }

  lemma CancelFactor(a: nat, b: nat, c: nat)
    requires c > 0 && a * c <= b * c
    ensures a <= b
  {
    if a > b {
      MulBound(b + 1, a, c, c);
    }
  }

  // The arithmetic of one exchange.
  lemma BeatenElsewhere(nd: nat, cd: nat, od: nat, ne: nat, ce: nat, l: nat)
    requires nd >= 1 && od < cd && nd <= l * od && (cd > 1 ==> ne * (cd - 1) <= nd * ce)
    ensures ne <= l * ce
  {
    assert od > 0;
    MulBound(l, l, od, cd - 1);
    MulBound(nd, l * (cd - 1), ce, ce);
    assert ne * (cd - 1) <= (l * (cd - 1)) * ce;
    assert (l * (cd - 1)) * ce == (l * ce) * (cd - 1);
    CancelFactor(ne, l * ce, cd - 1);
  }

  /* ---- the lengths ---- */

  function Ends(s: seq<nat>): set<nat> { set k | 1 <= k <= |s| :: Sum(s[..k]) }

  method Accumulate(s: seq<nat>) returns (ends: set<nat>)
    ensures ends == Ends(s)
  {
    ends := {};
    var total := 0;
    for i := 0 to |s|
      invariant total == Sum(s[..i]) && ends == set k | 1 <= k <= i :: Sum(s[..k])
    {
      assert s[..i + 1][..i] == s[..i];
      total := total + s[i];
      ends := ends + {total};
    }
  }

  lemma EndsRespect(sizes: seq<nat>, lens: seq<nat>)
    requires Ends(sizes) <= Ends(lens) && Sum(sizes) == Sum(lens)
    ensures Respects(sizes, lens)
  {
    forall d | 0 <= d <= |sizes| ensures EndsAt(lens, Sum(sizes[..d])) {
      if d == 0 {
        assert sizes[..0] == lens[..0] == [];
      } else {
        assert Sum(sizes[..d]) in Ends(sizes);
      }
    }
  }

  lemma RespectsPush(sizes: seq<nat>, n: nat, lens: seq<nat>, more: seq<nat>)
    requires n < |sizes| && Respects(sizes[..n], lens) && Sum(more) == sizes[n]
    ensures Respects(sizes[..n + 1], lens + more)
  {
    var all, front := lens + more, sizes[..n + 1];
    SumAppend(lens, more);
    assert front == sizes[..n] + [sizes[n]];
    SumPush(sizes[..n], sizes[n]);
    forall d | 0 <= d <= n + 1 ensures EndsAt(all, Sum(front[..d])) {
      if d <= n {
        assert front[..d] == sizes[..n][..d];
        assert EndsAt(lens, Sum(sizes[..n][..d]));
        var k :| 0 <= k <= |lens| && Sum(lens[..k]) == Sum(sizes[..n][..d]);
        assert all[..k] == lens[..k];
      } else {
        assert front[..d] == front && all[..|all|] == all;
      }
    }
  }

  ghost predicate Within(lens: seq<nat>, l: nat) { forall i :: 0 <= i < |lens| ==> 1 <= lens[i] <= l }

  // Each domain's flops split evenly over its own chains.
  method SplitDomains(sizes: seq<nat>, counts: seq<nat>, ghost l: nat) returns (lens: seq<nat>)
    requires Counted(sizes, counts) && forall d :: 0 <= d < |sizes| ==> CeilDiv(sizes[d], counts[d]) <= l
    ensures Respects(sizes, lens) && |lens| == Sum(counts) && Within(lens, l)
  {
    lens := [];
    assert sizes[..0] == [] && lens[..0] == [];
    for d := 0 to |sizes|
      invariant Respects(sizes[..d], lens) && |lens| == Sum(counts[..d]) && Within(lens, l)
    {
      var more := Balanced(sizes[d], counts[d]);
      BalancedSplits(sizes[d], counts[d]);
      RespectsPush(sizes, d, lens, more);
      assert counts[..d + 1][..d] == counts[..d];
      lens := lens + more;
    }
    assert sizes[..|sizes|] == sizes && counts[..|counts|] == counts;
  }

  // No split of as many chains that respects the domains has a shorter longest chain.
  ghost predicate Shortest(sizes: seq<nat>, lens: seq<nat>)
  {
    forall other: seq<nat> :: |other| == |lens| && Respects(sizes, other) ==> Longest(lens) <= Longest(other)
  }

  lemma BalancedShortest(sizes: seq<nat>, lens: seq<nat>)
    requires Sum(sizes) >= |lens| >= 1 && lens == Balanced(Sum(sizes), |lens|)
    ensures Shortest(sizes, lens)
  {
    var n, c := Sum(sizes), |lens|;
    BalancedSplits(n, c);
    forall other: seq<nat> | |other| == c && Respects(sizes, other) ensures Longest(lens) <= Longest(other) {
      SumBounded(other, Longest(other));
      CeilIs(n, c, Longest(other));
    }
  }

  // The longest chain the greedy division leaves, for a bound any split reaches.
  lemma GreedyShortest(sizes: seq<nat>, counts: seq<nat>, other: seq<nat>, e: nat)
    requires Counted(sizes, counts) && Greedy(sizes, counts) && |other| == Sum(counts) && Respects(sizes, other)
    requires e < |sizes|
    ensures CeilDiv(sizes[e], counts[e]) <= Longest(other)
  {
    var shares := SplitShares(sizes, other, Longest(other));
    GreedyBest(sizes, counts, shares, Longest(other), e);
  }

  function Ceilings(sizes: seq<nat>, counts: seq<nat>): seq<nat>
    requires |counts| == |sizes| && forall d :: 0 <= d < |sizes| ==> counts[d] >= 1
  {
    seq(|sizes|, d requires 0 <= d < |sizes| => CeilDiv(sizes[d], counts[d]))
  }

  /** The chain lengths, in packing order: every domain ends at a chain end, no
      chain is empty, and the longest is as short as the chain count allows. An
      error exactly when there are more chains than flops, or none of either. */
  method DivideChains(sizes: seq<nat>, count: int) returns (r: Option<seq<nat>>)
    requires |sizes| <= count && forall d :: 0 <= d < |sizes| ==> sizes[d] >= 1
    ensures r.Some? <==> 1 <= count <= Sum(sizes)
    ensures r.Some? ==> |r.value| == count && Respects(sizes, r.value) && Shortest(sizes, r.value)
    ensures r.Some? ==> Within(r.value, Longest(r.value))
  {
    if count < 1 || Sum(sizes) < 1 || count > Sum(sizes) {
      return None;
    }
    var lens := Balanced(Sum(sizes), count);
    BalancedSplits(Sum(sizes), count);
    var ends := Accumulate(lens);
    var boundaries := Accumulate(sizes);
    if boundaries <= ends {
      EndsRespect(sizes, lens);
      BalancedShortest(sizes, lens);
      return Some(lens);
    }
    var counts := ChainsPerDomain(sizes, count);
    ghost var l := Longest(Ceilings(sizes, counts));
    forall d | 0 <= d < |sizes| ensures CeilDiv(sizes[d], counts[d]) <= l {
      assert Ceilings(sizes, counts)[d] == CeilDiv(sizes[d], counts[d]);
    }
    lens := SplitDomains(sizes, counts, l);
    forall other: seq<nat> | |other| == |lens| && Respects(sizes, other) ensures Longest(lens) <= Longest(other) {
      if l > 0 {
        var e :| 0 <= e < |sizes| && Ceilings(sizes, counts)[e] == l;
        GreedyShortest(sizes, counts, other, e);
      }
    }
    r := Some(lens);
  }

  /* ---- a length limit ---- */

  function ChainsWithin(sizes: seq<nat>, l: nat): nat
    requires l >= 1
  {
    if sizes == [] then 0 else ChainsWithin(sizes[..|sizes| - 1], l) + CeilDiv(sizes[|sizes| - 1], l)
  }

  // Asking for as many chains as the limit needs, domain by domain, there is a
  // split within the limit; the count is between the domains and the flops.
  lemma {:induction false} LimitReachable(sizes: seq<nat>, l: nat) returns (lens: seq<nat>)
    requires l >= 1 && forall d :: 0 <= d < |sizes| ==> sizes[d] >= 1
    ensures Respects(sizes, lens) && |lens| == ChainsWithin(sizes, l) && Within(lens, l)
    ensures |sizes| <= ChainsWithin(sizes, l) <= Sum(sizes)
    decreases |sizes|
  {
    if sizes == [] {
      lens := [];
      assert sizes[..0] == lens[..0];
    } else {
      var n := |sizes| - 1;
      var front := LimitReachable(sizes[..n], l);
      var k := CeilDiv(sizes[n], l);
      CeilRange(sizes[n], l);
      var more := Balanced(sizes[n], k);
      BalancedSplits(sizes[n], k);
      lens := front + more;
      RespectsPush(sizes, n, front, more);
      assert sizes[..n + 1] == sizes;
    }
  }

  // Dividing n flops by the limit gives a chain count that keeps to the limit.
  lemma CeilRange(n: nat, l: nat)
    requires n >= 1 && l >= 1
    ensures 1 <= CeilDiv(n, l) <= n && CeilDiv(n, CeilDiv(n, l)) <= l
  {
    var k := CeilDiv(n, l);
    CeilIs(n, l, 0);
    CeilIs(n, l, n);
    assert n <= n * l by { MulBound(n, n, 1, l); }
    CeilIs(n, l, k);
    CeilIs(n, k, l);
  }

  /** No split that respects the domains and keeps the limit has fewer chains. */
  lemma LimitLeast(sizes: seq<nat>, l: nat, lens: seq<nat>)
    requires l >= 1 && Respects(sizes, lens) && forall i :: 0 <= i < |lens| ==> lens[i] <= l
    ensures ChainsWithin(sizes, l) <= |lens|
  {
    var shares := SplitShares(sizes, lens, l);
    FewestShares(sizes, shares, l);
  }

  lemma {:induction false} FewestShares(sizes: seq<nat>, shares: seq<nat>, l: nat)
    requires l >= 1 && |shares| == |sizes| && forall d :: 0 <= d < |sizes| ==> sizes[d] <= l * shares[d]
    ensures ChainsWithin(sizes, l) <= Sum(shares)
  {
    if sizes != [] {
      var n := |sizes| - 1;
      FewestShares(sizes[..n], shares[..n], l);
      assert sizes[n] <= shares[n] * l;
      CeilIs(sizes[n], l, shares[n]);
    }
  }

  /** The shortest split into that many chains keeps every chain within the limit. */
  lemma LimitKept(sizes: seq<nat>, l: nat, lens: seq<nat>)
    requires l >= 1 && forall d :: 0 <= d < |sizes| ==> sizes[d] >= 1
    requires |lens| == ChainsWithin(sizes, l) && Shortest(sizes, lens)
    ensures forall i :: 0 <= i < |lens| ==> lens[i] <= l
  {
    var other := LimitReachable(sizes, l);
    assert Longest(lens) <= Longest(other);
  }
}
