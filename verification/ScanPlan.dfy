/** The scan plan (faultflow/scan/stitch.py): which flop sits where in which
    chain, and what feeds it. */
module ScanPlan {
  import opened Netlist
  import opened ChainLengths

  // A flop that can be scanned, with its clock and output nets.
  datatype Eligible = Eligible(inst: Name, clock: nat, q: nat)

  /* ---- clock domains ---- */

  function CountOf(ffs: seq<Eligible>, clock: nat): nat
  {
    if ffs == [] then 0
    else CountOf(ffs[..|ffs| - 1], clock) + if ffs[|ffs| - 1].clock == clock then 1 else 0
  }

  function CountBelow(ffs: seq<Eligible>, clock: nat): nat
  {
    if ffs == [] then 0
    else CountBelow(ffs[..|ffs| - 1], clock) + if ffs[|ffs| - 1].clock < clock then 1 else 0
  }

  ghost predicate Ascending(nets: seq<nat>) { forall i, j :: 0 <= i < j < |nets| ==> nets[i] < nets[j] }

  // The clock nets in order, each with its number of flops.
  ghost predicate Domains(ffs: seq<Eligible>, nets: seq<nat>, sizes: seq<nat>)
  {
    && Ascending(nets) && |sizes| == |nets|
    && (forall i :: 0 <= i < |ffs| ==> ffs[i].clock in nets)
    && (forall d :: 0 <= d < |nets| ==> sizes[d] == CountOf(ffs, nets[d]) && sizes[d] >= 1)
  }

  method SmallestOf(s: set<nat>) returns (m: nat)
    requires s != {}
    ensures m in s && forall x :: x in s ==> m <= x
  {
    var rest := s;
    m :| m in rest;
    rest := rest - {m};
    while rest != {}
      invariant rest <= s && m in s && forall x :: x in s && x !in rest ==> m <= x
    {
      var x :| x in rest;
      rest := rest - {x};
      if x < m { m := x; }
    }
  }

  method SortedKeys(s: set<nat>) returns (nets: seq<nat>)
    ensures Ascending(nets) && forall x :: x in nets <==> x in s
  {
    nets := [];
    var rest := s;
    while rest != {}
      invariant Ascending(nets) && rest <= s && forall x :: x in nets <==> x in s && x !in rest
      invariant forall i, y :: 0 <= i < |nets| && y in rest ==> nets[i] < y
    {
      var m := SmallestOf(rest);
      nets := nets + [m];
      rest := rest - {m};
    }
  }

  method DomainSizes(ffs: seq<Eligible>) returns (nets: seq<nat>, sizes: seq<nat>)
    ensures Domains(ffs, nets, sizes)
  {
    var counts: map<nat, nat> := map[];
    for i := 0 to |ffs|
      invariant forall x :: x in counts ==> counts[x] == CountOf(ffs[..i], x) && counts[x] >= 1
      invariant forall x: nat :: x !in counts ==> CountOf(ffs[..i], x) == 0
      invariant forall j :: 0 <= j < i ==> ffs[j].clock in counts
    {
      var c := ffs[i].clock;
      assert ffs[..i + 1][..i] == ffs[..i];
      counts := counts[c := (if c in counts then counts[c] else 0) + 1];
    }
    assert ffs[..|ffs|] == ffs;
    nets := SortedKeys(counts.Keys);
    sizes := [];
    for d := 0 to |nets|
      invariant |sizes| == d && forall e :: 0 <= e < d ==> sizes[e] == CountOf(ffs, nets[e]) && sizes[e] >= 1
    {
      assert nets[d] in counts;
      sizes := sizes + [counts[nets[d]]];
    }
  }

  lemma {:induction false} BelowNext(ffs: seq<Eligible>, x: nat, y: nat)
    requires x < y && forall i :: 0 <= i < |ffs| ==> !(x < ffs[i].clock < y)
    ensures CountBelow(ffs, y) == CountBelow(ffs, x) + CountOf(ffs, x)
  {
    if ffs != [] {
      BelowNext(ffs[..|ffs| - 1], x, y);
    }
  }

  lemma {:induction false} BelowNone(ffs: seq<Eligible>, x: nat)
    requires forall i :: 0 <= i < |ffs| ==> x <= ffs[i].clock
    ensures CountBelow(ffs, x) == 0
  {
    if ffs != [] {
      BelowNone(ffs[..|ffs| - 1], x);
    }
  }

  lemma {:induction false} BelowAll(ffs: seq<Eligible>, x: nat)
    requires forall i :: 0 <= i < |ffs| ==> ffs[i].clock < x
    ensures CountBelow(ffs, x) == |ffs|
  {
    if ffs != [] {
      BelowAll(ffs[..|ffs| - 1], x);
    }
  }

  ghost predicate ByClock(ffs: seq<Eligible>) { forall i, j :: 0 <= i < j < |ffs| ==> ffs[i].clock <= ffs[j].clock }

  lemma {:induction false} SortedBelow(ffs: seq<Eligible>, x: nat, i: nat)
    requires ByClock(ffs) && i < |ffs|
    ensures ffs[i].clock < x <==> i < CountBelow(ffs, x)
  {
    var n := |ffs| - 1;
    if ffs[n].clock < x {
      BelowAll(ffs, x);
    } else if i < n {
      SortedBelow(ffs[..n], x, i);
    } else {
      BelowAtMost(ffs[..n], x);
    }
  }

  lemma {:induction false} BelowAtMost(ffs: seq<Eligible>, x: nat)
    ensures CountBelow(ffs, x) <= |ffs|
  {
    if ffs != [] {
      BelowAtMost(ffs[..|ffs| - 1], x);
    }
  }

  // The domains before d hold exactly the flops on smaller clock nets.
  lemma {:induction false} DomainStart(ffs: seq<Eligible>, nets: seq<nat>, sizes: seq<nat>, d: nat)
    requires Domains(ffs, nets, sizes) && d < |nets|
    ensures Sum(sizes[..d]) == CountBelow(ffs, nets[d])
    ensures Sum(sizes[..d + 1]) == if d + 1 < |nets| then CountBelow(ffs, nets[d + 1]) else |ffs|
  {
    assert sizes[..d + 1][..d] == sizes[..d];
    if d == 0 {
      BelowNone(ffs, nets[0]);
    } else {
      DomainStart(ffs, nets, sizes, d - 1);
    }
    if d + 1 < |nets| {
      BelowNext(ffs, nets[d], nets[d + 1]);
    } else {
      BelowNext(ffs, nets[d], nets[d] + 1);
      BelowAll(ffs, nets[d] + 1);
    }
  }

  lemma DomainsTotal(ffs: seq<Eligible>, nets: seq<nat>, sizes: seq<nat>)
    requires Domains(ffs, nets, sizes)
    ensures Sum(sizes) == |ffs|
  {
    assert ffs == [] || ffs[0].clock in nets;
    if nets != [] {
      DomainStart(ffs, nets, sizes, |nets| - 1);
      assert sizes[..|nets|] == sizes;
    }
  }

  // Between two chain ends there is no domain boundary, so one clock only.
  lemma OneClock(ffs: seq<Eligible>, nets: seq<nat>, sizes: seq<nat>, lens: seq<nat>, c: nat, i: nat, j: nat)
    requires Domains(ffs, nets, sizes) && ByClock(ffs) && Respects(sizes, lens) && c < |lens|
    requires Sum(lens[..c]) <= i < Sum(lens[..c + 1]) && Sum(lens[..c]) <= j < Sum(lens[..c + 1])
    requires i < |ffs| && j < |ffs|
    ensures ffs[i].clock >= ffs[j].clock
  {
    hide Sum, CountOf, CountBelow;
    var d :| 0 <= d < |nets| && nets[d] == ffs[j].clock;
    SortedBelow(ffs, nets[d], i);
    SortedBelow(ffs, nets[d], j);
    DomainStart(ffs, nets, sizes, d);
    assert EndsAt(lens, Sum(sizes[..d]));
    var k :| 0 <= k <= |lens| && Sum(lens[..k]) == Sum(sizes[..d]);
    if k <= c {
      SumPrefix(lens, k, c);
    } else {
      SumPrefix(lens, c + 1, k);
    }
  }

  /* ---- the plan ---- */

  // One planned flop: its place and the net at its scan input.
  datatype Link = Link(ff: Eligible, chain: nat, pos: nat, feed: nat)

  datatype PlannedChain = PlannedChain(scanIn: nat, scanOut: nat, links: seq<Link>)

  datatype Refusal = NoFlops | BadOptions | TooFewChains | TooManyChains | TooLong | NamesTaken

  datatype Plan =
    | Planned(lens: seq<nat>, chains: seq<PlannedChain>)
    | Refused(why: Refusal)

  // One chain through a run of flops, each fed by the one before.
  function ChainThrough(ffs: seq<Eligible>, c: nat, scanIn: nat): (r: PlannedChain)
    ensures |r.links| == |ffs|
  {
    PlannedChain(scanIn,
                 if ffs == [] then scanIn else ffs[|ffs| - 1].q,
                 seq(|ffs|, p requires 0 <= p < |ffs| => Link(ffs[p], c, p, if p == 0 then scanIn else ffs[p - 1].q)))
  }

  // Chain c takes the flops between the ends of the chains before it and its own.
  ghost predicate LaidAt(ffs: seq<Eligible>, lens: seq<nat>, chain: PlannedChain, next: nat, c: nat)
    requires c < |lens|
  {
    var i, j := Sum(lens[..c]), Sum(lens[..c + 1]);
    i <= j <= |ffs| && chain == ChainThrough(ffs[i..j], c, next + c)
  }

  ghost predicate Laid(ffs: seq<Eligible>, lens: seq<nat>, chains: seq<PlannedChain>, next: nat)
  {
    |chains| <= |lens| && forall c :: 0 <= c < |chains| ==> LaidAt(ffs, lens, chains[c], next, c)
  }

  function PortNames(base: Name, count: nat): (r: seq<Name>)
    ensures |r| == count
  {
    if count == 1 then [base] else seq(count, (i: nat) => Made(Indexed(i), base))
  }

  ghost predicate AllDiffer(names: seq<Name>) { forall i, j :: 0 <= i < j < |names| ==> names[i] != names[j] }

  // The names are free and differ from one another.
  ghost predicate NamesFree(taken: set<Name>, names: seq<Name>)
  {
    AllDiffer(names) && forall i :: 0 <= i < |names| ==> names[i] !in taken
  }

  method CheckNames(taken: set<Name>, names: seq<Name>) returns (free: bool)
    ensures free <==> NamesFree(taken, names)
  {
    var seen: set<Name> := {};
    for i := 0 to |names|
      invariant forall n :: n in seen <==> exists j :: 0 <= j < i && names[j] == n
      invariant NamesFree(taken, names[..i])
    {
      if names[i] in taken || names[i] in seen {
        return false;
      }
      seen := seen + {names[i]};
    }
    assert names[..|names|] == names;
    free := true;
  }

  // How many chains to make: as asked, or as many as the limit needs.
  method ChainCount(sizes: seq<nat>, asked: int, limit: Option<int>) returns (r: Option<nat>)
    ensures r.Some? <==> asked >= 1 && (limit.Some? ==> limit.value >= 1)
    ensures r.Some? && limit.Some? && asked == 1 && sizes != [] && (forall d :: 0 <= d < |sizes| ==> sizes[d] >= 1) ==> r.value == ChainsWithin(sizes, limit.value)
    ensures r.Some? && (limit.None? || asked != 1) ==> r.value == asked
  {
    if asked < 1 || (limit.Some? && limit.value < 1) {
      return None;
    }
    if limit.Some? && asked == 1 {
      var total := 0;
      for d := 0 to |sizes|
        invariant total == ChainsWithin(sizes[..d], limit.value)
      {
        assert sizes[..d + 1][..d] == sizes[..d];
        total := total + CeilDiv(sizes[d], limit.value);
      }
      assert sizes[..|sizes|] == sizes;
      if sizes != [] && forall d :: 0 <= d < |sizes| ==> sizes[d] >= 1 {
        ghost var lens := LimitReachable(sizes, limit.value);
      }
      return Some(if total < 1 then 1 else total);
    }
    r := Some(asked);
  }

  // Lay one chain through its flops.
  method LayChain(ffs: seq<Eligible>, c: nat, scanIn: nat) returns (chain: PlannedChain)
    ensures chain == ChainThrough(ffs, c, scanIn)
  {
    var previous, links := scanIn, [];
    for p := 0 to |ffs|
      invariant previous == (if p == 0 then scanIn else ffs[p - 1].q)
      invariant links == ChainThrough(ffs, c, scanIn).links[..p]
    {
      links := links + [Link(ffs[p], c, p, previous)];
      previous := ffs[p].q;
    }
    chain := PlannedChain(scanIn, previous, links);
  }

  method ClocksAgree(ffs: seq<Eligible>) returns (agree: bool)
    ensures agree <==> forall i, j :: 0 <= i < j < |ffs| ==> ffs[i].clock == ffs[j].clock
  {
    agree := true;
    for i := 0 to |ffs|
      invariant agree <==> forall a, b :: 0 <= a < b < i ==> ffs[a].clock == ffs[b].clock
    {
      if i > 0 && ffs[i].clock != ffs[0].clock {
        agree := false;
      }
    }
  }

  method LayChains(ffs: seq<Eligible>, ghost nets: seq<nat>, ghost sizes: seq<nat>, lens: seq<nat>, next: nat)
    returns (chains: seq<PlannedChain>)
    requires Domains(ffs, nets, sizes) && ByClock(ffs) && Respects(sizes, lens)
    ensures Laid(ffs, lens, chains, next) && |chains| == |lens|
    ensures forall c :: 0 <= c < |lens| ==> OneDomain(chains[c])
  {
    hide Domains, ByClock, Respects, Sum, ChainThrough;
    chains := [];
    var cursor := 0;
    assert lens[..0] == [] && Sum(lens[..0]) == 0 by { SumEmpty(); }
    for c := 0 to |lens|
      invariant cursor == Sum(lens[..c])
      invariant Laid(ffs, lens, chains, next) && |chains| == c
      invariant forall e :: 0 <= e < c ==> OneDomain(chains[e])
    {
      PartFits(ffs, nets, sizes, lens, c);
      var part := ffs[cursor..cursor + lens[c]];
      forall i, j | 0 <= i < j < |part| ensures part[i].clock == part[j].clock {
        OneClock(ffs, nets, sizes, lens, c, cursor + i, cursor + j);
        OneClock(ffs, nets, sizes, lens, c, cursor + j, cursor + i);
      }
      var agree := ClocksAgree(part);
      assert agree;   // the domain-span error cannot occur
      var chain := LayChain(part, c, next + c);
      ChainDomain(part, c, next + c);
      chains := chains + [chain];
      cursor := cursor + lens[c];
    }
  }

  lemma SumEmpty()
    ensures Sum([]) == 0
  {}

  lemma PartFits(ffs: seq<Eligible>, nets: seq<nat>, sizes: seq<nat>, lens: seq<nat>, c: nat)
    requires Domains(ffs, nets, sizes) && Respects(sizes, lens) && c < |lens|
    ensures Sum(lens[..c + 1]) == Sum(lens[..c]) + lens[c] <= |ffs|
  {
    DomainsTotal(ffs, nets, sizes);
    assert lens[..c + 1] == lens[..c] + [lens[c]];
    SumPush(lens[..c], lens[c]);
    SumPrefix(lens, c + 1, |lens|);
    assert lens[..|lens|] == lens;
  }

  lemma ChainDomain(part: seq<Eligible>, c: nat, scanIn: nat)
    requires forall i, j :: 0 <= i < j < |part| ==> part[i].clock == part[j].clock
    ensures OneDomain(ChainThrough(part, c, scanIn))
  {}

  ghost predicate OneDomain(chain: PlannedChain)
  {
    forall p, r :: 0 <= p < r < |chain.links| ==> chain.links[p].ff.clock == chain.links[r].ff.clock
  }

  lemma LaidLengths(ffs: seq<Eligible>, lens: seq<nat>, chains: seq<PlannedChain>, next: nat)
    requires Laid(ffs, lens, chains, next)
    ensures forall c :: 0 <= c < |chains| ==> |chains[c].links| == lens[c]
  {
    forall c | 0 <= c < |chains| ensures |chains[c].links| == lens[c] {
      assert LaidAt(ffs, lens, chains[c], next, c);
      assert lens[..c + 1] == lens[..c] + [lens[c]];
      SumPush(lens[..c], lens[c]);
    }
  }

  // What a plan that is not refused has been given.
  ghost predicate Sound(ffs: seq<Eligible>, plan: Plan, next: nat)
  {
    && plan.Planned? && |plan.chains| == |plan.lens| && Sum(plan.lens) == |ffs|
    && Laid(ffs, plan.lens, plan.chains, next)
    && (forall c :: 0 <= c < |plan.chains| ==> OneDomain(plan.chains[c]) && |plan.chains[c].links| == plan.lens[c] >= 1)
  }

  /** Every place of a sound plan: the flops go to the chains in order, each knows its
      chain and its position, and is fed by the scan-in net or by the flop before it. */
  lemma PlaceOf(ffs: seq<Eligible>, plan: Plan, next: nat, c: nat, p: nat)
    requires Sound(ffs, plan, next) && c < |plan.chains| && p < plan.lens[c]
    ensures var at := Sum(plan.lens[..c]) + p;
            && at < |ffs| && p < |plan.chains[c].links| && plan.chains[c].scanIn == next + c
            && plan.chains[c].links[p] == Link(ffs[at], c, p, if p == 0 then next + c else ffs[at - 1].q)
            && (p == plan.lens[c] - 1 ==> plan.chains[c].scanOut == ffs[at].q)
  {
    hide *;
    SoundAt(ffs, plan, next, c);
    ThroughAt(ffs, Sum(plan.lens[..c]), Sum(plan.lens[..c + 1]), c, next + c, p);
  }

  lemma SoundAt(ffs: seq<Eligible>, plan: Plan, next: nat, c: nat)
    requires Sound(ffs, plan, next) && c < |plan.chains|
    ensures plan.Planned? && c < |plan.lens|
    ensures var i, j := Sum(plan.lens[..c]), Sum(plan.lens[..c + 1]);
            i + plan.lens[c] == j <= |ffs| && plan.chains[c] == ChainThrough(ffs[i..j], c, next + c)
  {
    hide ChainThrough, Sum, OneDomain;
    assert LaidAt(ffs, plan.lens, plan.chains[c], next, c);
    assert plan.lens[..c + 1] == plan.lens[..c] + [plan.lens[c]];
    SumPush(plan.lens[..c], plan.lens[c]);
  }

  lemma ThroughAt(ffs: seq<Eligible>, i: nat, j: nat, c: nat, scanIn: nat, p: nat)
    requires i <= j <= |ffs| && p < j - i
    ensures var r := ChainThrough(ffs[i..j], c, scanIn);
            && r.scanIn == scanIn && p < |r.links| && (p == j - i - 1 ==> r.scanOut == ffs[i + p].q)
            && r.links[p] == Link(ffs[i + p], c, p, if p == 0 then scanIn else ffs[i + p - 1].q)
  {}

  // One chain takes the name itself, several take it with an index.
  ghost predicate NamedFrom(base: Name, names: seq<Name>)
  {
    if |names| == 1 then names[0] == base else forall i :: 0 <= i < |names| ==> names[i] == Made(Indexed(i), base)
  }

  lemma PortsNamed(base: Name, count: nat)
    ensures NamedFrom(base, PortNames(base, count))
  {}

  predicate GoodOptions(asked: int, limit: Option<int>) { asked >= 1 && (limit.Some? ==> limit.value >= 1) }

  // How many chains the options ask for.
  function Wanted(sizes: seq<nat>, asked: int, limit: Option<int>): int
    requires GoodOptions(asked, limit)
  {
    if asked == 1 && limit.Some? then ChainsWithin(sizes, limit.value) else asked
  }

  // Some split into that many chains, no domain mixed, keeps the limit.
  ghost predicate CanKeep(sizes: seq<nat>, count: int, l: int)
  {
    exists lens: seq<nat> :: |lens| == count && Respects(sizes, lens) && Longest(lens) <= l
  }

  lemma ShortestTells(sizes: seq<nat>, lens: seq<nat>, l: int)
    requires Respects(sizes, lens) && Shortest(sizes, lens)
    ensures CanKeep(sizes, |lens|, l) <==> Longest(lens) <= l
  {}

  lemma LongestKeeps(lens: seq<nat>, l: int)
    requires l >= 0 && forall i :: 0 <= i < |lens| ==> lens[i] <= l
    ensures Longest(lens) <= l
  {}

  /** The plan, or why there is none: no flops, bad options, fewer chains than
      clock domains, more chains than flops, no split at all that keeps the limit,
      or a name taken. The plan's longest chain is as short as its count allows.
      With one chain asked for and a limit only a taken name can refuse. */
  method BuildPlan(ffs: seq<Eligible>, asked: int, limit: Option<int>, taken: set<Name>,
                   scanIn: Name, scanOut: Name, scanEnable: Name, next: nat)
    returns (r: Plan, ghost nets: seq<nat>, ghost sizes: seq<nat>)
    requires ByClock(ffs)
    ensures ffs != [] ==> Domains(ffs, nets, sizes)
    ensures r.Planned? ==> Sound(ffs, r, next) && Respects(sizes, r.lens) && Shortest(sizes, r.lens)
    ensures r.Planned? ==> GoodOptions(asked, limit) && |r.lens| == Wanted(sizes, asked, limit)
    ensures r.Planned? ==> NamesFree(taken, PortNames(scanIn, |r.chains|) + PortNames(scanOut, |r.chains|) + [scanEnable])
    ensures r.Planned? && limit.Some? ==> forall c :: 0 <= c < |r.lens| ==> r.lens[c] <= limit.value
    ensures r == Refused(NoFlops) <==> ffs == []
    ensures r == Refused(BadOptions) <==> ffs != [] && !GoodOptions(asked, limit)
    ensures ffs != [] && GoodOptions(asked, limit) ==>
              var count := Wanted(sizes, asked, limit);
              && (r == Refused(TooFewChains) <==> count < |sizes|)
              && (r == Refused(TooManyChains) <==> |sizes| <= count && count > |ffs|)
              && (r == Refused(TooLong) <==> |sizes| <= count <= |ffs| && limit.Some? && !CanKeep(sizes, count, limit.value))
              && (r == Refused(NamesTaken) ==> !NamesFree(taken, PortNames(scanIn, count) + PortNames(scanOut, count) + [scanEnable]))
    ensures asked == 1 && limit.Some? && limit.value >= 1 && ffs != [] ==> r.Planned? || r == Refused(NamesTaken)
  {
    hide Laid, Shortest, Respects, Sum, NamesFree, ByClock, ChainsWithin, Longest, PortNames, CanKeep;
    nets, sizes := [], [];
    if ffs == [] {
      return Refused(NoFlops), nets, sizes;
    }
    var clocks, counts := DomainSizes(ffs);
    nets, sizes := clocks, counts;
    DomainsTotal(ffs, nets, sizes);
    assert ffs[0].clock in nets;
    assert forall d :: 0 <= d < |sizes| ==> sizes[d] >= 1;
    assert |sizes| == |clocks| && sizes != [];
    hide Domains;
    var count := ChainCount(counts, asked, limit);
    if count.None? {
      return Refused(BadOptions), nets, sizes;
    }
    if asked == 1 && limit.Some? {
      ghost var reach := LimitReachable(sizes, limit.value);
    }
    if count.value < |clocks| {
      return Refused(TooFewChains), nets, sizes;
    }
    var lens := DivideChains(counts, count.value);
    if lens.None? {
      return Refused(TooManyChains), nets, sizes;
    }
    if asked == 1 && limit.Some? {
      LimitKept(sizes, limit.value, lens.value);
    }
    if limit.Some? {
      ShortestTells(sizes, lens.value, limit.value);
      for c := 0 to |lens.value|
        invariant forall e :: 0 <= e < c ==> lens.value[e] <= limit.value
      {
        if lens.value[c] > limit.value {
          return Refused(TooLong), nets, sizes;
        }
      }
      LongestKeeps(lens.value, limit.value);
    }
    var free := CheckNames(taken, PortNames(scanIn, count.value) + PortNames(scanOut, count.value) + [scanEnable]);
    if !free {
      return Refused(NamesTaken), nets, sizes;
    }
    var chains := LayChains(ffs, nets, sizes, lens.value, next);
    assert Sum(lens.value) == |ffs| by { assert Respects(sizes, lens.value); }
    LaidLengths(ffs, lens.value, chains, next);
    r := Planned(lens.value, chains);
  }
}
