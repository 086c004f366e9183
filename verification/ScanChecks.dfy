/** The structural scan check (faultflow/scan/checks.py): chain order re-derived by
    walking the netlist from a scan input. */
module ScanChecks {
  import opened Netlist

  // Internal scan flops shift SDI to Q, shiftable wrapper cells CTI to CTO.
  predicate IsElement(c: Cell, wrapper: bool)
  {
    if wrapper then (c.kind.WbcIn? || c.kind.WbcOut?) && c.kind.scan else c.kind.Scan?
  }

  function InPin(wrapper: bool): Pin { if wrapper then CTI else SDI }

  function OutPin(wrapper: bool): Pin { if wrapper then CTO else Q }

  // The one concrete net at a pin, if there is exactly one.
  function NetAt(c: Cell, p: Pin): Option<nat>
  {
    if p in c.conns && |c.conns[p]| == 1 && c.conns[p][0].Net? then Some(c.conns[p][0].id) else None
  }

  predicate WellFormed(c: Cell, wrapper: bool)
  {
    NetAt(c, InPin(wrapper)).Some? && NetAt(c, OutPin(wrapper)).Some? && NetAt(c, SE).Some? && NetAt(c, CLK).Some?
  }

  function Elements(m: Module, wrapper: bool): set<Name>
  {
    set inst | inst in m.cells && IsElement(m.cells[inst], wrapper)
  }

  // What the walk uses: the cell fed by a net, and the net a cell feeds; and the
  // scan enable nets in use.
  datatype ChainIndex = ChainIndex(byIn: map<nat, Name>, outOf: map<Name, nat>, enables: set<nat>)

  datatype CheckError =
    | SharedFeed(net: nat) | WrongEnable(inst: Name) | MissingPort(name: Name)
    | Cyclic(chain: nat) | WrongEnd(chain: nat) | WrongOrder(chain: nat) | Duplicate(inst: Name)
    | Missing(names: set<Name>) | Extra(names: set<Name>)

  function InNet(m: Module, wrapper: bool, inst: Name): nat
    requires inst in m.cells && WellFormed(m.cells[inst], wrapper)
  {
    NetAt(m.cells[inst], InPin(wrapper)).value
  }

  function OutNet(m: Module, wrapper: bool, inst: Name): nat
    requires inst in m.cells && WellFormed(m.cells[inst], wrapper)
  {
    NetAt(m.cells[inst], OutPin(wrapper)).value
  }

  ghost predicate AllFormed(m: Module, wrapper: bool, names: set<Name>)
  {
    forall inst :: inst in names ==> inst in m.cells && WellFormed(m.cells[inst], wrapper)
  }

  // No two chain cells are fed by one net.
  ghost predicate FeedsDiffer(m: Module, wrapper: bool, names: set<Name>)
    requires AllFormed(m, wrapper, names)
  {
    forall a, b :: a in names && b in names && InNet(m, wrapper, a) == InNet(m, wrapper, b) ==> a == b
  }

  ghost predicate EnableShared(m: Module, wrapper: bool, names: set<Name>, se: Option<nat>)
    requires AllFormed(m, wrapper, names)
  {
    forall a :: a in names && se.Some? ==> NetAt(m.cells[a], SE) == se
  }

  ghost predicate Indexes(m: Module, wrapper: bool, names: set<Name>, ix: ChainIndex)
    requires AllFormed(m, wrapper, names)
  {
    && ix.outOf.Keys == names && (forall a :: a in names ==> ix.outOf[a] == OutNet(m, wrapper, a))
    && (forall n :: n in ix.byIn ==> ix.byIn[n] in names && InNet(m, wrapper, ix.byIn[n]) == n)
    && (forall a :: a in names ==> InNet(m, wrapper, a) in ix.byIn)
    && (forall n :: n in ix.enables <==> UsesEnable(m, names, n))
  }

  ghost predicate UsesEnable(m: Module, names: set<Name>, n: nat)
  {
    exists a :: a in names && a in m.cells && NetAt(m.cells[a], SE) == Some(n)
  }

  function Entered(m: Module, wrapper: bool, ix: ChainIndex, inst: Name): ChainIndex
    requires inst in m.cells && WellFormed(m.cells[inst], wrapper)
  {
    ChainIndex(ix.byIn[InNet(m, wrapper, inst) := inst], ix.outOf[inst := OutNet(m, wrapper, inst)],
               ix.enables + {NetAt(m.cells[inst], SE).value})
  }

  // Index the chain cells of one sort; None when one has a malformed pin.
  method CollectChainCells(m: Module, wrapper: bool, se: Option<nat>) returns (r: Option<ChainIndex>, errors: seq<CheckError>)
    ensures r.Some? <==> AllFormed(m, wrapper, Elements(m, wrapper))
    ensures r.Some? ==> Indexes(m, wrapper, Elements(m, wrapper), r.value)
    ensures r.Some? ==> (errors == [] <==> FeedsDiffer(m, wrapper, Elements(m, wrapper)) && EnableShared(m, wrapper, Elements(m, wrapper), se))
  {
    hide NetAt, IsElement, InNet, OutNet, AllFormed, Indexes, FeedsDiffer, EnableShared;
    var todo := Elements(m, wrapper);
    var ix := ChainIndex(map[], map[], {});
    errors := [];
    ghost var done: set<Name> := {};
    CollectStart(m, wrapper, se);
    while todo != {}
      invariant done + todo == Elements(m, wrapper) && done !! todo
      invariant AllFormed(m, wrapper, done) && Indexes(m, wrapper, done, ix)
      invariant errors == [] <==> FeedsDiffer(m, wrapper, done) && EnableShared(m, wrapper, done, se)
    {
      var inst :| inst in todo;
      var c := m.cells[inst];
      if !WellFormed(c, wrapper) {
        NotFormed(m, wrapper, Elements(m, wrapper), inst);
        return None, errors;
      }
      FormedStep(m, wrapper, done, inst);
      IndexStep(m, wrapper, done, ix, inst);
      DifferStep(m, wrapper, done, ix, inst);
      EnableStep(m, wrapper, done, inst, se);
      var chainIn := InNet(m, wrapper, inst);
      if chainIn in ix.byIn {
        errors := errors + [SharedFeed(chainIn)];
      }
      ix := Entered(m, wrapper, ix, inst);
      if se.Some? && NetAt(c, SE) != se {
        errors := errors + [WrongEnable(inst)];
      }
      todo := todo - {inst};
      done := done + {inst};
    }
    assert done == Elements(m, wrapper);
    r := Some(ix);
  }

  lemma CollectStart(m: Module, wrapper: bool, se: Option<nat>)
    ensures AllFormed(m, wrapper, {}) && Indexes(m, wrapper, {}, ChainIndex(map[], map[], {}))
    ensures FeedsDiffer(m, wrapper, {}) && EnableShared(m, wrapper, {}, se)
  {}

  lemma NotFormed(m: Module, wrapper: bool, names: set<Name>, inst: Name)
    requires inst in names && inst in m.cells && !WellFormed(m.cells[inst], wrapper)
    ensures !AllFormed(m, wrapper, names)
  {}

  lemma FormedStep(m: Module, wrapper: bool, done: set<Name>, inst: Name)
    requires AllFormed(m, wrapper, done) && inst in m.cells && WellFormed(m.cells[inst], wrapper)
    ensures AllFormed(m, wrapper, done + {inst})
  {}

  lemma IndexStep(m: Module, wrapper: bool, done: set<Name>, ix: ChainIndex, inst: Name)
    requires AllFormed(m, wrapper, done) && Indexes(m, wrapper, done, ix) && AllFormed(m, wrapper, done + {inst})
    requires inst in m.cells && WellFormed(m.cells[inst], wrapper) && inst !in done
    ensures Indexes(m, wrapper, done + {inst}, Entered(m, wrapper, ix, inst))
  {
    hide WellFormed, NetAt, IsElement, UsesEnable, InNet, OutNet;
    EnablesMore(m, wrapper, done, inst);
    OutsMore(m, wrapper, done, ix, inst);
    InsMore(m, wrapper, done, ix, inst);
  }

  lemma OutsMore(m: Module, wrapper: bool, done: set<Name>, ix: ChainIndex, inst: Name)
    requires AllFormed(m, wrapper, done) && Indexes(m, wrapper, done, ix) && AllFormed(m, wrapper, done + {inst})
    ensures var outs := ix.outOf[inst := OutNet(m, wrapper, inst)];
            outs.Keys == done + {inst} && forall a :: a in done + {inst} ==> outs[a] == OutNet(m, wrapper, a)
  {
    hide WellFormed, NetAt, UsesEnable, InNet, OutNet;
  }

  lemma InsMore(m: Module, wrapper: bool, done: set<Name>, ix: ChainIndex, inst: Name)
    requires AllFormed(m, wrapper, done) && Indexes(m, wrapper, done, ix) && AllFormed(m, wrapper, done + {inst})
    ensures var ins := ix.byIn[InNet(m, wrapper, inst) := inst];
            && (forall n :: n in ins ==> ins[n] in done + {inst} && InNet(m, wrapper, ins[n]) == n)
            && (forall a :: a in done + {inst} ==> InNet(m, wrapper, a) in ins)
  {
    hide WellFormed, NetAt, UsesEnable, InNet, OutNet;
  }

  lemma EnablesMore(m: Module, wrapper: bool, done: set<Name>, inst: Name)
    requires inst in m.cells && WellFormed(m.cells[inst], wrapper)
    ensures forall n: nat :: UsesEnable(m, done + {inst}, n) <==> UsesEnable(m, done, n) || n == NetAt(m.cells[inst], SE).value
  {
    hide NetAt;
  }

  lemma DifferStep(m: Module, wrapper: bool, done: set<Name>, ix: ChainIndex, inst: Name)
    requires AllFormed(m, wrapper, done) && Indexes(m, wrapper, done, ix) && AllFormed(m, wrapper, done + {inst})
    requires inst in m.cells && WellFormed(m.cells[inst], wrapper) && inst !in done
    ensures FeedsDiffer(m, wrapper, done + {inst}) <==> FeedsDiffer(m, wrapper, done) && InNet(m, wrapper, inst) !in ix.byIn
  {
    hide WellFormed, NetAt, IsElement, UsesEnable;
    var n := InNet(m, wrapper, inst);
    if n in ix.byIn {
      assert ix.byIn[n] in done + {inst} && inst in done + {inst};
    }
  }

  lemma EnableStep(m: Module, wrapper: bool, done: set<Name>, inst: Name, se: Option<nat>)
    requires AllFormed(m, wrapper, done) && AllFormed(m, wrapper, done + {inst}) && inst in m.cells
    ensures EnableShared(m, wrapper, done + {inst}, se)
       <==> EnableShared(m, wrapper, done, se) && (se.Some? ==> NetAt(m.cells[inst], SE) == se)
  {
    hide WellFormed, NetAt;
  }

  /* ---- the walk ---- */

  // The cells of a path, in order, from the net it starts at to the net it ends at.
  ghost predicate Path(ix: ChainIndex, start: nat, path: seq<Name>, end: nat)
  {
    && (forall p :: 0 <= p < |path| ==> path[p] in ix.outOf)
    && (forall p :: 0 <= p < |path| ==> NetBefore(ix, start, path, p) in ix.byIn && ix.byIn[NetBefore(ix, start, path, p)] == path[p])
    && end == NetBefore(ix, start, path, |path|)
  }

  function NetBefore(ix: ChainIndex, start: nat, path: seq<Name>, p: nat): nat
    requires p <= |path|
  {
    if p == 0 then start else if path[p - 1] in ix.outOf then ix.outOf[path[p - 1]] else 0
  }

  ghost predicate Simple(path: seq<Name>) { forall i, j :: 0 <= i < j < |path| ==> path[i] != path[j] }

  function Members(path: seq<Name>): set<Name> { set x | x in path }

  // A walk over an index ends, either where no cell is fed or at a cell seen before.
  method Walk(ix: ChainIndex, start: nat) returns (derived: seq<Name>, end: nat, cyclic: bool)
    requires forall n :: n in ix.byIn ==> ix.byIn[n] in ix.outOf
    ensures Path(ix, start, derived, end) && Simple(derived)
    ensures cyclic <==> end in ix.byIn
    ensures cyclic ==> ix.byIn[end] in derived
  {
    derived, end, cyclic := [], start, false;
    while end in ix.byIn
      invariant Path(ix, start, derived, end) && Simple(derived) && !cyclic
      decreases ix.outOf.Keys - Members(derived)
    {
      var inst := ix.byIn[end];
      if inst in derived {
        cyclic := true;
        break;
      }
      PathStep(ix, start, derived, end);
      assert inst in ix.outOf.Keys - Members(derived);
      derived := derived + [inst];
      end := ix.outOf[inst];
    }
  }

  lemma PathStep(ix: ChainIndex, start: nat, path: seq<Name>, end: nat)
    requires Path(ix, start, path, end) && end in ix.byIn && ix.byIn[end] in ix.outOf
    ensures Path(ix, start, path + [ix.byIn[end]], ix.outOf[ix.byIn[end]])
  {
    var inst := ix.byIn[end];
    var more := path + [inst];
    forall p | 0 <= p < |more| ensures NetBefore(ix, start, more, p) in ix.byIn && ix.byIn[NetBefore(ix, start, more, p)] == more[p] {
      if p < |path| {
        assert NetBefore(ix, start, path, p) == NetBefore(ix, start, more, p);
      }
    }
  }

  // Walks are deterministic: a maximal simple path from a net is the only one.
  lemma PathUnique(ix: ChainIndex, start: nat, a: seq<Name>, endA: nat, b: seq<Name>, endB: nat)
    requires Path(ix, start, a, endA) && Path(ix, start, b, endB) && |a| <= |b|
    ensures a == b[..|a|]
  {
    forall n | 0 <= n < |a| ensures a[n] == b[n] {
      StepUnique(ix, start, a, endA, b, endB, n);
    }
  }

  lemma {:induction false} StepUnique(ix: ChainIndex, start: nat, a: seq<Name>, endA: nat, b: seq<Name>, endB: nat, n: nat)
    requires Path(ix, start, a, endA) && Path(ix, start, b, endB) && n < |a| <= |b|
    ensures a[n] == b[n]
    decreases n
  {
    if n > 0 {
      StepUnique(ix, start, a, endA, b, endB, n - 1);
    }
    assert NetBefore(ix, start, a, n) == NetBefore(ix, start, b, n);
  }

  /* ---- a chain in the netlist ---- */

  datatype ManifestChain = ManifestChain(scanIn: Name, scanOut: Name, cells: seq<Name>)

  function PortNet(m: Module, name: Name, dir: Dir): Option<nat>
  {
    if name in m.ports && m.ports[name].dir == dir && |m.ports[name].bits| == 1 && m.ports[name].bits[0].Net? then
      Some(m.ports[name].bits[0].id)
    else None
  }

  // The net before a position: the start, or what the cell before drives.
  ghost function Before(m: Module, wrapper: bool, start: nat, path: seq<Name>, p: nat): nat
    requires AllFormed(m, wrapper, Elements(m, wrapper)) && p <= |path|
  {
    if p == 0 then start else if path[p - 1] in Elements(m, wrapper) then OutNet(m, wrapper, path[p - 1]) else 0
  }

  ghost predicate Connected(m: Module, wrapper: bool, start: nat, path: seq<Name>, end: nat)
    requires AllFormed(m, wrapper, Elements(m, wrapper))
  {
    && (forall p :: 0 <= p < |path| ==> path[p] in Elements(m, wrapper))
    && (forall p :: 0 <= p < |path| ==> InNet(m, wrapper, path[p]) == Before(m, wrapper, start, path, p))
    && end == Before(m, wrapper, start, path, |path|)
  }

  ghost predicate FeedsNone(m: Module, wrapper: bool, n: nat)
    requires AllFormed(m, wrapper, Elements(m, wrapper))
  {
    forall a :: a in Elements(m, wrapper) ==> InNet(m, wrapper, a) != n
  }

  // A manifest chain is a simple path from its scan-in port to its scan-out port.
  ghost predicate ChainHolds(m: Module, wrapper: bool, ch: ManifestChain)
    requires AllFormed(m, wrapper, Elements(m, wrapper))
  {
    && PortNet(m, ch.scanIn, Input).Some? && PortNet(m, ch.scanOut, Output).Some?
    && Connected(m, wrapper, PortNet(m, ch.scanIn, Input).value, ch.cells, PortNet(m, ch.scanOut, Output).value)
    && Simple(ch.cells) && FeedsNone(m, wrapper, PortNet(m, ch.scanOut, Output).value)
  }

  lemma FeedIndexed(m: Module, wrapper: bool, ix: ChainIndex, n: nat, inst: Name)
    requires AllFormed(m, wrapper, Elements(m, wrapper)) && Indexes(m, wrapper, Elements(m, wrapper), ix)
    requires FeedsDiffer(m, wrapper, Elements(m, wrapper))
    ensures n in ix.byIn && ix.byIn[n] == inst <==> inst in Elements(m, wrapper) && InNet(m, wrapper, inst) == n
  {
    hide WellFormed, NetAt, IsElement, UsesEnable;
  }

  // Walking the index is walking the netlist.
  lemma PathConnects(m: Module, wrapper: bool, ix: ChainIndex, start: nat, path: seq<Name>, end: nat)
    requires AllFormed(m, wrapper, Elements(m, wrapper)) && Indexes(m, wrapper, Elements(m, wrapper), ix)
    requires FeedsDiffer(m, wrapper, Elements(m, wrapper))
    ensures Path(ix, start, path, end) <==> Connected(m, wrapper, start, path, end)
    ensures end in ix.byIn <==> !FeedsNone(m, wrapper, end)
  {
    hide FeedsDiffer, InNet, OutNet, UsesEnable, WellFormed, Elements;
    forall p | 0 <= p <= |path| ensures NetBefore(ix, start, path, p) == Before(m, wrapper, start, path, p) {}
    forall p | 0 <= p < |path|
      ensures var n := NetBefore(ix, start, path, p);
              n in ix.byIn && ix.byIn[n] == path[p] <==> path[p] in Elements(m, wrapper) && InNet(m, wrapper, path[p]) == n
    {
      FeedIndexed(m, wrapper, ix, NetBefore(ix, start, path, p), path[p]);
    }
    hide NetBefore, Before;
  }

  // The walk finds the manifest's order exactly when the chain holds.
  lemma WalkDecides(m: Module, wrapper: bool, ix: ChainIndex, ch: ManifestChain, derived: seq<Name>, end: nat)
    requires AllFormed(m, wrapper, Elements(m, wrapper)) && Indexes(m, wrapper, Elements(m, wrapper), ix)
    requires FeedsDiffer(m, wrapper, Elements(m, wrapper))
    requires PortNet(m, ch.scanIn, Input).Some? && PortNet(m, ch.scanOut, Output).Some?
    requires Path(ix, PortNet(m, ch.scanIn, Input).value, derived, end) && Simple(derived)
    requires end in ix.byIn ==> ix.byIn[end] in derived
    ensures ChainHolds(m, wrapper, ch) <==>
              end !in ix.byIn && end == PortNet(m, ch.scanOut, Output).value && derived == ch.cells
  {
    var start, out := PortNet(m, ch.scanIn, Input).value, PortNet(m, ch.scanOut, Output).value;
    hide FeedsDiffer, Indexes, AllFormed, Connected, PortNet, FeedsNone;
    PathConnects(m, wrapper, ix, start, ch.cells, out);
    PathConnects(m, wrapper, ix, start, derived, end);
    if ChainHolds(m, wrapper, ch) {
      MaximalSame(ix, start, ch.cells, out, derived, end);
    }
  }

  lemma MaximalSame(ix: ChainIndex, start: nat, a: seq<Name>, endA: nat, b: seq<Name>, endB: nat)
    requires Path(ix, start, a, endA) && Simple(a) && endA !in ix.byIn
    requires Path(ix, start, b, endB) && Simple(b) && (endB in ix.byIn ==> ix.byIn[endB] in b)
    ensures a == b && endA == endB
  {
    if |a| < |b| {
      LongerFed(ix, start, a, endA, b, endB);
    } else if |b| < |a| {
      LongerFed(ix, start, b, endB, a, endA);
    } else {
      PathUnique(ix, start, a, endA, b, endB);
    }
  }

  // A longer path goes on through the cell fed by the shorter one's end.
  lemma LongerFed(ix: ChainIndex, start: nat, a: seq<Name>, endA: nat, b: seq<Name>, endB: nat)
    requires Path(ix, start, a, endA) && Path(ix, start, b, endB) && |a| < |b|
    ensures endA in ix.byIn && ix.byIn[endA] == b[|a|] && a == b[..|a|]
  {
    PathUnique(ix, start, a, endA, b, endB);
    assert NetBefore(ix, start, b, |a|) == NetBefore(ix, start, a, |a|);
  }

  /* ---- all chains ---- */

  ghost predicate ChainsHold(m: Module, wrapper: bool, chains: seq<ManifestChain>)
    requires AllFormed(m, wrapper, Elements(m, wrapper))
  {
    && (forall c :: 0 <= c < |chains| ==> ChainHolds(m, wrapper, chains[c]))
    && (forall c, e, x :: 0 <= c < e < |chains| && x in chains[c].cells ==> x !in chains[e].cells)
  }

  function Covered(chains: seq<ManifestChain>): set<Name>
  {
    if chains == [] then {} else Covered(chains[..|chains| - 1]) + Members(chains[|chains| - 1].cells)
  }

  lemma {:induction false} CoveredIs(chains: seq<ManifestChain>, x: Name)
    ensures x in Covered(chains) <==> exists c :: 0 <= c < |chains| && x in chains[c].cells
  {
    if chains != [] {
      var n := |chains| - 1;
      CoveredIs(chains[..n], x);
      if c :| 0 <= c < n && x in chains[c].cells {
        assert chains[..n][c] == chains[c];
      }
      if c :| 0 <= c < n && x in chains[..n][c].cells {
        assert chains[..n][c] == chains[c];
      }
    }
  }

  lemma HoldsStep(m: Module, wrapper: bool, chains: seq<ManifestChain>, n: nat)
    requires AllFormed(m, wrapper, Elements(m, wrapper)) && n < |chains|
    ensures ChainsHold(m, wrapper, chains[..n + 1]) <==>
              ChainsHold(m, wrapper, chains[..n]) && ChainHolds(m, wrapper, chains[n]) && Covered(chains[..n]) !! Members(chains[n].cells)
  {
    hide ChainHolds;
    var front, all := chains[..n], chains[..n + 1];
    assert forall c :: 0 <= c < n ==> all[c] == front[c];
    assert all[n] == chains[n];
    if ChainsHold(m, wrapper, all) {
      forall x | x in Covered(front) ensures x !in chains[n].cells {
        CoveredIs(front, x);
      }
      assert ChainHolds(m, wrapper, all[n]);
    }
    if Covered(front) !! Members(chains[n].cells) {
      forall c, x | 0 <= c < n && x in all[c].cells ensures x !in all[n].cells {
        CoveredIs(front, x);
        assert front[c] == all[c];
        assert x in Covered(front);
      }
    }
  }

  // Re-derive every chain; no error exactly when each holds and they are disjoint.
  method ValidateChains(m: Module, wrapper: bool, chains: seq<ManifestChain>, ix: ChainIndex)
    returns (seen: set<Name>, errors: seq<CheckError>)
    requires AllFormed(m, wrapper, Elements(m, wrapper)) && Indexes(m, wrapper, Elements(m, wrapper), ix)
    ensures FeedsDiffer(m, wrapper, Elements(m, wrapper)) ==> (errors == [] <==> ChainsHold(m, wrapper, chains))
    ensures FeedsDiffer(m, wrapper, Elements(m, wrapper)) && errors == [] ==> seen == Covered(chains)
    ensures seen <= Elements(m, wrapper)
  {
    seen, errors := {}, [];
    assert forall n :: n in ix.byIn ==> ix.byIn[n] in ix.outOf;
    hide Indexes, FeedsDiffer, AllFormed, ChainHolds, PortNet, Path, Simple, Covered, Elements;
    assert ChainsHold(m, wrapper, chains[..0]) && Covered(chains[..0]) == {} by { NoneHold(m, wrapper, chains[..0]); }
    ghost var apart := FeedsDiffer(m, wrapper, Elements(m, wrapper));
    for c := 0 to |chains|
      invariant apart ==> (errors == [] <==> ChainsHold(m, wrapper, chains[..c]))
      invariant apart && errors == [] ==> seen == Covered(chains[..c])
      invariant seen <= Elements(m, wrapper)
    {
      HoldsStep(m, wrapper, chains, c);
      CoveredStep(chains, c);
      hide ChainsHold;
      var ch := chains[c];
      var from, to := PortNet(m, ch.scanIn, Input), PortNet(m, ch.scanOut, Output);
      if from.None? || to.None? {
        NoPort(m, wrapper, ch);
        errors := errors + [MissingPort(ch.scanIn)];
      } else {
        var derived, end, cyclic := Walk(ix, from.value);
        WalkStays(m, wrapper, ix, from.value, derived, end);
        if apart {
          WalkDecides(m, wrapper, ix, ch, derived, end);
        }
        if cyclic {
          errors := errors + [Cyclic(c)];
        }
        if end != to.value {
          errors := errors + [WrongEnd(c)];
        }
        if derived != ch.cells {
          errors := errors + [WrongOrder(c)];
        }
        var repeated;
        seen, repeated := MarkSeen(seen, derived);
        errors := errors + repeated;
      }
    }
    assert chains[..|chains|] == chains;
  }

  lemma NoneHold(m: Module, wrapper: bool, chains: seq<ManifestChain>)
    requires AllFormed(m, wrapper, Elements(m, wrapper)) && chains == []
    ensures ChainsHold(m, wrapper, chains) && Covered(chains) == {}
  {}

  lemma CoveredStep(chains: seq<ManifestChain>, n: nat)
    requires n < |chains|
    ensures Covered(chains[..n + 1]) == Covered(chains[..n]) + Members(chains[n].cells)
  {
    assert chains[..n + 1][..n] == chains[..n];
  }

  lemma NoPort(m: Module, wrapper: bool, ch: ManifestChain)
    requires AllFormed(m, wrapper, Elements(m, wrapper))
    requires PortNet(m, ch.scanIn, Input).None? || PortNet(m, ch.scanOut, Output).None?
    ensures !ChainHolds(m, wrapper, ch)
  {}

  lemma WalkStays(m: Module, wrapper: bool, ix: ChainIndex, start: nat, path: seq<Name>, end: nat)
    requires AllFormed(m, wrapper, Elements(m, wrapper)) && Indexes(m, wrapper, Elements(m, wrapper), ix)
    requires Path(ix, start, path, end)
    ensures Members(path) <= Elements(m, wrapper)
  {
    hide WellFormed, NetAt, IsElement, InNet, OutNet, UsesEnable;
  }

  method MarkSeen(before: set<Name>, derived: seq<Name>) returns (seen: set<Name>, errors: seq<CheckError>)
    requires Simple(derived)
    ensures seen == before + Members(derived)
    ensures errors == [] <==> before !! Members(derived)
  {
    seen, errors := before, [];
    for i := 0 to |derived|
      invariant seen == before + Members(derived[..i])
      invariant errors == [] <==> before !! Members(derived[..i])
    {
      assert derived[..i + 1] == derived[..i] + [derived[i]];
      assert Members(derived[..i + 1]) == Members(derived[..i]) + {derived[i]};
      assert derived[i] !in Members(derived[..i]);
      if derived[i] in seen {
        errors := errors + [Duplicate(derived[i])];
      }
      seen := seen + {derived[i]};
    }
    assert derived[..|derived|] == derived;
  }

  /* ---- the whole check ---- */

  // The cells of one sort are exactly the cells of disjoint simple paths.
  ghost predicate SortHolds(m: Module, wrapper: bool, chains: seq<ManifestChain>)
  {
    && AllFormed(m, wrapper, Elements(m, wrapper)) && FeedsDiffer(m, wrapper, Elements(m, wrapper))
    && ChainsHold(m, wrapper, chains) && Covered(chains) == Elements(m, wrapper)
  }

  ghost predicate OneEnable(m: Module, names: set<Name>)
  {
    forall a, b :: a in names && b in names && a in m.cells && b in m.cells ==> NetAt(m.cells[a], SE) == NetAt(m.cells[b], SE)
  }

  ghost predicate Passes(m: Module, chains: seq<ManifestChain>, wrappers: seq<ManifestChain>, sePort: Name)
  {
    && PortNet(m, sePort, Input).Some?
    && SortHolds(m, false, chains) && SortHolds(m, true, wrappers)
    && EnableShared(m, false, Elements(m, false), PortNet(m, sePort, Input))
    && OneEnable(m, Elements(m, true))
    && (Elements(m, false) == {} ==> EnableShared(m, true, Elements(m, true), PortNet(m, sePort, Input)))
    && Elements(m, false) + Elements(m, true) != {}
  }

  // One sort of cell: index, validate, compare with the cells present.
  method CheckSort(m: Module, wrapper: bool, chains: seq<ManifestChain>, se: Option<nat>)
    returns (r: Option<ChainIndex>, errors: seq<CheckError>)
    ensures r.Some? <==> AllFormed(m, wrapper, Elements(m, wrapper))
    ensures r.Some? ==> Indexes(m, wrapper, Elements(m, wrapper), r.value)
    ensures r.Some? ==> (errors == [] <==> SortHolds(m, wrapper, chains) && EnableShared(m, wrapper, Elements(m, wrapper), se))
  {
    hide AllFormed, Indexes, FeedsDiffer, ChainsHold, EnableShared, Covered;
    r, errors := CollectChainCells(m, wrapper, se);
    if r.None? {
      return;
    }
    var seen, bad := ValidateChains(m, wrapper, chains, r.value);
    ghost var shared := errors;
    errors := errors + bad;
    var missing := Elements(m, wrapper) - seen;
    if missing != {} {
      errors := errors + [Missing(missing)];
    }
    var extra := seen - Elements(m, wrapper);
    if extra != {} {
      errors := errors + [Extra(extra)];
    }
    assert missing == {} <==> seen == Elements(m, wrapper);
  }

  lemma FewEnables(m: Module, names: set<Name>, ix: ChainIndex)
    requires AllFormed(m, true, names) && Indexes(m, true, names, ix)
    ensures |ix.enables| <= 1 <==> OneEnable(m, names)
  {
    EnablesUsed(m, names, ix);
    hide AllFormed, Indexes, NetAt;
    if |ix.enables| <= 1 {
      forall a, b | a in names && b in names && a in m.cells && b in m.cells ensures NetAt(m.cells[a], SE) == NetAt(m.cells[b], SE) {
        OnlyMember(ix.enables, NetAt(m.cells[a], SE).value, NetAt(m.cells[b], SE).value);
      }
    } else {
      var x, y := TwoMembers(ix.enables);
      assert UsesEnable(m, names, x) && UsesEnable(m, names, y);
    }
  }

  lemma EnablesUsed(m: Module, names: set<Name>, ix: ChainIndex)
    requires AllFormed(m, true, names) && Indexes(m, true, names, ix)
    ensures forall a :: a in names && a in m.cells ==> NetAt(m.cells[a], SE).Some? && NetAt(m.cells[a], SE).value in ix.enables
    ensures forall n :: n in ix.enables ==> UsesEnable(m, names, n)
  {
    hide InNet, OutNet;
    forall a | a in names && a in m.cells ensures NetAt(m.cells[a], SE).Some? && NetAt(m.cells[a], SE).value in ix.enables {
      assert UsesEnable(m, names, NetAt(m.cells[a], SE).value);
    }
  }

  lemma OnlyMember(s: set<nat>, x: nat, y: nat)
    requires |s| <= 1 && x in s && y in s
    ensures x == y
  {
    if x != y {
      SubsetSize({x, y}, s);
    }
  }

  lemma TwoMembers(s: set<nat>) returns (x: nat, y: nat)
    requires |s| > 1
    ensures x in s && y in s && x != y
  {
    x :| x in s;
    var rest := s - {x};
    assert |rest| == |s| - 1;
    y :| y in rest;
  }

  lemma SubsetSize(a: set<nat>, b: set<nat>)
    requires a <= b
    ensures |a| <= |b|
    decreases a
  {
    if a != {} {
      var x :| x in a;
      SubsetSize(a - {x}, b - {x});
    }
  }

  lemma EnablesAre(m: Module, names: set<Name>, ix: ChainIndex, se: nat)
    requires AllFormed(m, true, names) && Indexes(m, true, names, ix)
    ensures (ix.enables == {} || ix.enables == {se}) <==> EnableShared(m, true, names, Some(se))
  {
    hide InNet, OutNet;
    if EnableShared(m, true, names, Some(se)) {
      forall n | n in ix.enables ensures n == se {
        assert UsesEnable(m, names, n);
      }
      if ix.enables != {} {
        assert ix.enables == {se};
      }
    }
    if ix.enables == {} || ix.enables == {se} {
      forall a | a in names ensures NetAt(m.cells[a], SE) == Some(se) {
        assert UsesEnable(m, names, NetAt(m.cells[a], SE).value);
      }
    }
  }

  /** No error exactly when the netlist passes: both sorts of chain cell are
      partitioned into the manifest's simple scan-in to scan-out paths. */
  method CheckScan(m: Module, chains: seq<ManifestChain>, wrappers: seq<ManifestChain>, sePort: Name) returns (pass: bool)
    ensures pass <==> Passes(m, chains, wrappers, sePort)
  {
    hide AllFormed, Indexes, FeedsDiffer, ChainsHold, EnableShared, Covered, PortNet, OneEnable;
    var se := PortNet(m, sePort, Input);
    if se.None? {
      return false;
    }
    var ff, errors := CheckSort(m, false, chains, se);
    if ff.None? {
      return false;
    }
    var wbr, bad := CheckSort(m, true, wrappers, None);
    if wbr.None? {
      return false;
    }
    NoEnable(m);
    FewEnables(m, Elements(m, true), wbr.value);
    EnablesAre(m, Elements(m, true), wbr.value, se.value);
    if errors != [] || bad != [] {
      return false;
    }
    if |wbr.value.enables| > 1 {
      return false;
    }
    if wbr.value.enables != {} && Elements(m, false) == {} && wbr.value.enables != {se.value} {
      return false;
    }
    pass := Elements(m, false) + Elements(m, true) != {};
  }

  /** A netlist passes only if the manifest's chains list exactly its scan flops, and the
      wrapper chains exactly its shiftable wrapper cells; plain wrapper cells are in none. */
  lemma PassLists(m: Module, chains: seq<ManifestChain>, wrappers: seq<ManifestChain>, sePort: Name, x: Name)
    requires Passes(m, chains, wrappers, sePort) && x in m.cells
    ensures (exists c :: 0 <= c < |chains| && x in chains[c].cells) <==> m.cells[x].kind.Scan?
    ensures (exists c :: 0 <= c < |wrappers| && x in wrappers[c].cells)
       <==> m.cells[x].kind == WbcIn(true) || m.cells[x].kind == WbcOut(true)
  {
    CoveredIs(chains, x);
    CoveredIs(wrappers, x);
    hide Covered, ChainsHold, FeedsDiffer, AllFormed, EnableShared, OneEnable, PortNet;
    assert x in Covered(chains) <==> x in Elements(m, false);
    assert x in Covered(wrappers) <==> x in Elements(m, true);
  }

  lemma NoEnable(m: Module)
    requires AllFormed(m, true, Elements(m, true))
    ensures EnableShared(m, true, Elements(m, true), None)
  {}

  lemma EmptySort(m: Module)
    requires Elements(m, false) == {}
    ensures SortHolds(m, false, []) && forall se :: EnableShared(m, false, Elements(m, false), se)
  {}
}
