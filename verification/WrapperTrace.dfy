/** Tracing a wrapper chain (faultflow/project/soc_scan.py): the order of the wrapper
    cells found by walking CTI to CTO, and when the scan check accepts it. */
module WrapperTrace {
  import opened Netlist
  import opened ScanChecks

  // The two pins the trace reads are single nets.
  predicate Threads(c: Cell) { NetAt(c, CTI).Some? && NetAt(c, CTO).Some? }

  function Wrappers(m: Module): set<Name> { Elements(m, true) }

  ghost predicate AllThread(m: Module, names: set<Name>)
  {
    forall x :: x in names ==> x in m.cells && Threads(m.cells[x])
  }

  function FromNet(m: Module, x: Name): nat
    requires x in m.cells && Threads(m.cells[x])
  {
    NetAt(m.cells[x], CTI).value
  }

  function ToNet(m: Module, x: Name): nat
    requires x in m.cells && Threads(m.cells[x])
  {
    NetAt(m.cells[x], CTO).value
  }

  ghost predicate FeedsApart(m: Module, names: set<Name>)
    requires AllThread(m, names)
  {
    forall a, b :: a in names && b in names && FromNet(m, a) == FromNet(m, b) ==> a == b
  }

  ghost predicate TraceIndex(m: Module, names: set<Name>, ix: ChainIndex)
    requires AllThread(m, names)
  {
    && ix.outOf.Keys == names && (forall a :: a in names ==> ix.outOf[a] == ToNet(m, a))
    && (forall n :: n in ix.byIn ==> ix.byIn[n] in names && FromNet(m, ix.byIn[n]) == n)
    && (forall a :: a in names ==> FromNet(m, a) in ix.byIn && ix.byIn[FromNet(m, a)] == a)
  }

  // Index the wrapper cells; None at a malformed pin or a shared feed.
  method IndexWrappers(m: Module) returns (r: Option<ChainIndex>)
    ensures r.Some? <==> AllThread(m, Wrappers(m)) && FeedsApart(m, Wrappers(m))
    ensures r.Some? ==> TraceIndex(m, Wrappers(m), r.value)
  {
    hide NetAt, IsElement, Threads, FromNet, ToNet;
    var todo, ix := Wrappers(m), ChainIndex(map[], map[], {});
    ghost var done: set<Name> := {};
    while todo != {}
      invariant done + todo == Wrappers(m) && done !! todo
      invariant AllThread(m, done) && FeedsApart(m, done) && TraceIndex(m, done, ix)
    {
      var x :| x in todo;
      if !Threads(m.cells[x]) {
        assert x in Wrappers(m);
        return None;
      }
      var feed := FromNet(m, x);
      if feed in ix.byIn {
        assert ix.byIn[feed] in Wrappers(m) && x in Wrappers(m) && ix.byIn[feed] != x;
        return None;
      }
      ix := ChainIndex(ix.byIn[feed := x], ix.outOf[x := ToNet(m, x)], {});
      todo := todo - {x};
      done := done + {x};
    }
    assert done == Wrappers(m);
    r := Some(ix);
  }

  // The net before a position: the start, or what the cell before drives.
  ghost function Reached(m: Module, start: nat, path: seq<Name>, p: nat): nat
    requires AllThread(m, Wrappers(m)) && p <= |path|
  {
    if p == 0 then start else if path[p - 1] in Wrappers(m) then ToNet(m, path[p - 1]) else 0
  }

  ghost predicate Hops(m: Module, start: nat, path: seq<Name>, end: nat)
    requires AllThread(m, Wrappers(m))
  {
    && (forall p :: 0 <= p < |path| ==> path[p] in Wrappers(m))
    && (forall p :: 0 <= p < |path| ==> FromNet(m, path[p]) == Reached(m, start, path, p))
    && end == Reached(m, start, path, |path|)
  }

  ghost predicate Stops(m: Module, n: nat)
    requires AllThread(m, Wrappers(m))
  {
    forall a :: a in Wrappers(m) ==> FromNet(m, a) != n
  }

  // A maximal simple path through every wrapper cell.
  ghost predicate Traced(m: Module, start: nat, path: seq<Name>, end: nat)
    requires AllThread(m, Wrappers(m))
  {
    Hops(m, start, path, end) && Simple(path) && Stops(m, end) && Members(path) == Wrappers(m)
  }

  ghost predicate Traceable(m: Module, start: nat)
  {
    && AllThread(m, Wrappers(m)) && FeedsApart(m, Wrappers(m))
    && exists path: seq<Name>, end: nat :: Traced(m, start, path, end)
  }

  lemma HopsAre(m: Module, ix: ChainIndex, start: nat, path: seq<Name>, end: nat)
    requires AllThread(m, Wrappers(m)) && TraceIndex(m, Wrappers(m), ix)
    ensures Path(ix, start, path, end) <==> Hops(m, start, path, end)
    ensures end in ix.byIn <==> !Stops(m, end)
    ensures Path(ix, start, path, end) ==> Members(path) <= Wrappers(m)
  {
    hide FromNet, ToNet, Threads, Wrappers;
    forall p | 0 <= p <= |path| ensures NetBefore(ix, start, path, p) == Reached(m, start, path, p) {}
    hide NetBefore, Reached;
  }

  /** The trace finds the one order that runs through every wrapper cell, when there
      is one; with no wrapper cell that is the empty order. */
  method TraceWrapperChain(m: Module, start: nat) returns (r: Option<seq<Name>>, end: nat)
    ensures r.Some? <==> Traceable(m, start)
    ensures r.Some? ==> Traced(m, start, r.value, end)
  {
    hide AllThread, FeedsApart, TraceIndex, Path, Hops, Stops;
    end := start;
    var ix := IndexWrappers(m);
    if ix.None? {
      return None, end;
    }
    IndexClosed(m, ix.value);
    var ordered, cyclic;
    ordered, end, cyclic := Walk(ix.value, start);
    HopsAre(m, ix.value, start, ordered, end);
    forall path: seq<Name>, stop: nat | Traced(m, start, path, stop) ensures path == ordered && stop == end {
      HopsAre(m, ix.value, start, path, stop);
      MaximalSame(ix.value, start, path, stop, ordered, end);
    }
    var unreached := Wrappers(m) - Members(ordered);
    AllReached(Wrappers(m), Members(ordered));
    if cyclic || unreached != {} {
      return None, end;
    }
    assert Traced(m, start, ordered, end);
    r := Some(ordered);
  }

  lemma AllReached(all: set<Name>, reached: set<Name>)
    requires reached <= all
    ensures all - reached == {} <==> reached == all
  {
    if all - reached == {} {
      forall x | x in all ensures x in reached {
        assert x !in all - reached;
      }
    }
  }

  lemma IndexClosed(m: Module, ix: ChainIndex)
    requires AllThread(m, Wrappers(m)) && TraceIndex(m, Wrappers(m), ix)
    ensures forall n :: n in ix.byIn ==> ix.byIn[n] in ix.outOf
  {}

  /* ---- when the check accepts a trace ---- */

  // The pins the check reads besides: a clock, and the given scan enable.
  ghost predicate Clocked(m: Module, se: Option<nat>)
  {
    forall x :: x in Wrappers(m) ==> x in m.cells && NetAt(m.cells[x], CLK).Some? && NetAt(m.cells[x], SE).Some? && NetAt(m.cells[x], SE) == se
  }

  lemma FormedIs(m: Module)
    requires AllThread(m, Wrappers(m))
    ensures AllFormed(m, true, Elements(m, true)) <==>
              forall x :: x in Wrappers(m) ==> NetAt(m.cells[x], CLK).Some? && NetAt(m.cells[x], SE).Some?
  {
    hide NetAt;
  }

  lemma HopsConnect(m: Module, start: nat, path: seq<Name>, end: nat)
    requires AllThread(m, Wrappers(m)) && AllFormed(m, true, Elements(m, true))
    ensures Hops(m, start, path, end) <==> Connected(m, true, start, path, end)
    ensures Stops(m, end) <==> FeedsNone(m, true, end)
    ensures FeedsApart(m, Wrappers(m)) <==> FeedsDiffer(m, true, Elements(m, true))
  {
    hide NetAt, IsElement;
    forall x | x in Wrappers(m) ensures FromNet(m, x) == InNet(m, true, x) && ToNet(m, x) == OutNet(m, true, x) {}
    hide FromNet, InNet, ToNet, OutNet;
    forall p | 0 <= p <= |path| ensures Reached(m, start, path, p) == Before(m, true, start, path, p) {}
    hide Reached, Before;
  }

  // A traced order as the only chain of the manifest.
  lemma OneChain(m: Module, ch: ManifestChain, end: nat)
    requires AllThread(m, Wrappers(m)) && AllFormed(m, true, Elements(m, true)) && FeedsApart(m, Wrappers(m)) && PortNet(m, ch.scanIn, Input).Some?
    requires Traced(m, PortNet(m, ch.scanIn, Input).value, ch.cells, end)
    ensures SortHolds(m, true, [ch]) <==> PortNet(m, ch.scanOut, Output) == Some(end)
  {
    var chains, start := [ch], PortNet(m, ch.scanIn, Input).value;
    assert chains[..0] == [] && chains[0] == ch;
    assert Covered(chains) == Members(ch.cells);
    HopsConnect(m, start, ch.cells, end);
    assert ChainHolds(m, true, ch) <==> PortNet(m, ch.scanOut, Output) == Some(end) by { hide FeedsDiffer; }
    hide ChainHolds, AllFormed, FeedsDiffer, PortNet, Covered, Connected, FeedsNone;
    assert ChainsHold(m, true, chains) <==> ChainHolds(m, true, ch);
  }

  /** A traced order is accepted by the check exactly when there are wrapper cells and
      no scan flops, every wrapper cell has a clock net and the given enable, and
      the trace ends at the scan-out port: the trace itself looks at none of these. */
  lemma TraceAccepted(m: Module, ch: ManifestChain, end: nat, sePort: Name)
    requires PortNet(m, ch.scanIn, Input).Some? && Traceable(m, PortNet(m, ch.scanIn, Input).value)
    requires Traced(m, PortNet(m, ch.scanIn, Input).value, ch.cells, end)
    ensures Passes(m, [], [ch], sePort) <==>
              && Elements(m, false) == {} && ch.cells != [] && PortNet(m, sePort, Input).Some?
              && Clocked(m, PortNet(m, sePort, Input)) && PortNet(m, ch.scanOut, Output) == Some(end)
  {
    FormedIs(m);
    assert ch.cells != [] <==> Elements(m, true) != {} by {
      assert ch.cells != [] ==> ch.cells[0] in Members(ch.cells);
      assert ch.cells == [] ==> Members(ch.cells) == {};
    }
    if AllFormed(m, true, Elements(m, true)) {
      OneChain(m, ch, end);
      EnableIs(m, PortNet(m, sePort, Input));
    }
    if Elements(m, false) == {} {
      EmptySort(m);
    } else {
      NoneCovered(m);
    }
    hide ChainHolds, ChainsHold, Covered, PortNet, EnableShared, OneEnable, FeedsDiffer, Traced, NetAt, Traceable;
  }

  lemma EnableIs(m: Module, se: Option<nat>)
    requires AllFormed(m, true, Elements(m, true))
    ensures se.Some? ==> (Clocked(m, se) <==> EnableShared(m, true, Elements(m, true), se))
    ensures se.Some? && EnableShared(m, true, Elements(m, true), se) ==> OneEnable(m, Elements(m, true))
  {}

  // With scan flops and no chain for them the check fails.
  lemma NoneCovered(m: Module)
    requires Elements(m, false) != {}
    ensures !SortHolds(m, false, [])
  {}

  /* ---- traces that are not accepted ---- */

  const CELL: Name := Text("w0")
  const SCAN_IN: Name := Text("si")
  const SCAN_OUT: Name := Text("so")
  const ENABLE: Name := Text("se")

  // One wrapper cell from net 0 to net 1, with the given further pins and scan-out net.
  function OneWrapper(pins: map<Pin, seq<Bit>>, out: nat): Module
  {
    Module(map[SCAN_IN := Port(Input, [Net(0)]), SCAN_OUT := Port(Output, [Net(out)]), ENABLE := Port(Input, [Net(2)])],
           map[CELL := Cell(WbcIn(true), {CTO}, pins + map[CTI := [Net(0)], CTO := [Net(1)]])])
  }

  const WITH_CLOCK: map<Pin, seq<Bit>> := map[SE := [Net(2)], CLK := [Net(3)]]

  const NO_CLOCK: map<Pin, seq<Bit>> := map[SE := [Net(2)]]

  lemma OneTraced(pins: map<Pin, seq<Bit>>, out: nat)
    ensures var m := OneWrapper(pins, out);
            && PortNet(m, SCAN_IN, Input) == Some(0) && PortNet(m, SCAN_OUT, Output) == Some(out) && PortNet(m, ENABLE, Input) == Some(2)
            && m.cells.Keys == {CELL} && Wrappers(m) == {CELL} && Elements(m, false) == {} && Traceable(m, 0) && Traced(m, 0, [CELL], 1)
  {
    var m := OneWrapper(pins, out);
    assert Wrappers(m) == {CELL} && Elements(m, false) == {};
    assert FromNet(m, CELL) == 0 && ToNet(m, CELL) == 1;
    hide OneWrapper;
    assert Members([CELL]) == {CELL};
    assert Traced(m, 0, [CELL], 1);
  }

  const CHAIN: ManifestChain := ManifestChain(SCAN_IN, SCAN_OUT, [CELL])

  lemma OneAccepted(pins: map<Pin, seq<Bit>>, out: nat)
    ensures Passes(OneWrapper(pins, out), [], [CHAIN], ENABLE) <==> Clocked(OneWrapper(pins, out), Some(2)) && out == 1
  {
    var m := OneWrapper(pins, out);
    OneTraced(pins, out);
    hide OneWrapper, Clocked, Traced, Traceable, Passes, PortNet, Wrappers, Elements;
    TraceAccepted(m, CHAIN, 1, ENABLE);
  }

  lemma ClockedWhen()
    ensures !Clocked(OneWrapper(NO_CLOCK, 1), Some(2)) && Clocked(OneWrapper(WITH_CLOCK, 1), Some(2))
  {
    var m := OneWrapper(NO_CLOCK, 1);
    assert CELL in Wrappers(m) && NetAt(m.cells[CELL], CLK).None?;
  }

  /** A wrapper cell without a clock is traced, and so is one whose chain ends beside
      the scan-out port; the check accepts neither, and accepts the cell with a clock
      whose chain ends at the port. */
  lemma TraceNotEnough()
    ensures Traceable(OneWrapper(NO_CLOCK, 1), 0) && !Passes(OneWrapper(NO_CLOCK, 1), [], [CHAIN], ENABLE)
    ensures Traceable(OneWrapper(WITH_CLOCK, 4), 0) && !Passes(OneWrapper(WITH_CLOCK, 4), [], [CHAIN], ENABLE)
    ensures Traceable(OneWrapper(WITH_CLOCK, 1), 0) && Passes(OneWrapper(WITH_CLOCK, 1), [], [CHAIN], ENABLE)
  {
    hide *;
    OneTraced(NO_CLOCK, 1);
    OneTraced(WITH_CLOCK, 4);
    OneTraced(WITH_CLOCK, 1);
    ClockedWhen();
    OneAccepted(NO_CLOCK, 1);
    OneAccepted(WITH_CLOCK, 4);
    OneAccepted(WITH_CLOCK, 1);
  }
}
