/** Grading stuck flop outputs on the reduced view alone
    (faultflow/scan/detection_pipeline.py): exactly when that trust is misplaced,
    and a two-flop design where it is. */
module QStemExample {
  import opened Netlist
  import opened NetlistEval
  import opened ShiftRegister
  import opened ScanView
  import opened ViewMeaning
  import opened ViewFinish
  import opened ScanProtocol
  import opened ScanGrading

  /** The capture-value credit is sound: a fault-free captured value at the stuck
      flop other than the stuck value is always seen in the unload. */
  lemma CaptureCredit(d: Design, s: Setup, p: Finish, f: Fault, pat: Pattern, st0: State,
                      good: Valuation, faulty: Valuation, c0: nat, p0: nat)
    requires SameDesign(d, s, p) && FaultBelow(f, s.next) && OffInputs(d, f) && Fits(d, pat)
    requires c0 < |d.chains| && StuckAt(d.g, d.chains[c0], f, p0)
    requires ViewPair(d, s, p, f, pat, LoadState(d, pat, st0, pat.n), good, faulty)
    requires Shown(ReducedView(s, p), good, Made(Ppo, d.chains[c0].cells[p0])) != [f.value]
    ensures ProtocolDetects(d, s, p, f, pat, LoadState(d, pat, st0, pat.n))
  {
    hide SameDesign, FaultBelow, OffInputs, Fits, ViewPair, ReducedView, Shown, ProtocolDetects, LoadState;
    QStemGrade(d, s, p, f, pat, st0, good, faulty, c0, p0);
  }

  // The view's detection rests on pseudo-outputs that the stuck output hides.
  ghost predicate Hidden(d: Design, s: Setup, p: Finish, f: Fault, n: nat, good: Valuation, faulty: Valuation, c0: nat, p0: nat)
    requires c0 < |d.chains| && p0 < |d.chains[c0].cells| && f.Stuck?
  {
    var m := ReducedView(s, p);
    && !OutputSeen(s, p, m, good, faulty) && !SeenBeyond(d, m, good, faulty, c0, p0)
    && (forall q :: 0 <= q <= p0 ==> Shown(m, good, Made(Ppo, d.chains[c0].cells[q])) == [f.value])
    && (!f.value || |d.chains[c0].cells| >= n)
  }

  /** Trusting a view detection of a stuck flop output is right exactly when the
      detection does not rest on hidden pseudo-outputs alone. */
  lemma TrustExact(d: Design, s: Setup, p: Finish, f: Fault, pat: Pattern, st0: State,
                   good: Valuation, faulty: Valuation, c0: nat, p0: nat)
    requires SameDesign(d, s, p) && FaultBelow(f, s.next) && OffInputs(d, f) && Fits(d, pat)
    requires c0 < |d.chains| && StuckAt(d.g, d.chains[c0], f, p0)
    requires ViewPair(d, s, p, f, pat, LoadState(d, pat, st0, pat.n), good, faulty)
    requires ViewDetects(s, p, ReducedView(s, p), good, faulty)
    ensures ProtocolDetects(d, s, p, f, pat, LoadState(d, pat, st0, pat.n)) <==> !Hidden(d, s, p, f, pat.n, good, faulty, c0, p0)
  {
    hide SameDesign, FaultBelow, OffInputs, ViewPair, ReducedView, Shown, ProtocolDetects, LoadState, OutputSeen, SeenBeyond;
    QStemGrade(d, s, p, f, pat, st0, good, faulty, c0, p0);
  }

  /* ---- two flops and an inverter ---- */

  const F0 := Text("f")
  const F1 := Text("ff")
  const NOT := Text("inv")
  const SE_PORT := Text("se")
  const SI := Text("si")
  const SO := Text("so")

  // Flop 0 captures the inverse of flop 1's output; flop 1 captures 0.
  const FLOP0 := Cell(Scan(NoControl), {Q}, map[D := [Net(5)], SDI := [Net(2)], SE := [Net(1)], Q := [Net(3)]])
  const FLOP1 := Cell(Scan(NoControl), {Q}, map[D := [Lit(false)], SDI := [Net(3)], SE := [Net(1)], Q := [Net(4)]])

  const NETLIST := Module(map[SE_PORT := Port(Input, [Net(1)]), SI := Port(Input, [Net(2)]), SO := Port(Output, [Net(4)])],
                          map[F0 := FLOP0, F1 := FLOP1, NOT := InvCell(Net(4), 5)])

  function Rank(n: nat): nat { if n == 5 then 2 else if n == 3 || n == 4 then 1 else 0 }

  function TwoFlops(lib: Library): Design
  {
    Design(lib, NETLIST, Rank, [Chain(SI, SO, [F0, F1])], 1, SE_PORT)
  }

  const SCAN_PORTS: set<Name> := {SE_PORT, SI, SO}

  const CUTS := Setup(NETLIST, 6, [F0, F1], (x: Name) => false, SCAN_PORTS, 1)

  const ENDS := Finish(SCAN_PORTS, SE_PORT, (x: Name) => 0, (x: Name) => false)

  lemma NetlistIs()
    ensures NETLIST.ports.Keys == {SE_PORT, SI, SO} && NETLIST.cells.Keys == {F0, F1, NOT}
    ensures NETLIST.ports[SE_PORT] == Port(Input, [Net(1)]) && NETLIST.ports[SI] == Port(Input, [Net(2)]) && NETLIST.ports[SO] == Port(Output, [Net(4)])
    ensures NETLIST.cells[F0] == FLOP0 && NETLIST.cells[F1] == FLOP1 && NETLIST.cells[NOT] == InvCell(Net(4), 5)
    ensures F0 != F1 && F0 != NOT && F1 != NOT && SE_PORT != SI && SE_PORT != SO && SI != SO
  {
    assert |"f"| != |"ff"| && |"f"| != |"inv"| && |"ff"| != |"inv"|;
    assert "se"[1] != "si"[1] && "se"[1] != "so"[1] && "si"[1] != "so"[1];
  }

  // The one site that drives each net.
  function SiteOf(n: nat): Site
  {
    if n == 1 then PortBit(SE_PORT, 0) else if n == 2 then PortBit(SI, 0)
    else if n == 3 then CellPin(F0, Q, 0) else if n == 4 then CellPin(F1, Q, 0) else CellPin(NOT, Y, 0)
  }

  lemma OneSite(s: Site, n: nat)
    ensures Drives(NETLIST, s, n) <==> 1 <= n <= 5 && s == SiteOf(n)
  {
    NetlistIs();
    hide NETLIST;
  }

  // The nets at the pins of each cell.
  lemma PinNets(x: Name, p: Pin, i: int)
    requires x in NETLIST.cells && p in NETLIST.cells[x].conns && 0 <= i < |NETLIST.cells[x].conns[p]| && NETLIST.cells[x].conns[p][i].Net?
    ensures 1 <= NETLIST.cells[x].conns[p][i].id <= 5
  {
    NetlistIs();
    hide NETLIST;
  }

  lemma PortNets(name: Name, i: int)
    requires name in NETLIST.ports && 0 <= i < |NETLIST.ports[name].bits| && NETLIST.ports[name].bits[i].Net?
    ensures 1 <= NETLIST.ports[name].bits[i].id <= 5
  {
    NetlistIs();
    hide NETLIST;
  }

  lemma FollowsUp(x: Name, p: Pin, i: int, k: nat)
    requires x in NETLIST.cells && p in NETLIST.cells[x].conns && p in NETLIST.cells[x].outs
    requires 0 <= i < |NETLIST.cells[x].conns[p]| && NETLIST.cells[x].conns[p][i].Net? && FollowsNet(NETLIST.cells[x], k)
    ensures Rank(k) < Rank(NETLIST.cells[x].conns[p][i].id)
  {
    NetlistIs();
    hide NETLIST;
  }

  lemma ExampleAcyclic()
    ensures Acyclic(NETLIST, Rank)
  {
    hide NETLIST, FollowsNet, SiteOf, Rank, Drives;
    forall s, n: nat ensures Drives(NETLIST, s, n) <==> 1 <= n <= 5 && s == SiteOf(n) {
      OneSite(s, n);
    }
    forall x, p, i, k: nat | x in NETLIST.cells && p in NETLIST.cells[x].conns && p in NETLIST.cells[x].outs
        && 0 <= i < |NETLIST.cells[x].conns[p]| && NETLIST.cells[x].conns[p][i].Net? && FollowsNet(NETLIST.cells[x], k)
      ensures Rank(k) < Rank(NETLIST.cells[x].conns[p][i].id)
    {
      FollowsUp(x, p, i, k);
    }
    forall x, p, i | x in NETLIST.cells && p in NETLIST.cells[x].conns && 0 <= i < |NETLIST.cells[x].conns[p]| && NETLIST.cells[x].conns[p][i].Net?
      ensures Driven(NETLIST, NETLIST.cells[x].conns[p][i].id)
    {
      PinNets(x, p, i);
      assert Drives(NETLIST, SiteOf(NETLIST.cells[x].conns[p][i].id), NETLIST.cells[x].conns[p][i].id);
    }
    forall name, i | name in NETLIST.ports && 0 <= i < |NETLIST.ports[name].bits| && NETLIST.ports[name].bits[i].Net?
      ensures Driven(NETLIST, NETLIST.ports[name].bits[i].id)
    {
      PortNets(name, i);
      assert Drives(NETLIST, SiteOf(NETLIST.ports[name].bits[i].id), NETLIST.ports[name].bits[i].id);
    }
  }

  lemma FlopsShaped()
    ensures ScanShape(FLOP0, 1) && ScanShape(FLOP1, 1) && QNet(FLOP0) == 3 && QNet(FLOP1) == 4
    ensures SDI in FLOP0.conns && FLOP0.conns[SDI] == [Net(2)] && SDI in FLOP1.conns && FLOP1.conns[SDI] == [Net(3)]
  {}

  lemma ExampleThreaded(lib: Library)
    ensures Threaded(TwoFlops(lib))
  {
    var d := TwoFlops(lib);
    ExampleAcyclic();
    NetlistIs();
    FlopsShaped();
    hide NETLIST, FLOP0, FLOP1, ScanShape, Acyclic, QNet;
    var ch := d.chains[0];
    assert Feed(NETLIST, ch, 0) == Net(2) && Feed(NETLIST, ch, 1) == Net(3) && Feed(NETLIST, ch, 2) == Net(4);
    assert ch.cells[0] == F0 && ch.cells[1] == F1;
    assert ChainThreaded(NETLIST, ch, 1, SE_PORT);
    forall inst, c: nat, p: nat, e: nat, q: nat | InChain(d.chains, inst, c, p) && InChain(d.chains, inst, e, q) ensures c == e && p == q {
      assert c == 0 && e == 0;
    }
  }

  lemma ExampleBelow()
    ensures Below(NETLIST, 6)
  {
    hide NETLIST;
    forall name | name in NETLIST.ports ensures BitsBelow(NETLIST.ports[name].bits, 6) {
      forall i | 0 <= i < |NETLIST.ports[name].bits| && NETLIST.ports[name].bits[i].Net? ensures NETLIST.ports[name].bits[i].id < 6 {
        PortNets(name, i);
      }
    }
    forall x, p | x in NETLIST.cells && p in NETLIST.cells[x].conns ensures BitsBelow(NETLIST.cells[x].conns[p], 6) {
      forall i | 0 <= i < |NETLIST.cells[x].conns[p]| && NETLIST.cells[x].conns[p][i].Net? ensures NETLIST.cells[x].conns[p][i].id < 6 {
        PinNets(x, p, i);
      }
    }
  }

  lemma ExampleCut(inst: Name)
    requires inst == F0 || inst == F1
    ensures CutReady(NETLIST, 6, inst, 1, SCAN_PORTS)
    ensures QNet(NETLIST.cells[F0]) != QNet(NETLIST.cells[F1])
  {
    NetlistIs();
    FlopsShaped();
    ExampleBelow();
    hide NETLIST, FLOP0, FLOP1, ScanShape, QNet, Below;
  }

  lemma ExampleValid()
    ensures CUTS.Valid()
  {
    NetlistIs();
    ExampleBelow();
    ExampleCut(F0);
    ExampleCut(F1);
    assert CUTS.order == [F0, F1] && Elems(CUTS.order) == {F0, F1};
    hide NETLIST, CutReady, Below, QNet;
  }

  lemma ExamplePorts()
    ensures PortsOk(NETLIST, {F0, F1}, ENDS, 1)
  {
    NetlistIs();
    FlopsShaped();
    hide NETLIST, FLOP0, FLOP1, QNet;
  }

  lemma ExampleReady()
    ensures FinishReady(CUTS, ENDS)
  {
    ExampleValid();
    ExamplePorts();
    assert Elems(CUTS.order) == {F0, F1} && |CUTS.order| == 2;
    hide Setup.Valid, PortsOk, CutAll, Below;
    StaysReady(CUTS, 2);
  }

  lemma ExampleSame(lib: Library)
    ensures SameDesign(TwoFlops(lib), CUTS, ENDS)
  {
    ExampleThreaded(lib);
    ExampleReady();
    NetlistIs();
    var d := TwoFlops(lib);
    hide NETLIST, FLOP0, FLOP1, Threaded, FinishReady;
    forall inst ensures inst in CUTS.order <==> exists c: nat, q: nat :: InChain(d.chains, inst, c, q) {
      assert InChain(d.chains, F0, 0, 0) && InChain(d.chains, F1, 0, 1);
    }
  }

  const STUCK := Stuck(4, false)

  // What the two flops capture, with and without the fault.
  lemma NextStates(lib: Library, f: Fault, env: Inputs, st: State, v: Valuation)
    requires Settled(lib, NETLIST, f, env, st, v) && !env(SE_PORT, 0) && (f == NoFault || f == STUCK)
    ensures Next(NETLIST, st, v)(F0) == (f == STUCK || !st(F1)) && !Next(NETLIST, st, v)(F1)
  {
    NetlistIs();
    PortCarries(lib, NETLIST, f, env, st, v, SE_PORT, 1);
    assert CellOk(lib, f, NETLIST.cells[F1], st(F1), v) && CellOk(lib, f, NETLIST.cells[NOT], st(NOT), v);
    InvOk(lib, f, Net(4), 5, st(NOT), v);
    assert FLOP1.conns[Q][0] == Net(4);
    assert !PinVal(v, FLOP0, SE) && !PinVal(v, FLOP1, SE) && PinVal(v, FLOP0, D) == v(5) && !PinVal(v, FLOP1, D);
  }

  lemma Captured(lib: Library, f: Fault, pat: Pattern, st: State)
    requires f == NoFault || f == STUCK
    ensures UnloadState(TwoFlops(lib), f, pat, st, 0)(F0) == (f == STUCK || !st(F1))
    ensures !UnloadState(TwoFlops(lib), f, pat, st, 0)(F1)
  {
    var d, env := TwoFlops(lib), CaptureInputs(TwoFlops(lib), pat.pis);
    ExampleAcyclic();
    hide NETLIST, SingleDriver, Ranked, Closed, Settled, Next, Evaluated;
    EvaluatedSettles(lib, NETLIST, f, env, st, Rank);
    NextStates(lib, f, env, st, Values(d, f, env, st));
  }

  // Load a 1 into flop 1.
  function LoadOne(pis: Inputs): Pattern { Pattern(pis, [[true, false]], 2) }

  lemma LoadedOne(lib: Library, pis: Inputs, st0: State)
    ensures Fits(TwoFlops(lib), LoadOne(pis)) && LoadState(TwoFlops(lib), LoadOne(pis), st0, 2)(F1)
  {
    var d, pat := TwoFlops(lib), LoadOne(pis);
    ExampleThreaded(lib);
    hide Threaded, NETLIST, LoadState;
    LoadReaches(d, pat, st0, 2, 0);
    var bits := pat.load[0];
    assert bits[..2] == [true, false];
    ShiftedIn(Reg(st0, d.chains[0]), [true, false], 1);
    RegAt(LoadState(d, pat, st0, 2), d.chains[0], 1);
    assert d.chains[0].cells[1] == F1;
  }

  // Settled valuations of the view, without and with the fault.
  lemma ViewOf(lib: Library, f: Fault, pat: Pattern, st: State) returns (v: Valuation)
    requires f == NoFault || f == STUCK
    ensures Settled(lib, ReducedView(CUTS, ENDS), ViewFault(CUTS, f), ViewInputs(TwoFlops(lib), pat.pis, st), st, v)
  {
    var d, env := TwoFlops(lib), CaptureInputs(TwoFlops(lib), pat.pis);
    ExampleSame(lib);
    ExampleAcyclic();
    ExampleReady();
    EvaluatedSettles(lib, NETLIST, f, env, st, Rank);
    var w := Values(d, f, env, st);
    hide NETLIST, Acyclic, Settled, SameDesign, FinishReady, ReducedView, ViewFault, Evaluated, Loaded;
    InputsAgree(d, CUTS, ENDS, f, pat.pis, st, w);
    v := ViewForth(lib, CUTS, ENDS, f, ViewInputs(d, pat.pis, st), st, w);
  }

  lemma ExampleFault(lib: Library)
    ensures OffInputs(TwoFlops(lib), STUCK) && StuckAt(NETLIST, TwoFlops(lib).chains[0], STUCK, 1) && FaultBelow(STUCK, CUTS.next)
  {
    NetlistIs();
    FlopsShaped();
    hide NETLIST, FLOP0, FLOP1, QNet;
  }

  /** The view sees flop 1's output stuck at 0 at flop 0's pseudo-output, and the
      protocol unloads two zeros with and without the fault. */
  lemma TrustMisplaced(lib: Library, pis: Inputs, st0: State) returns (good: Valuation, faulty: Valuation)
    ensures var d, pat := TwoFlops(lib), LoadOne(pis);
            && SameDesign(d, CUTS, ENDS) && OffInputs(d, STUCK) && Fits(d, pat) && StuckAt(d.g, d.chains[0], STUCK, 1)
            && ViewPair(d, CUTS, ENDS, STUCK, pat, LoadState(d, pat, st0, pat.n), good, faulty)
            && ViewDetects(CUTS, ENDS, ReducedView(CUTS, ENDS), good, faulty)
            && !ProtocolDetects(d, CUTS, ENDS, STUCK, pat, LoadState(d, pat, st0, pat.n))
  {
    var d, pat := TwoFlops(lib), LoadOne(pis);
    var st := LoadState(d, pat, st0, pat.n);
    ExampleSame(lib);
    ExampleFault(lib);
    LoadedOne(lib, pis, st0);
    hide LoadState, NETLIST, Settled, SameDesign, ReducedView, ViewFault, ProtocolDetects, Fits, OffInputs, StuckAt;
    good := ViewOf(lib, NoFault, pat, st);
    assert ViewFault(CUTS, NoFault) == NoFault by { CleanView(); }
    faulty := ViewOf(lib, STUCK, pat, st);
    assert ViewPair(d, CUTS, ENDS, STUCK, pat, st, good, faulty);
    SeenAtFlop0(lib, pat, st, good, faulty);
    NothingElse(lib, pat, good, faulty);
    QStemGrade(d, CUTS, ENDS, STUCK, pat, st0, good, faulty, 0, 1);
  }

  lemma CleanView()
    ensures ViewFault(CUTS, NoFault) == NoFault
  {
    NoFaultStays(CUTS, |CUTS.order|);
  }

  lemma SeenAtFlop0(lib: Library, pat: Pattern, st: State, good: Valuation, faulty: Valuation)
    requires SameDesign(TwoFlops(lib), CUTS, ENDS) && st(F1) && FaultBelow(STUCK, CUTS.next)
    requires ViewPair(TwoFlops(lib), CUTS, ENDS, STUCK, pat, st, good, faulty)
    ensures var m := ReducedView(CUTS, ENDS);
            && PpoSeen(m, good, faulty, F0)
            && Shown(m, good, Made(Ppo, F0)) == [false] && Shown(m, good, Made(Ppo, F1)) == [false]
  {
    var d := TwoFlops(lib);
    assert d.chains[0].cells[0] == F0 && d.chains[0].cells[1] == F1;
    hide SameDesign, ReducedView, ViewPair, Shown, UnloadState, NETLIST;
    PpoMatch(d, CUTS, ENDS, STUCK, pat, st, good, faulty, 0, 0);
    PpoMatch(d, CUTS, ENDS, STUCK, pat, st, good, faulty, 0, 1);
    Captured(lib, NoFault, pat, st);
    Captured(lib, STUCK, pat, st);
  }

  // No output is kept, and nothing lies beyond the stuck flop.
  lemma NothingElse(lib: Library, pat: Pattern, good: Valuation, faulty: Valuation)
    ensures !OutputSeen(CUTS, ENDS, ReducedView(CUTS, ENDS), good, faulty)
    ensures !SeenBeyond(TwoFlops(lib), ReducedView(CUTS, ENDS), good, faulty, 0, 1)
  {
    NetlistIs();
    hide NETLIST, ReducedView, Shown, PpoSeen;
  }
}
