/** The load, capture and unload of one scan pattern on a stitched netlist, cycle
    by cycle (src/core/scan/scan_pattern_sim.cpp, faultflow/scan/protocol.py). */
module ScanProtocol {
  import opened Netlist
  import opened NetlistEval
  import opened ShiftRegister
  import opened ScanView

  datatype Chain = Chain(scanIn: Name, scanOut: Name, cells: seq<Name>)

  datatype Design = Design(lib: Library, g: Module, rank: nat -> nat, chains: seq<Chain>, se: nat, sePort: Name)

  // The net that feeds the flop at position p: scan-in, or the flop before it.
  function Feed(g: Module, ch: Chain, p: nat): Bit
  {
    if p == 0 then
      if ch.scanIn in g.ports && |g.ports[ch.scanIn].bits| == 1 then g.ports[ch.scanIn].bits[0] else Lit(false)
    else if p <= |ch.cells| && ch.cells[p - 1] in g.cells then Net(QNet(g.cells[ch.cells[p - 1]]))
    else Lit(false)
  }

  ghost predicate ChainThreaded(g: Module, ch: Chain, se: nat, sePort: Name)
  {
    && ch.cells != []
    && ch.scanIn != sePort && ch.scanIn in g.ports && g.ports[ch.scanIn].dir.Input?
    && |g.ports[ch.scanIn].bits| == 1 && g.ports[ch.scanIn].bits[0].Net?
    && (forall p :: 0 <= p < |ch.cells| ==>
          && ch.cells[p] in g.cells && ScanShape(g.cells[ch.cells[p]], se)
          && SDI in g.cells[ch.cells[p]].conns && g.cells[ch.cells[p]].conns[SDI] == [Feed(g, ch, p)])
    && ch.scanOut in g.ports && g.ports[ch.scanOut] == Port(Output, [Feed(g, ch, |ch.cells|)])
  }

  ghost predicate ScanInsDiffer(chains: seq<Chain>)
  {
    forall c, e :: 0 <= c < e < |chains| ==> chains[c].scanIn != chains[e].scanIn
  }

  ghost predicate InChain(chains: seq<Chain>, inst: Name, c: nat, p: nat)
  {
    c < |chains| && p < |chains[c].cells| && chains[c].cells[p] == inst
  }

  // No flop is in two places.
  ghost predicate OnePlace(chains: seq<Chain>)
  {
    forall inst, c, p, e, q :: InChain(chains, inst, c, p) && InChain(chains, inst, e, q) ==> c == e && p == q
  }

  // Every chain runs scan-in to scan-out through its flops.
  ghost predicate Threaded(d: Design)
  {
    && Acyclic(d.g, d.rank)
    && d.sePort in d.g.ports && d.g.ports[d.sePort] == Port(Input, [Net(d.se)])
    && (forall c :: 0 <= c < |d.chains| ==> ChainThreaded(d.g, d.chains[c], d.se, d.sePort))
    && ScanInsDiffer(d.chains) && OnePlace(d.chains)
  }

  // The fault leaves scan enable and the scan inputs alone.
  ghost predicate OffInputs(d: Design, f: Fault)
  {
    Free(f, d.se) && forall c :: 0 <= c < |d.chains| && Feed(d.g, d.chains[c], 0).Net? ==> Free(f, Feed(d.g, d.chains[c], 0).id)
  }

  function Reg(st: State, ch: Chain): (r: seq<bool>)
    ensures |r| == |ch.cells|
  {
    seq(|ch.cells|, p requires 0 <= p < |ch.cells| => st(ch.cells[p]))
  }

  // What the chain's flops drive while shifting, a stuck output included.
  function Emitted(g: Module, st: State, ch: Chain, f: Fault): (r: seq<bool>)
    ensures |r| == |ch.cells|
  {
    seq(|ch.cells|, p requires 0 <= p < |ch.cells| =>
      if ch.cells[p] in g.cells && f.Stuck? && f.net == QNet(g.cells[ch.cells[p]]) then f.value else st(ch.cells[p]))
  }

  // With scan enable on, a scan flop drives its state and takes its scan input.
  lemma FlopShifts(lib: Library, g: Module, f: Fault, env: Inputs, st: State, v: Valuation, inst: Name, se: nat)
    requires Settled(lib, g, f, env, st, v) && v(se)
    requires inst in g.cells && ScanShape(g.cells[inst], se)
    requires SDI in g.cells[inst].conns && |g.cells[inst].conns[SDI]| == 1
    ensures v(QNet(g.cells[inst])) == if f.Stuck? && f.net == QNet(g.cells[inst]) then f.value else st(inst)
    ensures Next(g, st, v)(inst) == BitVal(v, g.cells[inst].conns[SDI][0])
  {
    var c := g.cells[inst];
    assert CellOk(lib, f, c, st(inst), v);
    assert c.conns[Q][0] == Net(QNet(c));
    assert PinVal(v, c, SE);
  }

  // One shift cycle is one step of the shift register.
  lemma ShiftCycle(d: Design, f: Fault, env: Inputs, st: State, v: Valuation, c: nat)
    requires Threaded(d) && c < |d.chains| && OffInputs(d, f)
    requires Settled(d.lib, d.g, f, env, st, v) && env(d.sePort, 0)
    ensures var ch := d.chains[c];
            && Reg(Next(d.g, st, v), ch) == Shift(Emitted(d.g, st, ch, f), env(ch.scanIn, 0))
            && BitsVal(v, d.g.ports[ch.scanOut].bits) == [Out(Emitted(d.g, st, ch, f))]
  {
    var ch := d.chains[c];
    var driven, after := Emitted(d.g, st, ch, f), Next(d.g, st, v);
    assert ChainThreaded(d.g, ch, d.se, d.sePort);
    PortCarries(d.lib, d.g, f, env, st, v, d.sePort, d.se);
    forall p | 0 <= p < |ch.cells|
      ensures v(QNet(d.g.cells[ch.cells[p]])) == driven[p]
      ensures after(ch.cells[p]) == BitVal(v, Feed(d.g, ch, p))
    {
      FlopShifts(d.lib, d.g, f, env, st, v, ch.cells[p], d.se);
    }
    var si := d.g.ports[ch.scanIn].bits[0].id;
    assert d.g.ports[ch.scanIn].bits == [Net(si)];
    PortCarries(d.lib, d.g, f, env, st, v, ch.scanIn, si);
    forall p | 0 <= p < |ch.cells| ensures Reg(after, ch)[p] == Shift(driven, env(ch.scanIn, 0))[p] {
      ShiftAt(driven, env(ch.scanIn, 0), p);
    }
  }

  /* ---- the three phases ---- */

  // One pattern: the primary inputs, held throughout, and n bits per chain.
  datatype Pattern = Pattern(pis: Inputs, load: seq<seq<bool>>, n: nat)

  ghost predicate Fits(d: Design, pat: Pattern)
  {
    && |pat.load| == |d.chains|
    && (forall c :: 0 <= c < |d.chains| ==> |pat.load[c]| == pat.n && |d.chains[c].cells| <= pat.n)
  }

  ghost predicate FeedsChain(d: Design, name: Name, c: nat) { c < |d.chains| && d.chains[c].scanIn == name }

  // A cycle's inputs: scan enable, one bit at every scan-in, the primary inputs.
  ghost function CycleInputs(d: Design, pis: Inputs, enable: bool, feed: nat -> bool): Inputs
  {
    (name: Name, i: nat) => CycleInput(d, pis, enable, feed, name, i)
  }

  ghost function CycleInput(d: Design, pis: Inputs, enable: bool, feed: nat -> bool, name: Name, i: nat): bool
  {
    if name == d.sePort then enable
    else if exists c :: FeedsChain(d, name, c) then
      var c :| FeedsChain(d, name, c); feed(c)
    else pis(name, i)
  }

  lemma CycleFeeds(d: Design, pis: Inputs, enable: bool, feed: nat -> bool, c: nat)
    requires Threaded(d) && c < |d.chains|
    ensures CycleInputs(d, pis, enable, feed)(d.chains[c].scanIn, 0) == feed(c)
  {
    hide Acyclic;
    hide OnePlace;
    var name := d.chains[c].scanIn;
    assert ChainThreaded(d.g, d.chains[c], d.se, d.sePort);
    assert FeedsChain(d, name, c);
    assert forall e :: FeedsChain(d, name, e) ==> e == c;
  }

  ghost function Values(d: Design, f: Fault, env: Inputs, st: State): Valuation
  {
    Evaluated(d.lib, d.g, f, env, st, d.rank)
  }

  ghost function Clocked(d: Design, f: Fault, env: Inputs, st: State): State
  {
    Next(d.g, st, Values(d, f, env, st))
  }

  function FedBit(pat: Pattern, c: nat, k: nat): bool
  {
    c < |pat.load| && k < |pat.load[c]| && pat.load[c][k]
  }

  ghost function LoadInputs(d: Design, pat: Pattern, k: nat): Inputs
  {
    CycleInputs(d, pat.pis, true, (c: nat) => FedBit(pat, c, k))
  }

  // The state after k load cycles; a fault is not active during the load.
  ghost function LoadState(d: Design, pat: Pattern, st0: State, k: nat): State
  {
    if k == 0 then st0
    else Clocked(d, NoFault, LoadInputs(d, pat, k - 1), LoadState(d, pat, st0, k - 1))
  }

  ghost function CaptureInputs(d: Design, pis: Inputs): Inputs { CycleInputs(d, pis, false, (c: nat) => false) }

  ghost function UnloadInputs(d: Design, pis: Inputs): Inputs { CycleInputs(d, pis, true, (c: nat) => false) }

  // The state after the capture edge and k unload cycles; the fault is active.
  ghost function UnloadState(d: Design, f: Fault, pat: Pattern, st: State, k: nat): State
  {
    if k == 0 then Clocked(d, f, CaptureInputs(d, pat.pis), st)
    else Clocked(d, f, UnloadInputs(d, pat.pis), UnloadState(d, f, pat, st, k - 1))
  }

  // What a primary output shows at the capture cycle, before the edge.
  ghost function OutputShows(d: Design, f: Fault, pat: Pattern, st: State, name: Name): seq<bool>
    requires name in d.g.ports
  {
    BitsVal(Values(d, f, CaptureInputs(d, pat.pis), st), d.g.ports[name].bits)
  }

  // What chain c's scan-out shows at unload cycle k.
  ghost function ScanOutShows(d: Design, f: Fault, pat: Pattern, st: State, c: nat, k: nat): seq<bool>
    requires c < |d.chains| && d.chains[c].scanOut in d.g.ports
  {
    BitsVal(Values(d, f, UnloadInputs(d, pat.pis), UnloadState(d, f, pat, st, k)), d.g.ports[d.chains[c].scanOut].bits)
  }

  lemma EvalCycle(d: Design, f: Fault, env: Inputs, st: State, c: nat)
    requires Threaded(d) && c < |d.chains| && OffInputs(d, f) && env(d.sePort, 0)
    ensures var ch := d.chains[c];
            && Reg(Clocked(d, f, env, st), ch) == Shift(Emitted(d.g, st, ch, f), env(ch.scanIn, 0))
            && ch.scanOut in d.g.ports
            && BitsVal(Values(d, f, env, st), d.g.ports[ch.scanOut].bits) == [Out(Emitted(d.g, st, ch, f))]
  {
    assert ChainThreaded(d.g, d.chains[c], d.se, d.sePort);
    EvaluatedSettles(d.lib, d.g, f, env, st, d.rank);
    ShiftCycle(d, f, env, st, Values(d, f, env, st), c);
  }

  lemma EmittedFree(g: Module, st: State, ch: Chain)
    ensures Emitted(g, st, ch, NoFault) == Reg(st, ch)
  {
  }

  lemma ShiftOne(reg: seq<bool>, b: bool)
    ensures ShiftAll(reg, [b]) == Shift(reg, b)
  {
  }

  /** From any state, n load cycles leave every chain holding what shifting its
      sequence in would leave. */
  lemma {:induction false} LoadReaches(d: Design, pat: Pattern, st0: State, k: nat, c: nat)
    requires Threaded(d) && Fits(d, pat) && k <= pat.n && c < |d.chains|
    ensures Reg(LoadState(d, pat, st0, k), d.chains[c]) == ShiftAll(Reg(st0, d.chains[c]), pat.load[c][..k])
  {
    hide Threaded;
    hide Clocked;
    hide Shift;
    var ch, bits := d.chains[c], pat.load[c];
    if k == 0 {
      assert bits[..0] == [];
    } else {
      LoadReaches(d, pat, st0, k - 1, c);
      var st, env := LoadState(d, pat, st0, k - 1), LoadInputs(d, pat, k - 1);
      EvalCycle(d, NoFault, env, st, c);
      CycleFeeds(d, pat.pis, true, (c: nat) => FedBit(pat, c, k - 1), c);
      EmittedFree(d.g, st, ch);
      assert bits[..k] == bits[..k - 1] + [bits[k - 1]];
      ShiftAllAppend(Reg(st0, ch), bits[..k - 1], [bits[k - 1]]);
      ShiftOne(Reg(st, ch), bits[k - 1]);
    }
  }

  /* ---- the unload ---- */

  ghost predicate StuckAt(g: Module, ch: Chain, f: Fault, p: nat)
  {
    p < |ch.cells| && ch.cells[p] in g.cells && f.Stuck? && f.net == QNet(g.cells[ch.cells[p]])
  }

  // The position whose output is stuck; past the end when none is.
  ghost function StuckPos(g: Module, ch: Chain, f: Fault): nat
  {
    if exists p: nat :: StuckAt(g, ch, f, p) then var p: nat :| StuckAt(g, ch, f, p); p else |ch.cells|
  }

  function StuckValue(f: Fault): bool { f.Stuck? && f.value }

  // Flops in different places have different output nets.
  lemma OutputsDiffer(d: Design, c: nat, p: nat, e: nat, q: nat)
    requires Threaded(d) && c < |d.chains| && e < |d.chains| && p < |d.chains[c].cells| && q < |d.chains[e].cells|
    requires d.chains[c].cells[p] in d.g.cells && d.chains[e].cells[q] in d.g.cells
    requires QNet(d.g.cells[d.chains[c].cells[p]]) == QNet(d.g.cells[d.chains[e].cells[q]])
    ensures c == e && p == q
  {
    var x, y := d.chains[c].cells[p], d.chains[e].cells[q];
    assert ChainThreaded(d.g, d.chains[c], d.se, d.sePort) && ChainThreaded(d.g, d.chains[e], d.se, d.sePort);
    assert ScanShape(d.g.cells[x], d.se) && ScanShape(d.g.cells[y], d.se);
    var n := QNet(d.g.cells[x]);
    assert Drives(d.g, CellPin(x, Q, 0), n) && Drives(d.g, CellPin(y, Q, 0), n);
    assert InChain(d.chains, x, c, p) && InChain(d.chains, x, e, q);
  }

  lemma EmittedSticks(d: Design, f: Fault, st: State, c: nat)
    requires Threaded(d) && c < |d.chains|
    ensures var ch := d.chains[c];
            Emitted(d.g, st, ch, f) == Stick(Reg(st, ch), StuckPos(d.g, ch, f), StuckValue(f))
  {
    var ch := d.chains[c];
    var pos := StuckPos(d.g, ch, f);
    assert ChainThreaded(d.g, ch, d.se, d.sePort);
    forall p | 0 <= p < |ch.cells| ensures Emitted(d.g, st, ch, f)[p] == Stick(Reg(st, ch), pos, StuckValue(f))[p] {
      if StuckAt(d.g, ch, f, p) {
        OutputsDiffer(d, c, p, c, pos);
      }
    }
  }

  // The register after k unload shifts.
  function Drained(reg: seq<bool>, p: nat, x: bool, k: nat): (r: seq<bool>)
    ensures |r| == |reg|
  {
    if k == 0 then reg else Shift(Stick(Drained(reg, p, x, k - 1), p, x), false)
  }

  lemma {:induction false} DrainedFront(reg: seq<bool>, p: nat, x: bool, k: nat)
    requires k > 0
    ensures Drained(reg, p, x, k) == Drained(Shift(Stick(reg, p, x), false), p, x, k - 1)
  {
    if k > 1 {
      DrainedFront(reg, p, x, k - 1);
    }
  }

  lemma {:induction false} DrainedShows(reg: seq<bool>, p: nat, x: bool, n: nat, k: nat)
    requires k < n
    ensures UnloadStuck(reg, p, x, n)[k] == Out(Stick(Drained(reg, p, x, k), p, x))
    decreases n
  {
    hide Shift;
    hide Stick;
    hide Out;
    if k > 0 {
      DrainedFront(reg, p, x, k);
      DrainedShows(Shift(Stick(reg, p, x), false), p, x, n - 1, k - 1);
    }
  }

  lemma {:induction false} UnstuckUnload(reg: seq<bool>, p: nat, x: bool, n: nat)
    requires |reg| <= p
    ensures UnloadStuck(reg, p, x, n) == Unload(reg, n)
    decreases n
  {
    if n > 0 {
      UnstuckUnload(Shift(reg, false), p, x, n - 1);
    }
  }

  lemma {:induction false} UnloadReg(d: Design, f: Fault, pat: Pattern, st: State, c: nat, k: nat)
    requires Threaded(d) && OffInputs(d, f) && c < |d.chains|
    ensures var ch := d.chains[c];
            Reg(UnloadState(d, f, pat, st, k), ch)
            == Drained(Reg(UnloadState(d, f, pat, st, 0), ch), StuckPos(d.g, ch, f), StuckValue(f), k)
  {
    hide Threaded;
    hide Clocked;
    hide Shift;
    hide StuckPos;
    if k > 0 {
      UnloadReg(d, f, pat, st, c, k - 1);
      var before, env := UnloadState(d, f, pat, st, k - 1), UnloadInputs(d, pat.pis);
      EvalCycle(d, f, env, before, c);
      CycleFeeds(d, pat.pis, true, (c: nat) => false, c);
      EmittedSticks(d, f, before, c);
    }
  }

  /** Scan-out shows the captured register from its last position down, with
      everything that passes a stuck output read as the stuck value. */
  lemma UnloadShowsCapture(d: Design, f: Fault, pat: Pattern, st: State, c: nat, k: nat)
    requires Threaded(d) && OffInputs(d, f) && c < |d.chains| && k < pat.n
    ensures d.chains[c].scanOut in d.g.ports
    ensures var ch := d.chains[c];
            ScanOutShows(d, f, pat, st, c, k)
            == [UnloadStuck(Reg(UnloadState(d, f, pat, st, 0), ch), StuckPos(d.g, ch, f), StuckValue(f), pat.n)[k]]
  {
    hide Threaded;
    hide Clocked;
    hide StuckPos;
    var ch, before := d.chains[c], UnloadState(d, f, pat, st, k);
    UnloadReg(d, f, pat, st, c, k);
    EvalCycle(d, f, UnloadInputs(d, pat.pis), before, c);
    EmittedSticks(d, f, before, c);
    DrainedShows(Reg(UnloadState(d, f, pat, st, 0), ch), StuckPos(d.g, ch, f), StuckValue(f), pat.n, k);
  }
}
