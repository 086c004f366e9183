/** A physical tester has the fault in the chip while the chains are loaded; the
    simulator (src/core/scan/scan_pattern_sim.cpp) activates it at capture. */
module PhysicalTester {
  import opened Netlist
  import opened NetlistEval
  import opened ShiftRegister
  import opened ViewFinish
  import opened ViewMeaning
  import opened ScanProtocol
  import opened ScanGrading

  // The state after k load cycles with the fault active throughout.
  ghost function FaultyLoad(d: Design, f: Fault, pat: Pattern, st0: State, k: nat): State
  {
    if k == 0 then st0
    else Clocked(d, f, LoadInputs(d, pat, k - 1), FaultyLoad(d, f, pat, st0, k - 1))
  }

  lemma EmittedClean(d: Design, f: Fault, st: State, c: nat)
    requires OffChains(d, f) && c < |d.chains|
    ensures Emitted(d.g, st, d.chains[c], f) == Reg(st, d.chains[c])
  {
    var ch := d.chains[c];
    forall q | 0 <= q < |ch.cells| ensures Emitted(d.g, st, ch, f)[q] == Reg(st, ch)[q] {
      assert !StuckAt(d.g, ch, f, q);
    }
  }

  /** Off the scan path the fault does not disturb the load: every chain holds what
      shifting its sequence in would leave, as without the fault. */
  lemma {:induction false} FaultyLoadReaches(d: Design, f: Fault, pat: Pattern, st0: State, k: nat, c: nat)
    requires Threaded(d) && Fits(d, pat) && OffInputs(d, f) && OffChains(d, f) && k <= pat.n && c < |d.chains|
    ensures Reg(FaultyLoad(d, f, pat, st0, k), d.chains[c]) == ShiftAll(Reg(st0, d.chains[c]), pat.load[c][..k])
  {
    hide Threaded, Clocked, Shift, OffInputs, OffChains;
    var ch, bits := d.chains[c], pat.load[c];
    if k == 0 {
      assert bits[..0] == [];
    } else {
      FaultyLoadReaches(d, f, pat, st0, k - 1, c);
      var st, env := FaultyLoad(d, f, pat, st0, k - 1), LoadInputs(d, pat, k - 1);
      EvalCycle(d, f, env, st, c);
      CycleFeeds(d, pat.pis, true, (c: nat) => FedBit(pat, c, k - 1), c);
      EmittedClean(d, f, st, c);
      assert bits[..k] == bits[..k - 1] + [bits[k - 1]];
      ShiftAllAppend(Reg(st0, ch), bits[..k - 1], [bits[k - 1]]);
      ShiftOne(Reg(st, ch), bits[k - 1]);
    }
  }

  ghost predicate SameState(st: State, st': State) { forall x :: st(x) == st'(x) }

  // A flop outside the chains.
  ghost predicate Unscanned(d: Design, x: Name)
  {
    x in d.g.cells && (d.g.cells[x].kind.Flop? || d.g.cells[x].kind.Scan?) && forall c: nat, q: nat :: !InChain(d.chains, x, c, q)
  }

  // Only flops have a next state of their own.
  lemma {:induction false} OthersHold(d: Design, f: Fault, pat: Pattern, st0: State, k: nat, x: Name)
    requires !(x in d.g.cells && (d.g.cells[x].kind.Flop? || d.g.cells[x].kind.Scan?))
    ensures FaultyLoad(d, f, pat, st0, k)(x) == st0(x) && LoadState(d, pat, st0, k)(x) == st0(x)
  {
    hide Values, LoadInputs;
    if k > 0 {
      OthersHold(d, f, pat, st0, k - 1, x);
    }
  }

  // The load leaves the same state with the fault as without, if it does so in the
  // flops outside the chains.
  lemma LoadsAlike(d: Design, f: Fault, pat: Pattern, st0: State)
    requires Threaded(d) && Fits(d, pat) && OffInputs(d, f) && OffChains(d, f)
    requires forall x :: Unscanned(d, x) ==> FaultyLoad(d, f, pat, st0, pat.n)(x) == LoadState(d, pat, st0, pat.n)(x)
    ensures SameState(FaultyLoad(d, f, pat, st0, pat.n), LoadState(d, pat, st0, pat.n))
  {
    hide Threaded, Fits, OffInputs, OffChains, FaultyLoad, LoadState, ShiftAll;
    var a, b := FaultyLoad(d, f, pat, st0, pat.n), LoadState(d, pat, st0, pat.n);
    forall x ensures a(x) == b(x) {
      if c: nat, q: nat :| InChain(d.chains, x, c, q) {
        FaultyLoadReaches(d, f, pat, st0, pat.n, c);
        LoadReaches(d, pat, st0, pat.n, c);
        RegAt(a, d.chains[c], q);
        RegAt(b, d.chains[c], q);
      } else if !(x in d.g.cells && (d.g.cells[x].kind.Flop? || d.g.cells[x].kind.Scan?)) {
        OthersHold(d, f, pat, st0, pat.n, x);
      }
    }
  }

  // One state, one behaviour.
  lemma StateSettles(d: Design, f: Fault, env: Inputs, st: State, st': State, v: Valuation)
    requires SameState(st, st') && Settled(d.lib, d.g, f, env, st, v)
    ensures Settled(d.lib, d.g, f, env, st', v)
  {
    hide CellOk, PortOk;
    assert forall x :: x in d.g.cells ==> st(x) == st'(x);
  }

  lemma StateSame(d: Design, f: Fault, env: Inputs, st: State, st': State)
    requires Acyclic(d.g, d.rank) && SameState(st, st')
    ensures forall name :: name in d.g.ports ==> BitsVal(Values(d, f, env, st), d.g.ports[name].bits) == BitsVal(Values(d, f, env, st'), d.g.ports[name].bits)
    ensures SameState(Clocked(d, f, env, st), Clocked(d, f, env, st'))
  {
    var v, w := Values(d, f, env, st), Values(d, f, env, st');
    EvaluatedSettles(d.lib, d.g, f, env, st, d.rank);
    EvaluatedSettles(d.lib, d.g, f, env, st', d.rank);
    StateSettles(d, f, env, st, st', v);
    SettledSame(d, f, env, st', v, w);
    hide Settled, Acyclic, NextVal, Values;
    assert forall x :: st(x) == st'(x);
  }

  lemma {:induction false} UnloadSame(d: Design, f: Fault, pat: Pattern, st: State, st': State, k: nat)
    requires Acyclic(d.g, d.rank) && SameState(st, st')
    ensures SameState(UnloadState(d, f, pat, st, k), UnloadState(d, f, pat, st', k))
  {
    hide Acyclic, SameState, Clocked;
    if k == 0 {
      StateSame(d, f, CaptureInputs(d, pat.pis), st, st');
    } else {
      UnloadSame(d, f, pat, st, st', k - 1);
      StateSame(d, f, UnloadInputs(d, pat.pis), UnloadState(d, f, pat, st, k - 1), UnloadState(d, f, pat, st', k - 1));
    }
  }

  // The tester compares a good chip with one that has had the fault all along.
  ghost predicate TesterDetects(d: Design, s: Setup, p: Finish, f: Fault, pat: Pattern, st0: State)
  {
    var st, st' := LoadState(d, pat, st0, pat.n), FaultyLoad(d, f, pat, st0, pat.n);
    || (exists name :: name in d.g.ports && Kept(s, p, name) && OutputShows(d, NoFault, pat, st, name) != OutputShows(d, f, pat, st', name))
    || (exists c :: 0 <= c < |d.chains| && TesterChain(d, f, pat, st, st', c))
  }

  ghost predicate TesterChain(d: Design, f: Fault, pat: Pattern, st: State, st': State, c: nat)
    requires c < |d.chains|
  {
    d.chains[c].scanOut in d.g.ports
    && exists k :: 0 <= k < pat.n && ScanOutShows(d, NoFault, pat, st, c, k) != ScanOutShows(d, f, pat, st', c, k)
  }

  lemma ShowsSame(d: Design, f: Fault, pat: Pattern, st: State, st': State)
    requires Acyclic(d.g, d.rank) && SameState(st, st')
    ensures forall name :: name in d.g.ports ==> OutputShows(d, f, pat, st, name) == OutputShows(d, f, pat, st', name)
    ensures forall c: nat, k: nat :: c < |d.chains| && d.chains[c].scanOut in d.g.ports ==> ScanOutShows(d, f, pat, st, c, k) == ScanOutShows(d, f, pat, st', c, k)
  {
    hide Acyclic, SameState, Clocked, Values, UnloadState;
    StateSame(d, f, CaptureInputs(d, pat.pis), st, st');
    forall c: nat, k: nat | c < |d.chains| && d.chains[c].scanOut in d.g.ports ensures ScanOutShows(d, f, pat, st, c, k) == ScanOutShows(d, f, pat, st', c, k) {
      UnloadSame(d, f, pat, st, st', k);
      StateSame(d, f, UnloadInputs(d, pat.pis), UnloadState(d, f, pat, st, k), UnloadState(d, f, pat, st', k));
    }
  }

  lemma DetectsSame(d: Design, s: Setup, p: Finish, f: Fault, pat: Pattern, st0: State)
    requires Acyclic(d.g, d.rank) && SameState(FaultyLoad(d, f, pat, st0, pat.n), LoadState(d, pat, st0, pat.n))
    ensures TesterDetects(d, s, p, f, pat, st0) <==> ProtocolDetects(d, s, p, f, pat, LoadState(d, pat, st0, pat.n))
  {
    hide Acyclic, FaultyLoad, LoadState, OutputShows, ScanOutShows, Kept, SameState;
    var st, st' := LoadState(d, pat, st0, pat.n), FaultyLoad(d, f, pat, st0, pat.n);
    ShowsSame(d, f, pat, st', st);
    forall c | 0 <= c < |d.chains| ensures TesterChain(d, f, pat, st, st', c) <==> ChainDiffers(d, f, pat, st, c) {
      if d.chains[c].scanOut in d.g.ports {
        assert forall k: nat :: ScanOutShows(d, f, pat, st', c, k) == ScanOutShows(d, f, pat, st, c, k);
      }
    }
    hide TesterChain, ChainDiffers;
    assert forall name :: name in d.g.ports ==> OutputShows(d, f, pat, st', name) == OutputShows(d, f, pat, st, name);
  }

  lemma ThreadedAcyclic(d: Design)
    requires Threaded(d)
    ensures Acyclic(d.g, d.rank)
  {}

  /** Off the scan path the reduced view grades a stuck-at fault exactly as a tester
      does whose chip has the fault during the load as well, when the flops outside
      the chains, if any, load alike. */
  lemma ViewGradesAsTester(d: Design, s: Setup, p: Finish, f: Fault, pat: Pattern, st0: State, good: Valuation, faulty: Valuation)
    requires SameDesign(d, s, p) && FaultBelow(f, s.next) && OffInputs(d, f) && OffChains(d, f) && Fits(d, pat)
    requires forall x :: Unscanned(d, x) ==> FaultyLoad(d, f, pat, st0, pat.n)(x) == LoadState(d, pat, st0, pat.n)(x)
    requires ViewPair(d, s, p, f, pat, LoadState(d, pat, st0, pat.n), good, faulty)
    ensures ViewDetects(s, p, ReducedView(s, p), good, faulty) <==> TesterDetects(d, s, p, f, pat, st0)
  {
    hide *;
    DesignThreaded(d, s, p);
    ThreadedAcyclic(d);
    ViewGradesAsProtocol(d, s, p, f, pat, st0, good, faulty);
    LoadsAlike(d, f, pat, st0);
    DetectsSame(d, s, p, f, pat, st0);
  }
}
