/** Grading on the reduced view against grading by the full scan protocol
    (faultflow/scan/detection_pipeline.py). */
module ScanGrading {
  import opened Netlist
  import opened NetlistEval
  import opened ShiftRegister
  import opened ScanView
  import opened ViewMeaning
  import opened ViewDrop
  import opened ViewFinish
  import opened ScanProtocol

  predicate IsPpi(name: Name) { name.Made? && name.tag.Ppi? }

  // The view's inputs: every pseudo-input at its flop's loaded value, scan
  // enable off, the pattern's primary inputs.
  ghost function ViewInputs(d: Design, pis: Inputs, st: State): Inputs
  {
    (name: Name, i: nat) => if IsPpi(name) then st(name.base) else CaptureInputs(d, pis)(name, i)
  }

  // The view and the protocol talk about one scanned module, and the view cuts
  // exactly the flops of the chains.
  ghost predicate SameDesign(d: Design, s: Setup, p: Finish)
  {
    && Threaded(d) && FinishReady(s, p) && NoForward(s, p.drop)
    && s.g == d.g && s.se == d.se && p.sePort == d.sePort && s.se < s.next
    && (forall inst :: inst in s.order <==> exists c: nat, q: nat :: InChain(d.chains, inst, c, q))
    && (forall c :: 0 <= c < |d.chains| ==> !IsPpi(d.chains[c].scanIn))
    && !IsPpi(d.sePort)
    && (forall name :: name in d.g.ports ==> !IsPpi(name))
  }

  lemma InputsAgree(d: Design, s: Setup, p: Finish, f: Fault, pis: Inputs, st: State, v: Valuation)
    requires SameDesign(d, s, p)
    ensures Settled(d.lib, d.g, f, CaptureInputs(d, pis), st, v) <==> Settled(d.lib, d.g, f, ViewInputs(d, pis, st), st, v)
    ensures Loaded(s, ViewInputs(d, pis, st), st) && !ViewInputs(d, pis, st)(p.sePort, 0)
  {
    hide Threaded, FinishReady, CellOk, CaptureInputs;
    var a, b := CaptureInputs(d, pis), ViewInputs(d, pis, st);
    forall name, i: nat ensures b(name, i) == if IsPpi(name) then st(name.base) else a(name, i) {}
    assert !a(d.sePort, 0) by { CaptureLow(d, pis); }
    hide ViewInputs;
    forall inst, i: nat ensures b(Made(Ppi, inst), i) == st(inst) {
      assert IsPpi(Made(Ppi, inst));
    }
    forall name | name in d.g.ports
      ensures PortOk(f, a, name, d.g.ports[name], v) <==> PortOk(f, b, name, d.g.ports[name], v)
    {
      assert forall i: nat :: a(name, i) == b(name, i);
    }
  }

  lemma CaptureLow(d: Design, pis: Inputs)
    ensures !CaptureInputs(d, pis)(d.sePort, 0)
  {}

  // Settled valuations of an acyclic module agree on every pin and port.
  lemma SettledSame(d: Design, f: Fault, env: Inputs, st: State, v: Valuation, w: Valuation)
    requires Acyclic(d.g, d.rank)
    requires Settled(d.lib, d.g, f, env, st, v) && Settled(d.lib, d.g, f, env, st, w)
    ensures forall name :: name in d.g.ports ==> BitsVal(v, d.g.ports[name].bits) == BitsVal(w, d.g.ports[name].bits)
    ensures forall inst :: inst in d.g.cells ==> NextVal(d.g.cells[inst], st(inst), v) == NextVal(d.g.cells[inst], st(inst), w)
  {
    forall name | name in d.g.ports
      ensures BitsVal(v, d.g.ports[name].bits) == BitsVal(w, d.g.ports[name].bits)
    {
      var bits := d.g.ports[name].bits;
      forall i | 0 <= i < |bits| ensures BitVal(v, bits[i]) == BitVal(w, bits[i]) {
        if bits[i].Net? {
          SettledUnique(d.lib, d.g, f, env, st, d.rank, v, w, bits[i].id);
        }
      }
    }
    forall inst | inst in d.g.cells
      ensures NextVal(d.g.cells[inst], st(inst), v) == NextVal(d.g.cells[inst], st(inst), w)
    {
      var c := d.g.cells[inst];
      forall p | p in c.conns ensures BitsVal(v, c.conns[p]) == BitsVal(w, c.conns[p]) {
        forall i | 0 <= i < |c.conns[p]| ensures BitVal(v, c.conns[p][i]) == BitVal(w, c.conns[p][i]) {
          if c.conns[p][i].Net? {
            SettledUnique(d.lib, d.g, f, env, st, d.rank, v, w, c.conns[p][i].id);
          }
        }
      }
      SameOnPins(d.lib, c, v, w);
    }
  }

  // A primary output both sides keep.
  ghost predicate Kept(s: Setup, p: Finish, name: Name)
  {
    name in s.g.ports && s.g.ports[name].dir.Output? && name !in s.keep + p.drop
  }

  /** Any settled valuation of the view shows, on every kept output, what the
      netlist shows at the capture cycle and, on every pseudo-output, the value
      its flop captures: fault-free and under every stuck-at fault off the scan
      enable and scan-in nets. */
  lemma ViewShowsCapture(d: Design, s: Setup, p: Finish, f: Fault, pat: Pattern, st: State, v: Valuation)
    requires SameDesign(d, s, p) && FaultBelow(f, s.next) && Free(f, s.se)
    requires Settled(d.lib, ReducedView(s, p), ViewFault(s, f), ViewInputs(d, pat.pis, st), st, v)
    ensures forall name :: Kept(s, p, name) ==>
              name in ReducedView(s, p).ports
              && BitsVal(v, ReducedView(s, p).ports[name].bits) == OutputShows(d, f, pat, st, name)
    ensures forall inst :: inst in s.order ==>
              Made(Ppo, inst) in ReducedView(s, p).ports
              && BitsVal(v, ReducedView(s, p).ports[Made(Ppo, inst)].bits) == [UnloadState(d, f, pat, st, 0)(inst)]
  {
    hide ReducedView;
    hide Settled;
    hide FinishReady;
    hide ViewFault;
    var env := ViewInputs(d, pat.pis, st);
    var good := Values(d, f, CaptureInputs(d, pat.pis), st);
    InputsAgree(d, s, p, f, pat.pis, st, good);
    var w := ViewBack(d.lib, s, p, f, env, st, v);
    EvaluatedSettles(d.lib, d.g, f, CaptureInputs(d, pat.pis), st, d.rank);
    SettledSame(d, f, env, st, w, good);
    forall name | Kept(s, p, name)
      ensures name in ReducedView(s, p).ports
      ensures BitsVal(v, ReducedView(s, p).ports[name].bits) == OutputShows(d, f, pat, st, name)
    {
      assert ShowsPort(s.g, w, ReducedView(s, p), v, name);
    }
    forall inst | inst in s.order
      ensures Made(Ppo, inst) in ReducedView(s, p).ports
      ensures BitsVal(v, ReducedView(s, p).ports[Made(Ppo, inst)].bits) == [UnloadState(d, f, pat, st, 0)(inst)]
    {
      assert inst in Elems(s.order);
      assert ShowsCapture(s.g, w, ReducedView(s, p), v, inst, st);
    }
  }

  /* ---- detection ---- */

  // The protocol sees the fault at a primary output or in an unloaded bit.
  ghost predicate ProtocolDetects(d: Design, s: Setup, p: Finish, f: Fault, pat: Pattern, st: State)
  {
    || (exists name :: name in d.g.ports && Kept(s, p, name) && OutputShows(d, NoFault, pat, st, name) != OutputShows(d, f, pat, st, name))
    || (exists c :: 0 <= c < |d.chains| && ChainDiffers(d, f, pat, st, c))
  }

  ghost predicate ChainDiffers(d: Design, f: Fault, pat: Pattern, st: State, c: nat)
    requires c < |d.chains|
  {
    d.chains[c].scanOut in d.g.ports
    && exists k :: 0 <= k < pat.n && ScanOutShows(d, NoFault, pat, st, c, k) != ScanOutShows(d, f, pat, st, c, k)
  }

  // What the view shows on a port.
  ghost function Shown(m: Module, v: Valuation, name: Name): seq<bool>
  {
    if name in m.ports then BitsVal(v, m.ports[name].bits) else []
  }

  ghost predicate OutputSeen(s: Setup, p: Finish, m: Module, good: Valuation, faulty: Valuation)
  {
    exists name :: Kept(s, p, name) && Shown(m, good, name) != Shown(m, faulty, name)
  }

  ghost predicate PpoSeen(m: Module, good: Valuation, faulty: Valuation, inst: Name)
  {
    Shown(m, good, Made(Ppo, inst)) != Shown(m, faulty, Made(Ppo, inst))
  }

  // The reduced view sees the fault at an output or a pseudo-output.
  ghost predicate ViewDetects(s: Setup, p: Finish, m: Module, good: Valuation, faulty: Valuation)
  {
    OutputSeen(s, p, m, good, faulty) || exists inst :: inst in s.order && PpoSeen(m, good, faulty, inst)
  }

  /** The order in which flops are cut, and the choices made on the way, do not
      show: two views of one design agree on every output both keep and on every
      pseudo-output, fault for fault. */
  lemma AnyOrder(d: Design, s: Setup, p: Finish, s': Setup, p': Finish, f: Fault, pat: Pattern, st: State, v: Valuation, v': Valuation)
    requires SameDesign(d, s, p) && FaultBelow(f, s.next) && Free(f, s.se)
    requires SameDesign(d, s', p') && FaultBelow(f, s'.next)
    requires Settled(d.lib, ReducedView(s, p), ViewFault(s, f), ViewInputs(d, pat.pis, st), st, v)
    requires Settled(d.lib, ReducedView(s', p'), ViewFault(s', f), ViewInputs(d, pat.pis, st), st, v')
    ensures forall name :: Kept(s, p, name) && Kept(s', p', name) ==> Shown(ReducedView(s, p), v, name) == Shown(ReducedView(s', p'), v', name)
    ensures forall inst :: inst in s.order ==> Shown(ReducedView(s, p), v, Made(Ppo, inst)) == Shown(ReducedView(s', p'), v', Made(Ppo, inst))
  {
    assert s.se == d.se == s'.se && forall inst :: inst in s.order <==> inst in s'.order;
    hide ReducedView, Settled, SameDesign, ViewFault, ViewInputs, Kept, OutputShows, UnloadState;
    ViewShowsCapture(d, s, p, f, pat, st, v);
    ViewShowsCapture(d, s', p', f, pat, st, v');
  }

  // The fault is on no flop output of the chains.
  ghost predicate OffChains(d: Design, f: Fault)
  {
    forall c, q: nat :: 0 <= c < |d.chains| ==> !StuckAt(d.g, d.chains[c], f, q)
  }

  // Settled valuations of the view for one pattern, without and with the fault.
  ghost predicate ViewPair(d: Design, s: Setup, p: Finish, f: Fault, pat: Pattern, st: State, good: Valuation, faulty: Valuation)
  {
    var m, env := ReducedView(s, p), ViewInputs(d, pat.pis, st);
    Settled(d.lib, m, NoFault, env, st, good) && Settled(d.lib, m, ViewFault(s, f), env, st, faulty)
  }

  // Both sides, value for value.
  lemma PairShows(d: Design, s: Setup, p: Finish, f: Fault, pat: Pattern, st: State, good: Valuation, faulty: Valuation)
    requires SameDesign(d, s, p) && FaultBelow(f, s.next) && Free(f, s.se)
    requires ViewPair(d, s, p, f, pat, st, good, faulty)
    ensures var m := ReducedView(s, p);
            && (forall name :: Kept(s, p, name) ==> Shown(m, good, name) == OutputShows(d, NoFault, pat, st, name)
                                                    && Shown(m, faulty, name) == OutputShows(d, f, pat, st, name))
            && (forall inst :: inst in s.order ==> Shown(m, good, Made(Ppo, inst)) == [UnloadState(d, NoFault, pat, st, 0)(inst)]
                                                   && Shown(m, faulty, Made(Ppo, inst)) == [UnloadState(d, f, pat, st, 0)(inst)])
  {
    hide ReducedView;
    hide Settled;
    hide SameDesign;
    NoFaultStays(s, |s.order|);
    ViewShowsCapture(d, s, p, NoFault, pat, st, good);
    ViewShowsCapture(d, s, p, f, pat, st, faulty);
  }

  // A chain's unload against its captured registers.
  lemma ChainDiffersWhen(d: Design, f: Fault, pat: Pattern, st: State, c: nat)
    requires Threaded(d) && OffInputs(d, f) && Fits(d, pat) && c < |d.chains|
    ensures var ch := d.chains[c];
            ChainDiffers(d, f, pat, st, c) <==>
              Unload(Reg(UnloadState(d, NoFault, pat, st, 0), ch), pat.n)
              != UnloadStuck(Reg(UnloadState(d, f, pat, st, 0), ch), StuckPos(d.g, ch, f), StuckValue(f), pat.n)
  {
    hide Threaded;
    hide UnloadState;
    hide ScanOutShows;
    hide StuckPos;
    var ch := d.chains[c];
    var r, r' := Reg(UnloadState(d, NoFault, pat, st, 0), ch), Reg(UnloadState(d, f, pat, st, 0), ch);
    var a, b := Unload(r, pat.n), UnloadStuck(r', StuckPos(d.g, ch, f), StuckValue(f), pat.n);
    CleanPos(d.g, ch);
    UnstuckUnload(r, |ch.cells|, false, pat.n);
    assert d.chains[c].scanOut in d.g.ports by {
      ScanOutThere(d, c);
    }
    forall k | 0 <= k < pat.n
      ensures ScanOutShows(d, NoFault, pat, st, c, k) == [a[k]] && ScanOutShows(d, f, pat, st, c, k) == [b[k]]
    {
      UnloadShowsCapture(d, NoFault, pat, st, c, k);
      UnloadShowsCapture(d, f, pat, st, c, k);
    }
    if a != b {
      var k :| 0 <= k < pat.n && a[k] != b[k];
      assert [a[k]][0] != [b[k]][0];
    }
  }

  lemma CleanPos(g: Module, ch: Chain)
    ensures StuckPos(g, ch, NoFault) == |ch.cells|
  {
  }

  lemma ScanOutThere(d: Design, c: nat)
    requires Threaded(d) && c < |d.chains|
    ensures d.chains[c].scanOut in d.g.ports
  {
    assert ChainThreaded(d.g, d.chains[c], d.se, d.sePort);
  }

  lemma RegAt(st: State, ch: Chain, q: nat)
    requires q < |ch.cells|
    ensures Reg(st, ch)[q] == st(ch.cells[q])
  {
  }

  // A chain with no stuck output differs exactly when some flop captured differently.
  lemma CleanChain(d: Design, f: Fault, pat: Pattern, st: State, c: nat)
    requires Threaded(d) && OffInputs(d, f) && Fits(d, pat) && c < |d.chains|
    requires forall q: nat :: !StuckAt(d.g, d.chains[c], f, q)
    ensures ChainDiffers(d, f, pat, st, c) <==>
              exists q :: 0 <= q < |d.chains[c].cells| &&
                UnloadState(d, NoFault, pat, st, 0)(d.chains[c].cells[q]) != UnloadState(d, f, pat, st, 0)(d.chains[c].cells[q])
  {
    hide Threaded;
    hide UnloadState;
    hide ChainDiffers;
    var ch := d.chains[c];
    var r, r' := Reg(UnloadState(d, NoFault, pat, st, 0), ch), Reg(UnloadState(d, f, pat, st, 0), ch);
    ChainDiffersWhen(d, f, pat, st, c);
    UnstuckUnload(r', |ch.cells|, StuckValue(f), pat.n);
    UnloadTells(r, r', pat.n);
    if r != r' {
      var q :| 0 <= q < |r| && r[q] != r'[q];
      RegAt(UnloadState(d, NoFault, pat, st, 0), ch, q);
      RegAt(UnloadState(d, f, pat, st, 0), ch, q);
    }
    if q :| 0 <= q < |ch.cells| &&
            UnloadState(d, NoFault, pat, st, 0)(ch.cells[q]) != UnloadState(d, f, pat, st, 0)(ch.cells[q]) {
      RegAt(UnloadState(d, NoFault, pat, st, 0), ch, q);
      RegAt(UnloadState(d, f, pat, st, 0), ch, q);
    }
  }

  // Some flop outside the positions at or below p0 of chain c0 is seen at its pseudo-output.
  ghost predicate SeenBeyond(d: Design, m: Module, good: Valuation, faulty: Valuation, c0: nat, p0: nat)
  {
    exists c: nat, q: nat :: c < |d.chains| && q < |d.chains[c].cells| && (c != c0 || q > p0)
                             && PpoSeen(m, good, faulty, d.chains[c].cells[q])
  }

  lemma OutputsMatch(d: Design, s: Setup, p: Finish, f: Fault, pat: Pattern, st: State, good: Valuation, faulty: Valuation)
    requires SameDesign(d, s, p) && FaultBelow(f, s.next) && Free(f, s.se)
    requires ViewPair(d, s, p, f, pat, st, good, faulty)
    ensures OutputSeen(s, p, ReducedView(s, p), good, faulty) <==>
              exists name :: name in d.g.ports && Kept(s, p, name)
                             && OutputShows(d, NoFault, pat, st, name) != OutputShows(d, f, pat, st, name)
  {
    hide ReducedView;
    hide Threaded;
    hide FinishReady;
    hide OutputShows;
    hide Shown;
    hide ViewPair;
    PairShows(d, s, p, f, pat, st, good, faulty);
  }

  lemma PpoMatch(d: Design, s: Setup, p: Finish, f: Fault, pat: Pattern, st: State, good: Valuation, faulty: Valuation,
                 c: nat, q: nat)
    requires SameDesign(d, s, p) && FaultBelow(f, s.next) && Free(f, s.se)
    requires ViewPair(d, s, p, f, pat, st, good, faulty)
    requires c < |d.chains| && q < |d.chains[c].cells|
    ensures var inst := d.chains[c].cells[q];
            && inst in s.order
            && Shown(ReducedView(s, p), good, Made(Ppo, inst)) == [UnloadState(d, NoFault, pat, st, 0)(inst)]
            && Shown(ReducedView(s, p), faulty, Made(Ppo, inst)) == [UnloadState(d, f, pat, st, 0)(inst)]
            && (PpoSeen(ReducedView(s, p), good, faulty, inst) <==>
                  UnloadState(d, NoFault, pat, st, 0)(inst) != UnloadState(d, f, pat, st, 0)(inst))
  {
    hide ReducedView;
    hide Threaded;
    hide FinishReady;
    hide OutputShows;
    hide Shown;
    hide ViewPair;
    hide UnloadState;
    PairShows(d, s, p, f, pat, st, good, faulty);
    assert InChain(d.chains, d.chains[c].cells[q], c, q);
  }

  // Chains other than the one with the stuck output.
  lemma CleanChainSeen(d: Design, s: Setup, p: Finish, f: Fault, pat: Pattern, st: State, good: Valuation, faulty: Valuation, c: nat)
    requires SameDesign(d, s, p) && FaultBelow(f, s.next) && OffInputs(d, f) && Fits(d, pat)
    requires ViewPair(d, s, p, f, pat, st, good, faulty)
    requires c < |d.chains| && forall q: nat :: !StuckAt(d.g, d.chains[c], f, q)
    ensures ChainDiffers(d, f, pat, st, c) <==>
              exists q :: 0 <= q < |d.chains[c].cells| && PpoSeen(ReducedView(s, p), good, faulty, d.chains[c].cells[q])
  {
    hide Threaded;
    hide OffInputs;
    hide FaultBelow;
    hide Shown;
    hide StuckAt;
    hide ReducedView;
    hide SameDesign;
    hide ViewPair;
    hide UnloadState;
    hide ChainDiffers;
    hide PpoSeen;
    hide Fits;
    DesignThreaded(d, s, p);
    OffInputsFree(d, f);
    CleanChain(d, f, pat, st, c);
    forall q | 0 <= q < |d.chains[c].cells|
      ensures PpoSeen(ReducedView(s, p), good, faulty, d.chains[c].cells[q]) <==>
                UnloadState(d, NoFault, pat, st, 0)(d.chains[c].cells[q]) != UnloadState(d, f, pat, st, 0)(d.chains[c].cells[q])
    {
      PpoMatch(d, s, p, f, pat, st, good, faulty, c, q);
    }
  }

  lemma DesignThreaded(d: Design, s: Setup, p: Finish)
    requires SameDesign(d, s, p)
    ensures Threaded(d) && s.g == d.g && s.se == d.se
    ensures forall inst :: inst in s.order <==> exists c: nat, q: nat :: InChain(d.chains, inst, c, q)
  {
  }

  /** Off the scan path the reduced view grades a stuck-at fault exactly as the
      full load, capture and unload does. */
  lemma ViewGradesAsProtocol(d: Design, s: Setup, p: Finish, f: Fault, pat: Pattern, st0: State,
                             good: Valuation, faulty: Valuation)
    requires SameDesign(d, s, p) && FaultBelow(f, s.next) && OffInputs(d, f) && OffChains(d, f) && Fits(d, pat)
    requires ViewPair(d, s, p, f, pat, LoadState(d, pat, st0, pat.n), good, faulty)
    ensures ViewDetects(s, p, ReducedView(s, p), good, faulty)
       <==> ProtocolDetects(d, s, p, f, pat, LoadState(d, pat, st0, pat.n))
  {
    hide Threaded;
    hide OffInputs;
    hide FaultBelow;
    hide ReducedView;
    hide SameDesign;
    hide ViewPair;
    hide LoadState;
    hide OutputSeen;
    hide PpoSeen;
    hide ChainDiffers;
    hide Fits;
    hide OutputShows;
    var m, st := ReducedView(s, p), LoadState(d, pat, st0, pat.n);
    DesignThreaded(d, s, p);
    OutputsMatch(d, s, p, f, pat, st, good, faulty) by { OffInputsFree(d, f); }
    forall c | 0 <= c < |d.chains|
      ensures ChainDiffers(d, f, pat, st, c) <==>
                exists q :: 0 <= q < |d.chains[c].cells| && PpoSeen(m, good, faulty, d.chains[c].cells[q])
    {
      CleanChainSeen(d, s, p, f, pat, st, good, faulty, c);
    }
    if inst :| inst in s.order && PpoSeen(m, good, faulty, inst) {
      var c: nat, q: nat :| InChain(d.chains, inst, c, q);
      assert ChainDiffers(d, f, pat, st, c);
    }
    if c :| 0 <= c < |d.chains| && ChainDiffers(d, f, pat, st, c) {
      var q :| 0 <= q < |d.chains[c].cells| && PpoSeen(m, good, faulty, d.chains[c].cells[q]);
      assert InChain(d.chains, d.chains[c].cells[q], c, q);
    }
  }

  lemma OffInputsFree(d: Design, f: Fault)
    requires OffInputs(d, f)
    ensures Free(f, d.se)
  {
  }

  /** Exactly when the protocol detects a stuck flop output, in terms of the
      reduced view: an output or a pseudo-output beyond the flop is seen, or a
      fault-free captured value at or below the flop is not the stuck value, or
      the output is stuck at 1 on a chain shorter than the unload. */
  lemma QStemGrade(d: Design, s: Setup, p: Finish, f: Fault, pat: Pattern, st0: State,
                   good: Valuation, faulty: Valuation, c0: nat, p0: nat)
    requires SameDesign(d, s, p) && FaultBelow(f, s.next) && OffInputs(d, f) && Fits(d, pat)
    requires c0 < |d.chains| && StuckAt(d.g, d.chains[c0], f, p0)
    requires ViewPair(d, s, p, f, pat, LoadState(d, pat, st0, pat.n), good, faulty)
    ensures ProtocolDetects(d, s, p, f, pat, LoadState(d, pat, st0, pat.n)) <==>
              || OutputSeen(s, p, ReducedView(s, p), good, faulty)
              || SeenBeyond(d, ReducedView(s, p), good, faulty, c0, p0)
              || (exists q :: 0 <= q <= p0 && Shown(ReducedView(s, p), good, Made(Ppo, d.chains[c0].cells[q])) != [f.value])
              || (f.value && |d.chains[c0].cells| < pat.n)
  {
    hide Threaded;
    hide OffInputs;
    hide FaultBelow;
    hide ReducedView;
    hide SameDesign;
    hide ViewPair;
    hide LoadState;
    hide OutputSeen;
    hide PpoSeen;
    hide ChainDiffers;
    hide Fits;
    hide OutputShows;
    hide StuckAt;
    hide Shown;
    var m, st := ReducedView(s, p), LoadState(d, pat, st0, pat.n);
    DesignThreaded(d, s, p);
    OutputsMatch(d, s, p, f, pat, st, good, faulty) by { OffInputsFree(d, f); }
    StuckChainSeen(d, s, p, f, pat, st, good, faulty, c0, p0);
    forall c | 0 <= c < |d.chains| && c != c0
      ensures ChainDiffers(d, f, pat, st, c) <==>
                exists q :: 0 <= q < |d.chains[c].cells| && PpoSeen(m, good, faulty, d.chains[c].cells[q])
    {
      StuckOnce(d, f, c0, p0, c);
      CleanChainSeen(d, s, p, f, pat, st, good, faulty, c);
    }
  }

  // Only one place of one chain is stuck.
  lemma StuckOnce(d: Design, f: Fault, c0: nat, p0: nat, c: nat)
    requires Threaded(d) && c0 < |d.chains| && c < |d.chains| && StuckAt(d.g, d.chains[c0], f, p0)
    ensures forall q: nat :: StuckAt(d.g, d.chains[c], f, q) ==> c == c0 && q == p0
  {
    hide Threaded;
    forall q: nat | StuckAt(d.g, d.chains[c], f, q) ensures c == c0 && q == p0 {
      OutputsDiffer(d, c, q, c0, p0);
    }
  }

  lemma StuckChainSeen(d: Design, s: Setup, p: Finish, f: Fault, pat: Pattern, st: State,
                       good: Valuation, faulty: Valuation, c0: nat, p0: nat)
    requires SameDesign(d, s, p) && FaultBelow(f, s.next) && OffInputs(d, f) && Fits(d, pat)
    requires c0 < |d.chains| && StuckAt(d.g, d.chains[c0], f, p0)
    requires ViewPair(d, s, p, f, pat, st, good, faulty)
    ensures ChainDiffers(d, f, pat, st, c0) <==>
              || (exists q :: p0 < q < |d.chains[c0].cells| && PpoSeen(ReducedView(s, p), good, faulty, d.chains[c0].cells[q]))
              || (exists q :: 0 <= q <= p0 && Shown(ReducedView(s, p), good, Made(Ppo, d.chains[c0].cells[q])) != [f.value])
              || (f.value && |d.chains[c0].cells| < pat.n)
  {
    hide Threaded;
    hide OffInputs;
    hide FaultBelow;
    hide StuckPos;
    hide ReducedView;
    hide SameDesign;
    hide ViewPair;
    hide UnloadState;
    hide ChainDiffers;
    hide PpoSeen;
    hide Shown;
    hide Unload;
    hide UnloadStuck;
    var m, ch := ReducedView(s, p), d.chains[c0];
    var r, r' := Reg(UnloadState(d, NoFault, pat, st, 0), ch), Reg(UnloadState(d, f, pat, st, 0), ch);
    DesignThreaded(d, s, p);
    StuckPosIs(d, f, c0, p0);
    OffInputsFree(d, f);
    ChainDiffersWhen(d, f, pat, st, c0);
    StuckUnloadDiffers(r, r', p0, f.value, pat.n);
    forall q | 0 <= q < |ch.cells|
      ensures PpoSeen(m, good, faulty, ch.cells[q]) <==> r[q] != r'[q]
      ensures Shown(m, good, Made(Ppo, ch.cells[q])) == [r[q]]
    {
      PpoMatch(d, s, p, f, pat, st, good, faulty, c0, q);
    }
    assert forall a: bool, b: bool :: [a] != [b] <==> a != b by {
      forall a: bool, b: bool ensures [a] != [b] <==> a != b {
        assert [a][0] == a && [b][0] == b;
      }
    }
  }

  lemma StuckPosIs(d: Design, f: Fault, c0: nat, p0: nat)
    requires Threaded(d) && c0 < |d.chains| && StuckAt(d.g, d.chains[c0], f, p0)
    ensures StuckPos(d.g, d.chains[c0], f) == p0 && p0 < |d.chains[c0].cells| && StuckValue(f) == f.value
  {
    hide Threaded;
    StuckOnce(d, f, c0, p0, c0);
  }
}
