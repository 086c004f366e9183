/** A serialized vector played on the stitched netlist: the bits of
    faultflow/scan/protocol.py on the cycles of the scan protocol. */
module ScanRun {
  import opened Netlist
  import opened ShiftRegister
  import opened Serialize
  import opened ViewMeaning
  import opened ViewFinish
  import opened ScanProtocol
  import opened ScanGrading

  // The pseudo-port list names every flop of the chains at its place.
  ghost predicate Lists(d: Design, entries: seq<Entry>)
  {
    && Apart(entries)
    && (forall c: nat, p: nat :: c < |d.chains| && p < |d.chains[c].cells| ==> Filled(entries, c, p))
    && (forall i :: 0 <= i < |entries| ==> Listed(d, entries[i]))
  }

  ghost predicate Listed(d: Design, e: Entry)
  {
    && e.chain < |d.chains| && e.pos < |d.chains[e.chain].cells|
    && e.ppi == Made(Ppi, d.chains[e.chain].cells[e.pos])
    && e.ppo == Some(Made(Ppo, d.chains[e.chain].cells[e.pos]))
  }

  // The pattern is the serialized vector, on chains of the recorded lengths.
  ghost predicate Serialized(d: Design, v: Vector, entries: seq<Entry>, lengths: map<nat, nat>, sp: ScanPattern, pat: Pattern)
  {
    && Lists(d, entries) && Fits(d, pat)
    && LoadsOf(sp.load, Placed(entries, v, LoadBit), lengths, pat.n)
    && UnloadsOf(sp.unload, Placed(entries, v, UnloadBit), lengths, pat.n)
    && InputsOf(sp.pis, v) && (forall name :: pat.pis(name, 0) == Get(sp.pis, name))
    && (forall c :: 0 <= c < |d.chains| ==>
          && c in lengths && lengths[c] == |d.chains[c].cells|
          && c in sp.load && pat.load[c] == sp.load[c])
  }

  /** Whatever state the netlist starts in, the load cycles bring every flop of
      every chain to the vector's value for its pseudo-input. */
  lemma LoadedValue(d: Design, v: Vector, entries: seq<Entry>, lengths: map<nat, nat>, sp: ScanPattern,
                    pat: Pattern, st0: State, c: nat, p: nat)
    requires Threaded(d) && Serialized(d, v, entries, lengths, sp, pat)
    requires c < |d.chains| && p < |d.chains[c].cells|
    ensures LoadState(d, pat, st0, pat.n)(d.chains[c].cells[p]) == Get(v, Made(Ppi, d.chains[c].cells[p]))
  {
    hide Threaded, Placed, PaddedLoad, PaddedUnload, ShiftAll, LoadState, Apart, UnloadsOf;
    var ch := d.chains[c];
    assert Filled(entries, c, p);
    var i: int :| Sits(entries, i, c, p);
    assert Listed(d, entries[i]);
    LoadReaches(d, pat, st0, pat.n, c);
    assert pat.load[c][..pat.n] == pat.load[c];
    PlacedAt(entries, v, LoadBit, i);
    SerializedLoad(v, entries, lengths, pat.n, Reg(st0, ch), i);
    RegAt(LoadState(d, pat, st0, pat.n), ch, p);
  }

  /** Once loaded, the netlist is driven with the vector: every pseudo-input's flop
      and every primary input, scan enable and the scan inputs aside, is at the
      vector's value. */
  lemma VectorApplied(d: Design, s: Setup, f: Finish, v: Vector, entries: seq<Entry>, lengths: map<nat, nat>, sp: ScanPattern,
                      pat: Pattern, st0: State, name: Name)
    requires SameDesign(d, s, f) && Serialized(d, v, entries, lengths, sp, pat)
    requires || (exists inst :: inst in s.order && name == Made(Ppi, inst))
             || (Primary(name) && name != d.sePort && forall c: nat :: !FeedsChain(d, name, c))
    ensures ViewInputs(d, pat.pis, LoadState(d, pat, st0, pat.n))(name, 0) == Get(v, name)
  {
    hide *;
    DesignThreaded(d, s, f);
    if inst :| inst in s.order && name == Made(Ppi, inst) {
      var c: nat, q: nat :| InChain(d.chains, inst, c, q);
      ChainCell(d.chains, inst, c, q);
      LoadedValue(d, v, entries, lengths, sp, pat, st0, c, q);
      PseudoDriven(d, pat.pis, LoadState(d, pat, st0, pat.n), inst);
    } else {
      PrimaryDriven(d, v, entries, lengths, sp, pat, LoadState(d, pat, st0, pat.n), name);
    }
  }

  lemma ChainCell(chains: seq<Chain>, inst: Name, c: nat, q: nat)
    requires InChain(chains, inst, c, q)
    ensures c < |chains| && q < |chains[c].cells| && chains[c].cells[q] == inst
  {}

  lemma PseudoDriven(d: Design, pis: Inputs, st: State, inst: Name)
    ensures ViewInputs(d, pis, st)(Made(Ppi, inst), 0) == st(inst)
  {
    DrivenAs(d, pis, st, Made(Ppi, inst));
  }

  lemma DrivenAs(d: Design, pis: Inputs, st: State, name: Name)
    ensures ViewInputs(d, pis, st)(name, 0) == if IsPpi(name) then st(name.base) else CaptureInputs(d, pis)(name, 0)
  {
    var env := ViewInputs(d, pis, st);
    forall x, i: nat ensures env(x, i) == if IsPpi(x) then st(x.base) else CaptureInputs(d, pis)(x, i) {}
  }

  lemma PrimaryDriven(d: Design, v: Vector, entries: seq<Entry>, lengths: map<nat, nat>, sp: ScanPattern, pat: Pattern, st: State, name: Name)
    requires Serialized(d, v, entries, lengths, sp, pat) && Primary(name) && name != d.sePort && forall c: nat :: !FeedsChain(d, name, c)
    ensures ViewInputs(d, pat.pis, st)(name, 0) == Get(v, name)
  {
    hide Lists, Fits, LoadsOf, UnloadsOf, Placed;
    assert name.Made? ==> name != Made(Ppi, name.base);
    DrivenAs(d, pat.pis, st, name);
  }

  // The launch shift: one cycle more with scan enable on, each chain fed its head bit.
  ghost function LaunchState(d: Design, pat: Pattern, st: State, heads: map<nat, bool>): State
  {
    Clocked(d, NoFault, CycleInputs(d, pat.pis, true, (c: nat) => c in heads && heads[c]), st)
  }

  lemma LaunchShifts(d: Design, pat: Pattern, st: State, heads: map<nat, bool>, c: nat)
    requires Threaded(d) && c < |d.chains|
    ensures Reg(LaunchState(d, pat, st, heads), d.chains[c]) == Shift(Reg(st, d.chains[c]), c in heads && heads[c])
  {
    hide Threaded;
    var env := CycleInputs(d, pat.pis, true, (e: nat) => e in heads && heads[e]);
    assert env(d.sePort, 0);
    EvalCycle(d, NoFault, env, st, c);
    CycleFeeds(d, pat.pis, true, (e: nat) => e in heads && heads[e], c);
    EmittedFree(d.g, st, d.chains[c]);
  }

  /** The launch shift brings every flop of the netlist, from whatever state the
      load began in, to its value in the launch-on-shift capture vector. */
  lemma LaunchedValue(d: Design, v: Vector, heads: map<nat, bool>, capture: Vector, entries: seq<Entry>,
                      lengths: map<nat, nat>, sp: ScanPattern, pat: Pattern, st0: State, c: nat, p: nat)
    requires Threaded(d) && Serialized(d, v, entries, lengths, sp, pat)
    requires LosVector(entries, v, heads, capture, |entries|)
    requires c < |d.chains| && p < |d.chains[c].cells|
    ensures var inst := d.chains[c].cells[p];
            && Made(Ppi, inst) in capture
            && LaunchState(d, pat, LoadState(d, pat, st0, pat.n), heads)(inst) == capture[Made(Ppi, inst)]
  {
    hide Threaded, Placed, PaddedLoad, PaddedUnload, ShiftAll, LoadState, LaunchState, Apart, UnloadsOf, LosVector, LosBit, Shift;
    var ch, st := d.chains[c], LoadState(d, pat, st0, pat.n);
    assert Filled(entries, c, p);
    var i: int :| Sits(entries, i, c, p);
    assert Listed(d, entries[i]);
    LosAt(entries, v, heads, capture, i);
    LoadReaches(d, pat, st0, pat.n, c);
    assert pat.load[c][..pat.n] == pat.load[c];
    PlacedAt(entries, v, LoadBit, i);
    LaunchShifts(d, pat, st, heads, c);
    LosShift(v, heads, entries, capture, pat.n, Reg(st0, ch), i);
    ShiftAllAppend(Reg(st0, ch), pat.load[c], [c in heads && heads[c]]);
    ShiftOne(Reg(st, ch), c in heads && heads[c]);
    RegAt(LaunchState(d, pat, st, heads), ch, p);
  }

  // A vector materialized on the reduced view: its pseudo-outputs are what the view shows.
  ghost predicate Materialized(s: Setup, m: Module, v: Vector, shown: Valuation)
  {
    forall inst :: inst in s.order ==> Shown(m, shown, Made(Ppo, inst)) == [Get(v, Made(Ppo, inst))]
  }

  /** The fault-free netlist, from any state, unloads exactly the serialized
      expected bits of a vector materialized on the reduced view. */
  lemma ExpectedUnloadSeen(d: Design, s: Setup, f: Finish, v: Vector, entries: seq<Entry>, lengths: map<nat, nat>,
                           sp: ScanPattern, pat: Pattern, st0: State, shown: Valuation, c: nat, k: nat)
    requires SameDesign(d, s, f) && Serialized(d, v, entries, lengths, sp, pat)
    requires var st := LoadState(d, pat, st0, pat.n);
             Settled(d.lib, ReducedView(s, f), NoFault, ViewInputs(d, pat.pis, st), st, shown)
    requires Materialized(s, ReducedView(s, f), v, shown)
    requires c < |d.chains| && k < pat.n
    ensures d.chains[c].scanOut in d.g.ports && c in sp.unload && k < |sp.unload[c]|
    ensures ScanOutShows(d, NoFault, pat, LoadState(d, pat, st0, pat.n), c, k) == [sp.unload[c][k]]
  {
    hide Threaded, Placed, PaddedLoad, ShiftAll, LoadState, Apart, LoadsOf, ReducedView, Settled, SameDesign;
    hide Unload, UnloadStuck, UnloadState, ScanOutShows, Lists, StuckPos;
    DesignThreaded(d, s, f);
    var ch, st := d.chains[c], LoadState(d, pat, st0, pat.n);
    var reg := Reg(UnloadState(d, NoFault, pat, st, 0), ch);
    UnloadShowsCapture(d, NoFault, pat, st, c, k);
    CleanPos(d.g, ch);
    UnstuckUnload(reg, |ch.cells|, false, pat.n);
    CapturedBits(d, s, f, v, entries, pat, st, shown, c);
    ChainPlaced(d, v, entries, c);
    SerializedUnload(v, entries, pat.n, reg, c);
  }

  lemma ChainPlaced(d: Design, v: Vector, entries: seq<Entry>, c: nat)
    requires Threaded(d) && Lists(d, entries) && c < |d.chains|
    ensures Apart(entries) && c in Placed(entries, v, UnloadBit)
    ensures forall p :: 0 <= p < |d.chains[c].cells| ==> Filled(entries, c, p)
  {
    hide Placed;
    assert ChainThreaded(d.g, d.chains[c], d.se, d.sePort);
    assert Filled(entries, c, 0);
    var i: int :| Sits(entries, i, c, 0);
    PlacedAt(entries, v, UnloadBit, i);
  }

  // The flops of a chain capture the vector's pseudo-output values.
  lemma CapturedBits(d: Design, s: Setup, f: Finish, v: Vector, entries: seq<Entry>, pat: Pattern,
                     st: State, shown: Valuation, c: nat)
    requires SameDesign(d, s, f) && Lists(d, entries) && c < |d.chains|
    requires Settled(d.lib, ReducedView(s, f), NoFault, ViewInputs(d, pat.pis, st), st, shown)
    requires Materialized(s, ReducedView(s, f), v, shown)
    ensures var reg := Reg(UnloadState(d, NoFault, pat, st, 0), d.chains[c]);
            forall i, p :: Sits(entries, i, c, p) ==> p < |reg| && reg[p] == UnloadBit(v, entries[i])
  {
    hide ReducedView, Settled, SameDesign, UnloadState, Shown, Apart, Filled;
    var m, ch := ReducedView(s, f), d.chains[c];
    DesignThreaded(d, s, f);
    NoFaultStays(s, |s.order|);
    PairShows(d, s, f, NoFault, pat, st, shown, shown);
    forall i, p | Sits(entries, i, c, p)
      ensures p < |ch.cells| && Reg(UnloadState(d, NoFault, pat, st, 0), ch)[p] == UnloadBit(v, entries[i])
    {
      assert Listed(d, entries[i]);
      var inst := ch.cells[p];
      assert InChain(d.chains, inst, c, p);
      assert [UnloadState(d, NoFault, pat, st, 0)(inst)][0] == [Get(v, Made(Ppo, inst))][0];
      RegAt(UnloadState(d, NoFault, pat, st, 0), ch, p);
    }
  }
}
