/** From a reduced-view vector to the bits a tester shifts
    (faultflow/scan/protocol.py serialize_vector), and the launch-on-shift
    capture vector (faultflow/scan/detection_pipeline.py). */
module Serialize {
  import opened Netlist
  import opened ShiftRegister

  // Where a flop's pseudo-ports sit in the chains.
  datatype Entry = Entry(ppi: Name, ppo: Option<Name>, chain: nat, pos: nat)

  datatype ScanPattern = ScanPattern(load: map<nat, seq<bool>>, unload: map<nat, seq<bool>>, pis: map<Name, bool>)

  type Vector = map<Name, bool>
  type Grid = map<nat, map<nat, bool>>     // chain -> position -> bit

  function Get(v: Vector, name: Name): bool { name in v && v[name] }

  function LoadBit(v: Vector, e: Entry): bool { Get(v, e.ppi) }

  // A flop without a pseudo-output holds its loaded value.
  function UnloadBit(v: Vector, e: Entry): bool { if e.ppo.Some? then Get(v, e.ppo.value) else Get(v, e.ppi) }

  function Put(g: Grid, c: nat, p: nat, b: bool): Grid
  {
    g[c := (if c in g then g[c] else map[])[p := b]]
  }

  // The grid after the first entries, a later entry overwriting an earlier one.
  function Placed(entries: seq<Entry>, v: Vector, bit: (Vector, Entry) -> bool): Grid
  {
    if entries == [] then map[]
    else
      var n := |entries| - 1;
      Put(Placed(entries[..n], v, bit), entries[n].chain, entries[n].pos, bit(v, entries[n]))
  }

  // No two flops share a place.
  ghost predicate Apart(entries: seq<Entry>)
  {
    forall i, j :: 0 <= i < j < |entries| ==> !(entries[i].chain == entries[j].chain && entries[i].pos == entries[j].pos)
  }

  lemma {:induction false} PlacedAt(entries: seq<Entry>, v: Vector, bit: (Vector, Entry) -> bool, i: nat)
    requires Apart(entries) && i < |entries|
    ensures var g, e := Placed(entries, v, bit), entries[i];
            e.chain in g && e.pos in g[e.chain] && g[e.chain][e.pos] == bit(v, e)
  {
    var n := |entries| - 1;
    if i < n {
      PlacedAt(entries[..n], v, bit, i);
      assert entries[..n][i] == entries[i];
    }
  }

  lemma {:induction false} PlacedOnly(entries: seq<Entry>, v: Vector, bit: (Vector, Entry) -> bool, c: nat)
    requires c in Placed(entries, v, bit)
    ensures exists i :: 0 <= i < |entries| && entries[i].chain == c
    ensures forall p :: p in Placed(entries, v, bit)[c] ==> exists i :: 0 <= i < |entries| && entries[i].chain == c && entries[i].pos == p
  {
    var n := |entries| - 1;
    var before := Placed(entries[..n], v, bit);
    if c in before {
      PlacedOnly(entries[..n], v, bit, c);
      forall p | p in before[c] ensures exists i :: 0 <= i < |entries| && entries[i].chain == c && entries[i].pos == p {
        var i :| 0 <= i < |entries[..n]| && entries[..n][i].chain == c && entries[..n][i].pos == p;
        assert entries[i] == entries[..n][i];
      }
      var i :| 0 <= i < |entries[..n]| && entries[..n][i].chain == c;
      assert entries[i].chain == c;
    } else {
      assert entries[n].chain == c;
    }
  }

  function LengthOf(lengths: map<nat, nat>, c: nat, targets: map<nat, bool>): nat
  {
    if c in lengths then lengths[c] else |targets|
  }

  // Padding comes before a load and after an unload.
  function PaddedLoad(t: map<nat, bool>, length: nat, total: nat): (r: seq<bool>)
    requires length <= total
    ensures |r| == total
  {
    Zeros(total - length) + Descending(t, length)
  }

  function PaddedUnload(t: map<nat, bool>, length: nat, total: nat): (r: seq<bool>)
    requires length <= total
    ensures |r| == total
  {
    Descending(t, length) + Zeros(total - length)
  }

  // No chain is longer than the shift count; one without a recorded length is as
  // long as it has flops.
  ghost predicate AllFit(g: Grid, lengths: map<nat, nat>, total: int)
  {
    forall c :: c in g ==> (if c in lengths then lengths[c] else |g[c]|) <= total
  }

  // Each chain's bits to shift in, and to expect back.
  ghost predicate LoadsOf(bits: map<nat, seq<bool>>, g: Grid, lengths: map<nat, nat>, total: int)
  {
    AllFit(g, lengths, total) && bits.Keys == g.Keys
    && forall c :: c in g ==> bits[c] == PaddedLoad(g[c], LengthOf(lengths, c, g[c]), total)
  }

  ghost predicate UnloadsOf(bits: map<nat, seq<bool>>, g: Grid, lengths: map<nat, nat>, total: int)
  {
    AllFit(g, lengths, total) && bits.Keys == g.Keys
    && forall c :: c in g ==> bits[c] == PaddedUnload(g[c], LengthOf(lengths, c, g[c]), total)
  }

  function Padded(t: map<nat, bool>, length: nat, total: nat, load: bool): (r: seq<bool>)
    requires length <= total
  {
    if load then PaddedLoad(t, length, total) else PaddedUnload(t, length, total)
  }

  lemma AllFitIs(g: Grid, lengths: map<nat, nat>, total: int)
    ensures AllFit(g, lengths, total) <==> forall c :: c in g ==> LengthOf(lengths, c, g[c]) <= total
  {}

  method Pad(g: Grid, lengths: map<nat, nat>, total: int, load: bool) returns (r: Option<map<nat, seq<bool>>>)
    ensures r.Some? <==> AllFit(g, lengths, total)
    ensures r.Some? ==> r.value.Keys == g.Keys
    ensures r.Some? ==> forall c :: c in g ==> LengthOf(lengths, c, g[c]) <= total && r.value[c] == Padded(g[c], LengthOf(lengths, c, g[c]), total, load)
  {
    AllFitIs(g, lengths, total);
    hide Padded, AllFit, LengthOf;
    var out: map<nat, seq<bool>> := map[];
    var todo := g.Keys;
    while todo != {}
      invariant todo <= g.Keys && out.Keys == g.Keys - todo
      invariant forall c :: c in out ==> LengthOf(lengths, c, g[c]) <= total && out[c] == Padded(g[c], LengthOf(lengths, c, g[c]), total, load)
    {
      var c :| c in todo;
      var length := LengthOf(lengths, c, g[c]);
      if total - length < 0 {
        return None;
      }
      out := out[c := Padded(g[c], length, total, load)];
      todo := todo - {c};
    }
    r := Some(out);
  }

  predicate Pseudo(name: Name) { name.Made? && (name.tag.Ppi? || name.tag.Ppo?) }

  // A primary input: no flop's pseudo-input and no flop's pseudo-output.
  ghost predicate Primary(name: Name) { forall x :: name != Made(Ppi, x) && name != Made(Ppo, x) }

  lemma PseudoIs(name: Name)
    ensures Pseudo(name) <==> !Primary(name)
  {
    if Pseudo(name) {
      assert name == Made(Ppi, name.base) || name == Made(Ppo, name.base);
    }
  }

  // The primary inputs of a vector, with their values and nothing else.
  ghost predicate InputsOf(pis: map<Name, bool>, v: Vector)
  {
    forall name :: (name in pis <==> name in v && Primary(name)) && (name in pis ==> pis[name] == v[name])
  }

  method SerializeVector(v: Vector, entries: seq<Entry>, lengths: map<nat, nat>, total: int)
    returns (r: Option<ScanPattern>)
    ensures r.Some? <==> AllFit(Placed(entries, v, LoadBit), lengths, total)
                         && AllFit(Placed(entries, v, UnloadBit), lengths, total)
    ensures r.Some? ==> LoadsOf(r.value.load, Placed(entries, v, LoadBit), lengths, total)
    ensures r.Some? ==> UnloadsOf(r.value.unload, Placed(entries, v, UnloadBit), lengths, total)
    ensures r.Some? ==> InputsOf(r.value.pis, v)
  {
    var loads: Grid, unloads: Grid := map[], map[];
    for i := 0 to |entries|
      invariant loads == Placed(entries[..i], v, LoadBit) && unloads == Placed(entries[..i], v, UnloadBit)
    {
      var e := entries[i];
      assert entries[..i + 1][..i] == entries[..i];
      loads := Put(loads, e.chain, e.pos, Get(v, e.ppi));
      var bit := if e.ppo.Some? then Get(v, e.ppo.value) else Get(v, e.ppi);
      unloads := Put(unloads, e.chain, e.pos, bit);
    }
    assert entries[..|entries|] == entries;
    var load := Pad(loads, lengths, total, true);
    if load.None? {
      return None;
    }
    var unload := Pad(unloads, lengths, total, false);
    if unload.None? {
      return None;
    }
    var pis := map name | name in v && !Pseudo(name) :: v[name];
    assert InputsOf(pis, v) by { InputsAre(v); }
    r := Some(ScanPattern(load.value, unload.value, pis));
  }

  lemma InputsAre(v: Vector)
    ensures InputsOf(map name | name in v && !Pseudo(name) :: v[name], v)
  {
    forall name ensures Pseudo(name) <==> !Primary(name) {
      PseudoIs(name);
    }
    hide Primary, Pseudo;
  }

  /* ---- what the bits do ---- */

  /** From any state a padded load leaves the target at every position. */
  lemma LoadLeavesTarget(reg: seq<bool>, t: map<nat, bool>, total: nat, p: nat)
    requires p < |reg| <= total
    ensures ShiftAll(reg, PaddedLoad(t, |reg|, total))[p] == (p in t && t[p])
  {
    var bits := PaddedLoad(t, |reg|, total);
    ShiftedIn(reg, bits, p);
    assert bits[total - 1 - p] == Descending(t, |reg|)[|reg| - 1 - p];
  }

  /** Unloading a register that holds the targets, feeding zeros, observes exactly
      the expected bits, padding included. */
  lemma UnloadObservesTarget(reg: seq<bool>, t: map<nat, bool>, total: nat)
    requires |reg| <= total
    requires forall p :: 0 <= p < |reg| ==> reg[p] == (p in t && t[p])
    ensures Unload(reg, total) == PaddedUnload(t, |reg|, total)
  {
    var bits := PaddedUnload(t, |reg|, total);
    forall k | 0 <= k < total ensures Unload(reg, total)[k] == bits[k] {
      UnloadShows(reg, total, k);
    }
  }

  // Every flop's own bit, and nothing else, decides what its chain holds.
  lemma SerializedLoad(v: Vector, entries: seq<Entry>, lengths: map<nat, nat>, total: nat, reg: seq<bool>, i: nat)
    requires Apart(entries) && i < |entries| && entries[i].pos < |reg| <= total
    requires var t := Placed(entries, v, LoadBit); entries[i].chain in t && LengthOf(lengths, entries[i].chain, t[entries[i].chain]) == |reg|
    ensures var t := Placed(entries, v, LoadBit)[entries[i].chain];
            ShiftAll(reg, PaddedLoad(t, |reg|, total))[entries[i].pos] == Get(v, entries[i].ppi)
  {
    var e := entries[i];
    PlacedAt(entries, v, LoadBit, i);
    LoadLeavesTarget(reg, Placed(entries, v, LoadBit)[e.chain], total, e.pos);
  }

  // The flop listed at index i sits at that place.
  predicate Sits(entries: seq<Entry>, i: int, c: nat, p: int)
  {
    0 <= i < |entries| && entries[i].chain == c && entries[i].pos == p
  }

  ghost predicate Filled(entries: seq<Entry>, c: nat, p: int)
  {
    exists i: int :: Sits(entries, i, c, p)
  }

  // A chain whose flops hold their captured values unloads as expected.
  lemma SerializedUnload(v: Vector, entries: seq<Entry>, total: nat, reg: seq<bool>, c: nat)
    requires Apart(entries) && |reg| <= total && c in Placed(entries, v, UnloadBit)
    requires forall i, p :: Sits(entries, i, c, p) ==> p < |reg| && reg[p] == UnloadBit(v, entries[i])
    requires forall p :: 0 <= p < |reg| ==> Filled(entries, c, p)
    ensures Unload(reg, total) == PaddedUnload(Placed(entries, v, UnloadBit)[c], |reg|, total)
  {
    var t := Placed(entries, v, UnloadBit)[c];
    forall p | 0 <= p < |reg| ensures reg[p] == (p in t && t[p]) {
      assert Filled(entries, c, p);
      var i: int :| Sits(entries, i, c, p);
      PlacedAt(entries, v, UnloadBit, i);
    }
    UnloadObservesTarget(reg, t, total);
  }

  /** A flop without a pseudo-output is expected to unload the value it was loaded
      with; any other, its pseudo-output's. */
  lemma ExpectedAt(v: Vector, entries: seq<Entry>, lengths: map<nat, nat>, total: nat, unload: map<nat, seq<bool>>, i: nat)
    requires Apart(entries) && i < |entries| && UnloadsOf(unload, Placed(entries, v, UnloadBit), lengths, total)
    requires entries[i].chain in lengths && entries[i].pos < lengths[entries[i].chain]
    ensures var e := entries[i];
            && e.chain in unload && lengths[e.chain] <= |unload[e.chain]| == total
            && unload[e.chain][lengths[e.chain] - 1 - e.pos] == match e.ppo { case Some(name) => name in v && v[name] case None => e.ppi in v && v[e.ppi] }
  {
    var e := entries[i];
    PlacedAt(entries, v, UnloadBit, i);
    hide Placed;
  }

  /* ---- launch on shift ---- */

  // Every flop but a chain's first has a predecessor.
  ghost predicate Contiguous(entries: seq<Entry>)
  {
    forall i :: 0 <= i < |entries| && entries[i].pos > 0 ==> Filled(entries, entries[i].chain, entries[i].pos - 1)
  }

  ghost predicate PortsDiffer(entries: seq<Entry>)
  {
    forall i, j :: 0 <= i < j < |entries| ==> entries[i].ppi != entries[j].ppi
  }

  // The capture value of one flop: its predecessor's launch value, or the fresh
  // scan-in bit at the head of the chain.
  ghost predicate LosBit(entries: seq<Entry>, launch: Vector, heads: map<nat, bool>, e: Entry, b: bool)
  {
    if e.pos == 0 then b == (e.chain in heads && heads[e.chain])
    else exists j: int :: Sits(entries, j, e.chain, e.pos - 1) && b == Get(launch, entries[j].ppi)
  }

  ghost predicate LosVector(entries: seq<Entry>, launch: Vector, heads: map<nat, bool>, capture: Vector, n: nat)
    requires n <= |entries|
  {
    (forall i :: 0 <= i < n ==> entries[i].ppi in capture && LosBit(entries, launch, heads, entries[i], capture[entries[i].ppi]))
    && (forall name :: name in launch && Primary(name) ==> name in capture && capture[name] == launch[name])
  }

  // The vector has the flops' ports and the primary inputs, and no other name.
  ghost predicate LosOnly(entries: seq<Entry>, launch: Vector, capture: Vector, n: nat)
    requires n <= |entries|
  {
    forall name :: name in capture ==> (name in launch && Primary(name)) || exists i :: 0 <= i < n && entries[i].ppi == name
  }

  lemma OnlyStep(entries: seq<Entry>, launch: Vector, capture: Vector, i: nat, b: bool)
    requires i < |entries| && LosOnly(entries, launch, capture, i)
    ensures LosOnly(entries, launch, capture[entries[i].ppi := b], i + 1)
  {
    hide Primary;
  }

  // Which listed flop sits at a place; a later one replaces an earlier one.
  method IndexPlaces(entries: seq<Entry>) returns (at: map<(nat, nat), int>)
    ensures forall k :: k in at ==> Sits(entries, at[k], k.0, k.1)
    ensures forall i :: 0 <= i < |entries| ==> (entries[i].chain, entries[i].pos) in at
  {
    at := map[];
    for i := 0 to |entries|
      invariant forall k :: k in at ==> Sits(entries, at[k], k.0, k.1)
      invariant forall j :: 0 <= j < i ==> (entries[j].chain, entries[j].pos) in at
    {
      at := at[(entries[i].chain, entries[i].pos) := i];
    }
  }

  lemma LosStep(entries: seq<Entry>, launch: Vector, heads: map<nat, bool>, capture: Vector, i: nat, b: bool)
    requires i < |entries| && LosVector(entries, launch, heads, capture, i)
    requires PortsDiffer(entries) && !Primary(entries[i].ppi)
    requires LosBit(entries, launch, heads, entries[i], b)
    ensures LosVector(entries, launch, heads, capture[entries[i].ppi := b], i + 1)
  {
    hide LosBit, Sits;
  }

  method DeriveLosCapture(launch: Vector, heads: map<nat, bool>, entries: seq<Entry>) returns (r: Option<Vector>)
    requires PortsDiffer(entries)
    requires forall i :: 0 <= i < |entries| ==> !Primary(entries[i].ppi)
    ensures r.Some? <==> Contiguous(entries)
    ensures r.Some? ==> LosVector(entries, launch, heads, r.value, |entries|)
    ensures r.Some? ==> LosOnly(entries, launch, r.value, |entries|)
  {
    hide LosBit, LosVector, PortsDiffer, Pseudo;
    var capture := map name | name in launch && !Pseudo(name) :: launch[name];
    assert LosVector(entries, launch, heads, capture, 0) by { LosStart(entries, launch, heads); }
    assert LosOnly(entries, launch, capture, 0) by { InputsAre(launch); }
    hide LosOnly;
    var at := IndexPlaces(entries);
    for i := 0 to |entries|
      invariant LosVector(entries, launch, heads, capture, i)
      invariant LosOnly(entries, launch, capture, i)
      invariant forall j :: 0 <= j < i && entries[j].pos > 0 ==> Filled(entries, entries[j].chain, entries[j].pos - 1)
    {
      var e := entries[i];
      var b: bool;
      if e.pos == 0 {
        b := e.chain in heads && heads[e.chain];
        assert LosBit(entries, launch, heads, e, b) by { LosHead(entries, launch, heads, e); }
      } else if (e.chain, e.pos - 1) in at {
        var j := at[(e.chain, e.pos - 1)];
        b := Get(launch, entries[j].ppi);
        assert LosBit(entries, launch, heads, e, b) by { LosLater(entries, launch, heads, e, j); }
      } else {
        assert !Filled(entries, e.chain, e.pos - 1);
        return None;
      }
      LosStep(entries, launch, heads, capture, i, b);
      OnlyStep(entries, launch, capture, i, b);
      capture := capture[e.ppi := b];
    }
    r := Some(capture);
  }

  lemma LosStart(entries: seq<Entry>, launch: Vector, heads: map<nat, bool>)
    ensures LosVector(entries, launch, heads, map name | name in launch && !Pseudo(name) :: launch[name], 0)
  {
    InputsAre(launch);
    hide Pseudo, Primary;
  }

  lemma LosHead(entries: seq<Entry>, launch: Vector, heads: map<nat, bool>, e: Entry)
    requires e.pos == 0
    ensures LosBit(entries, launch, heads, e, e.chain in heads && heads[e.chain])
  {}

  lemma LosLater(entries: seq<Entry>, launch: Vector, heads: map<nat, bool>, e: Entry, j: int)
    requires e.pos > 0 && Sits(entries, j, e.chain, e.pos - 1)
    ensures LosBit(entries, launch, heads, e, Get(launch, entries[j].ppi))
  {}

  // Which of the loaded or the head bits ends up at a place after one more shift.
  lemma OneMoreShift(reg: seq<bool>, t: map<nat, bool>, total: nat, head: bool, p: nat)
    requires p < |reg| <= total
    ensures ShiftAll(reg, PaddedLoad(t, |reg|, total) + [head])[p] == if p == 0 then head else p - 1 in t && t[p - 1]
  {
    var bits := PaddedLoad(t, |reg|, total);
    ShiftedIn(reg, bits + [head], p);
    if p > 0 {
      LoadLeavesTarget(reg, t, total, p - 1);
      ShiftedIn(reg, bits, p - 1);
    }
  }

  lemma LosAt(entries: seq<Entry>, launch: Vector, heads: map<nat, bool>, capture: Vector, i: nat)
    requires i < |entries| && LosVector(entries, launch, heads, capture, |entries|)
    ensures entries[i].ppi in capture && LosBit(entries, launch, heads, entries[i], capture[entries[i].ppi])
  {
    hide LosBit;
  }

  // A capture value is the grid's bit one place earlier.
  lemma LosFromGrid(launch: Vector, heads: map<nat, bool>, entries: seq<Entry>, capture: Vector, i: nat)
    requires Apart(entries) && i < |entries| && entries[i].pos > 0
    requires LosVector(entries, launch, heads, capture, |entries|)
    ensures var e, t := entries[i], Placed(entries, launch, LoadBit);
            e.chain in t && e.pos - 1 in t[e.chain] && t[e.chain][e.pos - 1] == capture[e.ppi]
  {
    var e := entries[i];
    LosAt(entries, launch, heads, capture, i);
    hide Placed, Apart, LosVector;
    var j: int :| Sits(entries, j, e.chain, e.pos - 1) && capture[e.ppi] == Get(launch, entries[j].ppi);
    PlacedAt(entries, launch, LoadBit, j);
  }

  lemma HeadIs(entries: seq<Entry>, launch: Vector, heads: map<nat, bool>, e: Entry, b: bool)
    requires LosBit(entries, launch, heads, e, b)
    ensures e.pos == 0 ==> b == (e.chain in heads && heads[e.chain])
  {}

  /** One shift more than the load, with the head bit at scan-in, leaves every
      flop at its launch-on-shift capture value. */
  lemma LosShift(launch: Vector, heads: map<nat, bool>, entries: seq<Entry>, capture: Vector, total: nat, reg: seq<bool>, i: nat)
    requires Apart(entries) && i < |entries| && entries[i].pos < |reg| <= total
    requires LosVector(entries, launch, heads, capture, |entries|)
    ensures entries[i].chain in Placed(entries, launch, LoadBit)
    ensures var e := entries[i];
            var bits := PaddedLoad(Placed(entries, launch, LoadBit)[e.chain], |reg|, total);
            ShiftAll(reg, bits + [e.chain in heads && heads[e.chain]])[e.pos] == capture[e.ppi]
  {
    hide *;
    var e := entries[i];
    LosAt(entries, launch, heads, capture, i);
    PlacedAt(entries, launch, LoadBit, i);
    HeadIs(entries, launch, heads, e, capture[e.ppi]);
    OneMoreShift(reg, Placed(entries, launch, LoadBit)[e.chain], total, e.chain in heads && heads[e.chain], e.pos);
    if e.pos > 0 {
      LosFromGrid(launch, heads, entries, capture, i);
    }
  }

  /* ---- the couples the solver is given ---- */

  // Flop i is a head, or coupled to the flop before it.
  ghost predicate Tied(entries: seq<Entry>, i: int, heads: seq<Name>, couples: seq<(Name, Name)>)
  {
    0 <= i < |entries|
    && if entries[i].pos == 0 then entries[i].ppi in heads else exists k :: 0 <= k < |couples| && Couples(entries, i, couples[k])
  }

  lemma TiedMore(entries: seq<Entry>, i: int, heads: seq<Name>, couples: seq<(Name, Name)>, head: seq<Name>, couple: seq<(Name, Name)>)
    requires Tied(entries, i, heads, couples)
    ensures Tied(entries, i, heads + head, couples + couple)
  {
    hide Couples;
    if entries[i].pos > 0 {
      var k :| 0 <= k < |couples| && Couples(entries, i, couples[k]);
      assert (couples + couple)[k] == couples[k];
    }
  }

  lemma TiedNow(entries: seq<Entry>, i: int, heads: seq<Name>, couples: seq<(Name, Name)>, pair: (Name, Name))
    requires Couples(entries, i, pair)
    ensures Tied(entries, i, heads, couples + [pair])
  {
    hide Couples;
    assert entries[i].pos > 0 by { CoupledPast(entries, i, pair); }
    assert (couples + [pair])[|couples|] == pair;
  }

  lemma CoupledPast(entries: seq<Entry>, i: int, pair: (Name, Name))
    requires Couples(entries, i, pair)
    ensures 0 <= i < |entries| && entries[i].pos > 0
  {}

  // Flop i heads its chain and has this port.
  ghost predicate Heads(entries: seq<Entry>, i: int, c: nat, name: Name)
  {
    0 <= i < |entries| && entries[i].pos == 0 && entries[i].chain == c && entries[i].ppi == name
  }

  ghost predicate SomeCouple(entries: seq<Entry>, pair: (Name, Name)) { exists i :: Couples(entries, i, pair) }

  ghost predicate SomeHead(entries: seq<Entry>, name: Name) { exists i, c :: Heads(entries, i, c, name) }

  // Every couple and every head is a listed flop's.
  ghost predicate OfFlops(entries: seq<Entry>, couples: seq<(Name, Name)>, heads: seq<Name>)
  {
    && (forall k :: 0 <= k < |couples| ==> SomeCouple(entries, couples[k]))
    && (forall k :: 0 <= k < |heads| ==> SomeHead(entries, heads[k]))
  }

  // The head port recorded for each chain.
  ghost predicate HeadPorts(entries: seq<Entry>, headOf: map<nat, Name>, n: int)
  {
    && (forall c :: c in headOf ==> exists i :: Heads(entries, i, c, headOf[c]))
    && (forall i :: 0 <= i < n && i < |entries| && entries[i].pos == 0 ==> entries[i].chain in headOf)
  }

  // What the couples say of the flops: none is missing, none is invented, one each.
  ghost predicate LosCouples(entries: seq<Entry>, couples: seq<(Name, Name)>, heads: seq<Name>, headOf: map<nat, Name>)
  {
    && (forall i :: 0 <= i < |entries| ==> Tied(entries, i, heads, couples))
    && OfFlops(entries, couples, heads) && |couples| + |heads| == |entries|
    && HeadPorts(entries, headOf, |entries|)
  }

  lemma NewCouple(entries: seq<Entry>, couples: seq<(Name, Name)>, heads: seq<Name>, i: int, pair: (Name, Name))
    requires OfFlops(entries, couples, heads) && Couples(entries, i, pair)
    ensures OfFlops(entries, couples + [pair], heads)
  {
    assert SomeCouple(entries, pair);
    hide SomeCouple, SomeHead;
  }

  lemma NewHead(entries: seq<Entry>, couples: seq<(Name, Name)>, heads: seq<Name>, headOf: map<nat, Name>, i: nat)
    requires i < |entries| && entries[i].pos == 0
    requires OfFlops(entries, couples, heads) && HeadPorts(entries, headOf, i)
    ensures OfFlops(entries, couples, heads + [entries[i].ppi])
    ensures HeadPorts(entries, headOf[entries[i].chain := entries[i].ppi], i + 1)
  {
    assert Heads(entries, i, entries[i].chain, entries[i].ppi);
    assert SomeHead(entries, entries[i].ppi);
    hide SomeCouple, SomeHead, Heads;
  }

  // Capture port and predecessor port of every flop past a chain's head; heads apart.
  method BuildLosCouples(entries: seq<Entry>)
    returns (r: Option<seq<(Name, Name)>>, heads: seq<Name>, headOf: map<nat, Name>)
    ensures r.Some? <==> Contiguous(entries)
    ensures r.Some? ==> LosCouples(entries, r.value, heads, headOf)
  {
    hide Couples, Tied, Sits, OfFlops, HeadPorts;
    var couples: seq<(Name, Name)> := [];
    heads, headOf := [], map[];
    assert OfFlops(entries, couples, heads) && HeadPorts(entries, headOf, 0) by { NoneYet(entries); }
    var at := IndexPlaces(entries);
    for i := 0 to |entries|
      invariant forall j :: 0 <= j < i && entries[j].pos > 0 ==> Filled(entries, entries[j].chain, entries[j].pos - 1)
      invariant forall j :: 0 <= j < i ==> Tied(entries, j, heads, couples)
      invariant OfFlops(entries, couples, heads) && |couples| + |heads| == i && HeadPorts(entries, headOf, i)
    {
      var e := entries[i];
      var head, couple: seq<(Name, Name)> := [], [];
      if e.pos == 0 {
        head := [e.ppi];
        NewHead(entries, couples, heads, headOf, i);
        headOf := headOf[e.chain := e.ppi];
        assert Tied(entries, i, heads + head, couples + couple) by { HeadTied(entries, i, heads, couples); }
        assert couples + couple == couples;
      } else if (e.chain, e.pos - 1) in at {
        var j := at[(e.chain, e.pos - 1)];
        assert 0 <= j < |entries| by { SitsInside(entries, j, e.chain, e.pos - 1); }
        couple := [(e.ppi, entries[j].ppi)];
        CoupleAt(entries, i, j);
        assert heads + head == heads;
        TiedNow(entries, i, heads, couples, (e.ppi, entries[j].ppi));
        NewCouple(entries, couples, heads, i, (e.ppi, entries[j].ppi));
        NoHead(entries, headOf, i);
      } else {
        NotFilled(entries, at, e.chain, e.pos - 1);
        return None, [], map[];
      }
      forall j | 0 <= j < i ensures Tied(entries, j, heads + head, couples + couple) {
        TiedMore(entries, j, heads, couples, head, couple);
      }
      heads, couples := heads + head, couples + couple;
    }
    r := Some(couples);
  }

  lemma NoneYet(entries: seq<Entry>)
    ensures OfFlops(entries, [], []) && HeadPorts(entries, map[], 0)
  {}

  lemma NoHead(entries: seq<Entry>, headOf: map<nat, Name>, i: nat)
    requires i < |entries| && entries[i].pos > 0 && HeadPorts(entries, headOf, i)
    ensures HeadPorts(entries, headOf, i + 1)
  {
    hide Heads;
  }

  lemma HeadTied(entries: seq<Entry>, i: int, heads: seq<Name>, couples: seq<(Name, Name)>)
    requires 0 <= i < |entries| && entries[i].pos == 0
    ensures Tied(entries, i, heads + [entries[i].ppi], couples + [])
  {
    assert (heads + [entries[i].ppi])[|heads|] == entries[i].ppi;
  }

  lemma SitsInside(entries: seq<Entry>, j: int, c: nat, p: int)
    requires Sits(entries, j, c, p)
    ensures 0 <= j < |entries|
  {}

  lemma NotFilled(entries: seq<Entry>, at: map<(nat, nat), int>, c: nat, p: nat)
    requires forall i :: 0 <= i < |entries| ==> (entries[i].chain, entries[i].pos) in at
    requires (c, p) !in at
    ensures !Filled(entries, c, p)
  {}

  // A couple ties flop i's capture port to the port of the flop before it.
  ghost predicate Couples(entries: seq<Entry>, i: int, pair: (Name, Name))
  {
    0 <= i < |entries| && entries[i].pos > 0 && pair.0 == entries[i].ppi
    && exists j: int :: Sits(entries, j, entries[i].chain, entries[i].pos - 1) && pair.1 == entries[j].ppi
  }

  lemma CoupleAt(entries: seq<Entry>, i: int, j: int)
    requires 0 <= i < |entries| && entries[i].pos > 0 && Sits(entries, j, entries[i].chain, entries[i].pos - 1)
    ensures Couples(entries, i, (entries[i].ppi, entries[j].ppi))
  {}

  // Every coupled port takes its predecessor's launch value.
  ghost predicate Meets(couples: seq<(Name, Name)>, launch: Vector, capture: Vector)
  {
    forall k :: 0 <= k < |couples| ==> Get(capture, couples[k].0) == Get(launch, couples[k].1)
  }

  // A value for every flop, and the real inputs held.
  ghost predicate Spans(entries: seq<Entry>, launch: Vector, capture: Vector)
  {
    && (forall i :: 0 <= i < |entries| ==> entries[i].ppi in capture)
    && (forall name :: name in launch && Primary(name) ==> name in capture && capture[name] == launch[name])
  }

  // The scan-in bits read back from the capture vector, one for each chain.
  function HeadBits(headOf: map<nat, Name>, capture: Vector): map<nat, bool>
  {
    map c | c in headOf :: Get(capture, headOf[c])
  }

  lemma SamePlace(entries: seq<Entry>, c: nat, p: int, i: int, j: int)
    requires Apart(entries) && Sits(entries, i, c, p) && Sits(entries, j, c, p)
    ensures i == j
  {}

  lemma HeadsSit(entries: seq<Entry>, i: int, c: nat, name: Name)
    requires Heads(entries, i, c, name)
    ensures Sits(entries, i, c, 0) && entries[i].ppi == name
  {}

  lemma HeadBit(entries: seq<Entry>, launch: Vector, headOf: map<nat, Name>, capture: Vector, i: nat)
    requires Apart(entries) && HeadPorts(entries, headOf, |entries|)
    requires i < |entries| && entries[i].pos == 0 && entries[i].ppi in capture
    ensures LosBit(entries, launch, HeadBits(headOf, capture), entries[i], capture[entries[i].ppi])
  {
    hide Apart, Heads;
    var e := entries[i];
    var j: int :| Heads(entries, j, e.chain, headOf[e.chain]);
    HeadsSit(entries, j, e.chain, headOf[e.chain]);
    SamePlace(entries, e.chain, 0, i, j);
  }

  lemma CoupledBit(entries: seq<Entry>, launch: Vector, heads: map<nat, bool>, capture: Vector, i: int, pair: (Name, Name))
    requires Apart(entries) && Couples(entries, i, pair) && pair.0 in capture
    ensures LosBit(entries, launch, heads, entries[i], capture[pair.0]) <==> capture[pair.0] == Get(launch, pair.1)
  {
    hide Apart;
    var e := entries[i];
    var j: int :| Sits(entries, j, e.chain, e.pos - 1) && pair.1 == entries[j].ppi;
    forall k: int | Sits(entries, k, e.chain, e.pos - 1) ensures entries[k].ppi == entries[j].ppi {
      SamePlace(entries, e.chain, e.pos - 1, k, j);
    }
  }

  lemma CouplesReach(entries: seq<Entry>, couples: seq<(Name, Name)>, heads: seq<Name>, headOf: map<nat, Name>,
                     launch: Vector, capture: Vector, i: nat)
    requires Apart(entries) && LosCouples(entries, couples, heads, headOf) && i < |entries|
    requires Meets(couples, launch, capture) && entries[i].ppi in capture
    ensures LosBit(entries, launch, HeadBits(headOf, capture), entries[i], capture[entries[i].ppi])
  {
    hide Apart, HeadPorts, LosBit, OfFlops, HeadBits, Sits;
    if entries[i].pos == 0 {
      HeadBit(entries, launch, headOf, capture, i);
    } else {
      assert Tied(entries, i, heads, couples);
      var k :| 0 <= k < |couples| && Couples(entries, i, couples[k]);
      CoupledBit(entries, launch, HeadBits(headOf, capture), capture, i, couples[k]);
    }
  }

  /** Imposing the couples is imposing the shift: a capture vector meets them all,
      with the real inputs held, exactly when it is the launch-on-shift vector for
      the head bits read back from it. */
  lemma CouplesExact(entries: seq<Entry>, couples: seq<(Name, Name)>, heads: seq<Name>, headOf: map<nat, Name>,
                     launch: Vector, capture: Vector)
    requires Apart(entries) && LosCouples(entries, couples, heads, headOf)
    ensures Meets(couples, launch, capture) && Spans(entries, launch, capture)
            <==> LosVector(entries, launch, HeadBits(headOf, capture), capture, |entries|)
  {
    hide Apart, HeadPorts, LosBit, HeadBits, Primary, Tied, Heads;
    var bits := HeadBits(headOf, capture);
    if Meets(couples, launch, capture) && Spans(entries, launch, capture) {
      forall i | 0 <= i < |entries| ensures LosBit(entries, launch, bits, entries[i], capture[entries[i].ppi]) {
        CouplesReach(entries, couples, heads, headOf, launch, capture, i);
      }
    }
    if LosVector(entries, launch, bits, capture, |entries|) {
      forall k | 0 <= k < |couples| ensures Get(capture, couples[k].0) == Get(launch, couples[k].1) {
        assert SomeCouple(entries, couples[k]);
        var i :| Couples(entries, i, couples[k]);
        LosAt(entries, launch, bits, capture, i);
        CoupledBit(entries, launch, bits, capture, i, couples[k]);
      }
    }
  }
}
