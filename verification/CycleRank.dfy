/** What a clean feedback check (faultflow/rule_check/rules.py) is worth: the
    acyclic rank every netlist theorem here starts from. */
module CycleRank {
  import opened Netlist
  import opened NetlistEval
  import opened CombCycle

  /* ---- a rank exists exactly when there is no loop ---- */

  // Cell inst takes net a to net b with no clock edge in between.
  ghost predicate LeadsBy(m: Module, inst: Name, a: nat, b: nat)
  {
    inst in m.cells && FollowsNet(m.cells[inst], a) && OutNet(m.cells[inst], b)
  }

  ghost predicate OutNet(c: Cell, n: nat)
  {
    exists p :: p in c.conns && p in c.outs && Net(n) in c.conns[p]
  }

  ghost predicate Leads(m: Module, a: nat, b: nat) { exists inst :: LeadsBy(m, inst, a, b) }

  lemma RankedIs(m: Module, rank: nat -> nat)
    ensures Ranked(m, rank) <==> forall a, b :: Leads(m, a, b) ==> rank(a) < rank(b)
  {
    hide FollowsNet;
    if Ranked(m, rank) {
      forall a, b | Leads(m, a, b) ensures rank(a) < rank(b) {
        var inst :| LeadsBy(m, inst, a, b);
        var c := m.cells[inst];
        var p :| p in c.conns && p in c.outs && Net(b) in c.conns[p];
        var i :| 0 <= i < |c.conns[p]| && c.conns[p][i] == Net(b);
      }
    }
    if forall a, b :: Leads(m, a, b) ==> rank(a) < rank(b) {
      forall inst, p, i, k | inst in m.cells && p in m.cells[inst].conns && p in m.cells[inst].outs
                             && 0 <= i < |m.cells[inst].conns[p]| && m.cells[inst].conns[p][i].Net?
                             && FollowsNet(m.cells[inst], k)
        ensures rank(k) < rank(m.cells[inst].conns[p][i].id)
      {
        var b := m.cells[inst].conns[p][i].id;
        assert OutNet(m.cells[inst], b);
        assert LeadsBy(m, inst, k, b) && Leads(m, k, b);
      }
    }
  }

  ghost predicate Walk(m: Module, c: seq<nat>, a: nat, b: nat)
  {
    |c| >= 2 && c[0] == a && c[|c| - 1] == b && forall i :: 0 <= i < |c| - 1 ==> Leads(m, c[i], c[i + 1])
  }

  ghost predicate Reaches(m: Module, a: nat, b: nat) { exists c :: Walk(m, c, a, b) }

  // A path that comes back to where it began.
  ghost predicate Loops(m: Module) { exists a: nat :: Reaches(m, a, a) }

  // Every net a cell touches.
  ghost function CellNets(m: Module): set<nat>
  {
    set inst, p, i | inst in m.cells && p in m.cells[inst].conns && 0 <= i < |m.cells[inst].conns[p]| && m.cells[inst].conns[p][i].Net?
      :: m.cells[inst].conns[p][i].id
  }

  ghost function Upstream(m: Module, n: nat): set<nat>
  {
    set a | a in CellNets(m) && Reaches(m, a, n)
  }

  lemma LeadsInside(m: Module, a: nat, b: nat)
    requires Leads(m, a, b)
    ensures a in CellNets(m)
  {
    var inst :| LeadsBy(m, inst, a, b);
    var c := m.cells[inst];
    var p :| p in c.conns && Follows(c, p) && Net(a) in c.conns[p];
    var i :| 0 <= i < |c.conns[p]| && c.conns[p][i] == Net(a);
  }

  lemma StepReaches(m: Module, a: nat, b: nat)
    requires Leads(m, a, b)
    ensures Reaches(m, a, b)
  {
    hide Leads;
    assert Walk(m, [a, b], a, b);
  }

  lemma ReachesOn(m: Module, x: nat, a: nat, b: nat)
    requires Reaches(m, x, a) && Leads(m, a, b)
    ensures Reaches(m, x, b)
  {
    hide Leads;
    var c :| Walk(m, c, x, a);
    var d := c + [b];
    forall i | 0 <= i < |d| - 1 ensures Leads(m, d[i], d[i + 1]) {
      if i < |c| - 1 {
        assert d[i] == c[i] && d[i + 1] == c[i + 1];
      }
    }
    assert Walk(m, d, x, b);
  }

  // What is upstream of a net is strictly less than what is upstream of the next one.
  lemma UpstreamGrows(m: Module, a: nat, b: nat)
    requires Leads(m, a, b) && !Loops(m)
    ensures |Upstream(m, a)| < |Upstream(m, b)|
  {
    hide Leads, CellNets;
    assert a in CellNets(m) by { LeadsInside(m, a, b); }
    StepReaches(m, a, b);
    hide Reaches;
    assert a in Upstream(m, b) && a !in Upstream(m, a);
    forall x | x in Upstream(m, a) ensures x in Upstream(m, b) {
      ReachesOn(m, x, a, b);
    }
    Fewer(Upstream(m, a), Upstream(m, b), a);
  }

  lemma Fewer(s: set<nat>, t: set<nat>, x: nat)
    requires s <= t && x in t && x !in s
    ensures |s| < |t|
  {
    assert s + (t - s) == t && x in t - s;
  }

  lemma {:induction false} RankRises(m: Module, rank: nat -> nat, c: seq<nat>, a: nat, b: nat)
    requires (forall x, y :: Leads(m, x, y) ==> rank(x) < rank(y)) && Walk(m, c, a, b)
    ensures rank(a) < rank(b)
    decreases |c|
  {
    hide Leads;
    var n := |c| - 1;
    assert Leads(m, c[n - 1], c[n]);
    if n > 1 {
      assert Walk(m, c[..n], a, c[n - 1]);
      RankRises(m, rank, c[..n], a, c[n - 1]);
    }
  }

  /** A netlist has a rank exactly when no path through its logic, async controls
      included, comes back to where it began. */
  lemma RankExact(m: Module)
    ensures (exists rank :: Ranked(m, rank)) <==> !Loops(m)
  {
    hide Leads, Ranked, Reaches;
    if rank :| Ranked(m, rank) {
      RankedIs(m, rank);
      forall a: nat ensures !Reaches(m, a, a) {
        NotAround(m, rank, a);
      }
    }
    if !Loops(m) {
      var rank := (n: nat) => |Upstream(m, n)|;
      forall a: nat, b: nat | Leads(m, a, b) ensures rank(a) < rank(b) {
        UpstreamGrows(m, a, b);
      }
      RankedIs(m, rank);
      assert Ranked(m, rank);
    }
  }

  lemma NotAround(m: Module, rank: nat -> nat, a: nat)
    requires forall x, y :: Leads(m, x, y) ==> rank(x) < rank(y)
    ensures !Reaches(m, a, a)
  {
    hide Leads;
    if c :| Walk(m, c, a, a) {
      RankRises(m, rank, c, a, a);
    }
  }

  /* ---- what the check sees ---- */

  // A plain wrapper cell is a gate in the cell map, a shiftable one a flop.
  predicate Gate(k: Kind)
  {
    match k
    case Flop(_, _) => false
    case Scan(_) => false
    case WbcIn(scan) => !scan
    case WbcOut(scan) => !scan
    case _ => true
  }

  // The pins the cell map lists as inputs.
  predicate InputPin(c: Cell, p: Pin) { p !in c.outs && (c.kind.WbcIn? || c.kind.WbcOut? ==> c.kind.scan || p == From) }

  // The check reads the single-bit pins.
  ghost predicate InFact(c: Cell, n: nat) { exists p :: p in c.conns && InputPin(c, p) && c.conns[p] == [Net(n)] }

  ghost predicate OutFact(c: Cell, n: nat) { exists p :: p in c.conns && p in c.outs && c.conns[p] == [Net(n)] }

  ghost predicate FactOf(c: Cell, f: CellFacts)
  {
    && f.isFf == !Gate(c.kind)
    && (forall n :: n in f.inputs <==> InFact(c, n)) && (forall n :: n in f.outputs <==> OutFact(c, n))
  }

  method PinFacts(c: Cell) returns (f: CellFacts)
    ensures FactOf(c, f)
  {
    var pins, ins, outs := c.conns.Keys, [], [];
    while pins != {}
      invariant pins <= c.conns.Keys
      invariant forall n :: n in ins <==> exists p :: p in c.conns && p !in pins && InputPin(c, p) && c.conns[p] == [Net(n)]
      invariant forall n :: n in outs <==> exists p :: p in c.conns && p !in pins && p in c.outs && c.conns[p] == [Net(n)]
    {
      var p :| p in pins;
      var bits := c.conns[p];
      if |bits| == 1 && bits[0].Net? {
        assert bits == [Net(bits[0].id)];
        if p in c.outs {
          outs := outs + [bits[0].id];
        } else if InputPin(c, p) {
          ins := ins + [bits[0].id];
        }
      }
      pins := pins - {p};
    }
    f := CellFacts(!Gate(c.kind), ins, outs);
  }

  ghost predicate Stated(c: Cell, cells: seq<CellFacts>) { exists i :: 0 <= i < |cells| && FactOf(c, cells[i]) }

  ghost predicate Backed(m: Module, f: CellFacts) { exists inst :: inst in m.cells && FactOf(m.cells[inst], f) }

  // Every cell has its fact, every fact its cell.
  ghost predicate FactsOf(m: Module, cells: seq<CellFacts>)
  {
    && (forall inst :: inst in m.cells ==> Stated(m.cells[inst], cells))
    && (forall i :: 0 <= i < |cells| ==> Backed(m, cells[i]))
  }

  lemma StatedMore(c: Cell, cells: seq<CellFacts>, f: CellFacts)
    ensures Stated(c, cells) || FactOf(c, f) ==> Stated(c, cells + [f])
  {
    hide FactOf;
    var more := cells + [f];
    if i :| 0 <= i < |cells| && FactOf(c, cells[i]) {
      assert more[i] == cells[i];
    }
    if FactOf(c, f) {
      assert more[|cells|] == f;
    }
  }

  method BuildFacts(m: Module) returns (cells: seq<CellFacts>)
    ensures FactsOf(m, cells)
  {
    hide FactOf, Stated, Backed;
    cells := [];
    var left := m.cells.Keys;
    while left != {}
      invariant left <= m.cells.Keys
      invariant forall inst :: inst in m.cells && inst !in left ==> Stated(m.cells[inst], cells)
      invariant forall i :: 0 <= i < |cells| ==> Backed(m, cells[i])
    {
      var inst :| inst in left;
      var f := PinFacts(m.cells[inst]);
      assert Backed(m, f) by { IsBacked(m, inst, f); }
      forall other | other in m.cells && (other !in left || other == inst) ensures Stated(m.cells[other], cells + [f]) {
        StatedMore(m.cells[other], cells, f);
      }
      cells := cells + [f];
      left := left - {inst};
    }
  }

  lemma IsBacked(m: Module, inst: Name, f: CellFacts)
    requires inst in m.cells && FactOf(m.cells[inst], f)
    ensures Backed(m, f)
  {}

  ghost predicate SinglePins(c: Cell) { forall p :: p in c.conns ==> |c.conns[p]| <= 1 }

  lemma GateFacts(c: Cell, f: CellFacts, a: nat, b: nat)
    requires FactOf(c, f)
    ensures !f.isFf && a in f.inputs && b in f.outputs ==> FollowsNet(c, a) && OutNet(c, b)
    ensures Gate(c.kind) && SinglePins(c) && FollowsNet(c, a) && OutNet(c, b) ==> !f.isFf && a in f.inputs && b in f.outputs
  {
    if !f.isFf && a in f.inputs && b in f.outputs {
      var p :| p in c.conns && InputPin(c, p) && c.conns[p] == [Net(a)];
      assert Follows(c, p) && Net(a) in c.conns[p];
      var q :| q in c.conns && q in c.outs && c.conns[q] == [Net(b)];
      assert Net(b) in c.conns[q];
    }
    if Gate(c.kind) && SinglePins(c) && FollowsNet(c, a) && OutNet(c, b) {
      var p :| p in c.conns && Follows(c, p) && Net(a) in c.conns[p];
      assert c.conns[p] == [Net(a)];
      var q :| q in c.conns && q in c.outs && Net(b) in c.conns[q];
      assert c.conns[q] == [Net(b)];
    }
  }

  lemma DependsLeads(m: Module, cells: seq<CellFacts>, a: nat, b: nat)
    requires FactsOf(m, cells) && Depends(cells, a, b)
    ensures Leads(m, a, b)
  {
    hide FactOf, FollowsNet, OutNet, Stated;
    var i :| Reads(cells, a, b, i);
    assert Backed(m, cells[i]);
    var inst :| inst in m.cells && FactOf(m.cells[inst], cells[i]);
    GateFacts(m.cells[inst], cells[i], a, b);
    assert LeadsBy(m, inst, a, b);
  }

  lemma GateDepends(m: Module, cells: seq<CellFacts>, inst: Name, a: nat, b: nat)
    requires FactsOf(m, cells) && LeadsBy(m, inst, a, b) && Gate(m.cells[inst].kind) && SinglePins(m.cells[inst])
    ensures Depends(cells, a, b)
  {
    hide FactOf, FollowsNet, OutNet, SinglePins, Backed;
    assert Stated(m.cells[inst], cells);
    var i :| 0 <= i < |cells| && FactOf(m.cells[inst], cells[i]);
    GateFacts(m.cells[inst], cells[i], a, b);
    assert Reads(cells, a, b, i);
  }

  lemma Joined(m: Module, a: nat, b: nat, c: nat)
    requires Reaches(m, a, b) && Reaches(m, b, c)
    ensures Reaches(m, a, c)
  {
    hide Leads;
    var u :| Walk(m, u, a, b);
    var w :| Walk(m, w, b, c);
    var d := u + w[1..];
    forall i | 0 <= i < |d| - 1 ensures Leads(m, d[i], d[i + 1]) {
      if i < |u| - 1 {
        assert d[i] == u[i] && d[i + 1] == u[i + 1];
      } else {
        var k := i - |u| + 1;
        assert d[i] == w[k] && d[i + 1] == w[k + 1];
      }
    }
    assert Walk(m, d, a, c);
  }

  lemma Part(m: Module, c: seq<nat>, a: nat, b: nat, i: nat, j: nat)
    requires Walk(m, c, a, b) && i < j < |c|
    ensures Reaches(m, c[i], c[j])
  {
    hide Leads;
    var d := c[i..j + 1];
    forall k | 0 <= k < |d| - 1 ensures Leads(m, d[k], d[k + 1]) {
      assert d[k] == c[i + k] && d[k + 1] == c[i + k + 1];
    }
    assert Walk(m, d, c[i], c[j]);
  }

  // Every step of a loop leads back to where it starts.
  lemma Around(m: Module, c: seq<nat>, a: nat, i: nat)
    requires Walk(m, c, a, a) && i < |c| - 1
    ensures c[i] == c[i + 1] || Reaches(m, c[i + 1], c[i])
  {
    hide Reaches, Leads;
    var n := |c| - 1;
    if i + 1 < n {
      Part(m, c, a, a, i + 1, n);
    }
    if 0 < i {
      Part(m, c, a, a, 0, i);
    }
    if 0 < i && i + 1 < n {
      Joined(m, c[i + 1], a, c[i]);
    }
  }

  // A step that the check does not see and that its own end leads back to.
  ghost predicate UnseenStep(m: Module, cells: seq<CellFacts>, a: nat, b: nat)
  {
    Leads(m, a, b) && !Depends(cells, a, b) && (a == b || Reaches(m, b, a))
  }

  lemma StepLoops(m: Module, a: nat, b: nat)
    requires Leads(m, a, b) && (a == b || Reaches(m, b, a))
    ensures Loops(m)
  {
    hide Leads;
    if a == b {
      StepReaches(m, a, b);
    } else {
      ReachesOn(m, b, a, b);
    }
  }

  // A loop has an unseen step, or is feedback that the check's graph has.
  lemma LoopSeen(m: Module, cells: seq<CellFacts>)
    requires FactsOf(m, cells) && Loops(m)
    ensures (exists a, b :: UnseenStep(m, cells, a, b)) || exists c :: Feedback(cells, c)
  {
    hide FactsOf, Depends, Leads;
    var a: nat :| Reaches(m, a, a);
    var c :| Walk(m, c, a, a);
    if i :| 0 <= i < |c| - 1 && !Depends(cells, c[i], c[i + 1]) {
      Around(m, c, a, i);
      assert UnseenStep(m, cells, c[i], c[i + 1]);
    } else {
      assert Feedback(cells, c);
    }
  }

  lemma FeedbackLoops(m: Module, cells: seq<CellFacts>, c: seq<nat>)
    requires FactsOf(m, cells) && Feedback(cells, c)
    ensures Loops(m)
  {
    hide FactsOf, Depends, Leads;
    forall i | 0 <= i < |c| - 1 ensures Leads(m, c[i], c[i + 1]) {
      DependsLeads(m, cells, c[i], c[i + 1]);
    }
    assert Walk(m, c, c[0], c[0]);
    assert Reaches(m, c[0], c[0]);
  }

  /** A netlist has a rank exactly when the check reports it clean, no cell reads its
      own output, and no step the check does not see is led back to by its end. */
  lemma CheckExact(m: Module, cells: seq<CellFacts>)
    requires FactsOf(m, cells)
    ensures (exists rank :: Ranked(m, rank)) <==>
              (forall c :: !NetCycle(cells, c)) && (forall a: nat :: !Depends(cells, a, a)) && forall a, b :: !UnseenStep(m, cells, a, b)
  {
    hide FactsOf, Ranked, NetCycle, Depends, Loops, Feedback, Leads, Reaches;
    RankExact(m);
    FeedbackIs(cells);
    if Loops(m) {
      LoopSeen(m, cells);
    }
    if c :| Feedback(cells, c) {
      FeedbackLoops(m, cells, c);
    }
    if a, b :| UnseenStep(m, cells, a, b) {
      StepLoops(m, a, b);
    }
  }

  // The output of a flop or a shiftable wrapper cell leads back to a net it follows.
  ghost predicate StateLoop(m: Module, inst: Name, a: nat, b: nat)
  {
    LeadsBy(m, inst, a, b) && !Gate(m.cells[inst].kind) && (a == b || Reaches(m, b, a))
  }

  /** Where gates have single-bit pins: exactly when the report is clean, no gate reads
      its own output, and no flop's control and no shiftable wrapper cell's input is
      led to by that cell's own output. */
  lemma GateCheckExact(m: Module, cells: seq<CellFacts>)
    requires FactsOf(m, cells) && forall inst :: inst in m.cells && Gate(m.cells[inst].kind) ==> SinglePins(m.cells[inst])
    ensures (exists rank :: Ranked(m, rank)) <==>
              (forall c :: !NetCycle(cells, c)) && (forall a: nat :: !Depends(cells, a, a)) && forall inst, a, b :: !StateLoop(m, inst, a, b)
  {
    hide FactsOf, Ranked, NetCycle, Depends, Loops, Reaches, SinglePins, FollowsNet, OutNet;
    RankExact(m);
    CheckExact(m, cells);
    if a, b :| UnseenStep(m, cells, a, b) {
      var inst :| LeadsBy(m, inst, a, b);
      if Gate(m.cells[inst].kind) {
        GateDepends(m, cells, inst, a, b);
      }
      assert StateLoop(m, inst, a, b);
    }
    if inst, a, b :| StateLoop(m, inst, a, b) {
      assert Leads(m, a, b);
      StepLoops(m, a, b);
    }
  }

  // A one-cell netlist whose output is on the net it follows has no rank.
  lemma NoRank(inst: Name, c: Cell)
    requires FollowsNet(c, 0) && OutNet(c, 0)
    ensures forall rank :: !Ranked(Module(map[], map[inst := c]), rank)
  {
    var m := Module(map[], map[inst := c]);
    hide FollowsNet, OutNet;
    assert LeadsBy(m, inst, 0, 0) && Leads(m, 0, 0);
    forall rank: nat -> nat ensures !Ranked(m, rank) {
      RankedIs(m, rank);
    }
  }

  // And the check's one fact about a flop reports nothing.
  lemma StateUnseen(inst: Name, c: Cell)
    requires !Gate(c.kind) && (forall n: nat :: InFact(c, n) <==> n == 0) && forall n: nat :: OutFact(c, n) <==> n == 0
    ensures FactsOf(Module(map[], map[inst := c]), [CellFacts(true, [0], [0])]) && forall w :: !NetCycle([CellFacts(true, [0], [0])], w)
  {
    var m, cells := Module(map[], map[inst := c]), [CellFacts(true, [0], [0])];
    hide InFact, OutFact, Gate;
    assert FactOf(m.cells[inst], cells[0]);
    forall w ensures !NetCycle(cells, w) {
      assert |w| >= 2 ==> !Depends(cells, w[0], w[1]);
    }
  }

  /** A flop reset by its own output loops through its async control. The check
      skips flops and reports nothing, yet the netlist has no rank. */
  lemma ResetLoopMissed(inst: Name)
    ensures var c := Cell(Flop(Reset, NoEnable), {Q}, map[Q := [Net(0)], CTRL := [Net(0)], D := [Lit(true)]]);
            var m, cells := Module(map[], map[inst := c]), [CellFacts(true, [0], [0])];
            FactsOf(m, cells) && (forall w :: !NetCycle(cells, w)) && forall rank :: !Ranked(m, rank)
  {
    var c := Cell(Flop(Reset, NoEnable), {Q}, map[Q := [Net(0)], CTRL := [Net(0)], D := [Lit(true)]]);
    assert InputPin(c, CTRL) && Follows(c, CTRL) && c.conns[CTRL] == [Net(0)] && Net(0) in c.conns[CTRL];
    assert c.conns[Q] == [Net(0)] && Net(0) in c.conns[Q];
    assert InFact(c, 0) && OutFact(c, 0) && FollowsNet(c, 0) && OutNet(c, 0);
    NoRank(inst, c);
    StateUnseen(inst, c);
  }

  /** A shiftable wrapper cell is transparent from system to core but a flop in the
      cell map: fed from its own output, it is a loop the check does not report. */
  lemma WrapperLoopMissed(inst: Name)
    ensures var c := Cell(WbcIn(true), {To, CTO}, map[From := [Net(0)], To := [Net(0)]]);
            var m, cells := Module(map[], map[inst := c]), [CellFacts(true, [0], [0])];
            FactsOf(m, cells) && (forall w :: !NetCycle(cells, w)) && forall rank :: !Ranked(m, rank)
  {
    var c := Cell(WbcIn(true), {To, CTO}, map[From := [Net(0)], To := [Net(0)]]);
    assert InputPin(c, From) && Follows(c, From) && c.conns[From] == [Net(0)] && Net(0) in c.conns[From];
    assert c.conns[To] == [Net(0)] && Net(0) in c.conns[To];
    assert InFact(c, 0) && OutFact(c, 0) && FollowsNet(c, 0) && OutNet(c, 0);
    NoRank(inst, c);
    StateUnseen(inst, c);
  }
}
