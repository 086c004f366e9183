/** One test-generation campaign (faultflow/runner/progressive_atpg.py): what a
    SAT round does to the vectors, the fault statuses and the retry bookkeeping. */
module Campaign {

  type Fault = nat
  type Vector = map<string, bool>
  type Key = string

  datatype Verdict = Sat(vector: Vector) | Unsat | Timeout | Unknown

  datatype Outcome = Accepted | NoProgress | TimedOut | Undecided

  datatype Status = Active | Detected(index: nat) | Redundant

  // The solver, the candidate check and the fault simulator, each a function of
  // its arguments; the dedupe key; the timeout schedule; fault dropping on or off.
  datatype World = World(solve: (Fault, set<Key>, nat) -> Verdict, verify: (Fault, Vector) -> bool,
                         detects: (Vector, Fault) -> bool, key: Vector -> Key, tiers: seq<nat>, dropping: bool)

  datatype Stats = Stats(sat: nat, unsat: nat, timeout: nat, unknown: nat, generated: nat, accepted: nat, rejected: nat, stuck: nat)

  datatype State = State(vectors: seq<Vector>, seen: set<Key>, rejected: map<Fault, set<Key>>, timeouts: map<Fault, nat>,
                         status: map<Fault, Status>, remaining: set<Fault>, outcomes: seq<Outcome>, stats: Stats)

  function Blocked(s: State, f: Fault): set<Key> { if f in s.rejected then s.rejected[f] else {} }

  function Tries(s: State, f: Fault): nat { if f in s.timeouts then s.timeouts[f] else 0 }

  // The timeout of the next attempt: one tier up for every time-out so far.
  function Tier(w: World, s: State, f: Fault): nat
    requires w.tiers != []
  {
    w.tiers[if Tries(s, f) < |w.tiers| then Tries(s, f) else |w.tiers| - 1]
  }

  function Ask(w: World, s: State, f: Fault): Verdict
    requires w.tiers != []
  {
    w.solve(f, Blocked(s, f), Tier(w, s, f))
  }

  // The active faults among those given that a vector detects.
  function Newly(w: World, status: map<Fault, Status>, ids: set<Fault>, v: Vector): set<Fault>
  {
    set f | f in ids && f in status && status[f].Active? && w.detects(v, f)
  }

  function Record(status: map<Fault, Status>, newly: set<Fault>, index: nat): map<Fault, Status>
  {
    map f | f in status :: if f in newly then Detected(index) else status[f]
  }

  // Take a verified vector: append it, grade it, drop what it detects.
  function Accept(w: World, s: State, f: Fault, v: Vector): State
  {
    var ids := if w.dropping then s.remaining else {f};
    var newly := Newly(w, s.status, ids, v);
    s.(vectors := s.vectors + [v], seen := s.seen + {w.key(v)},
       status := Record(s.status, newly, |s.vectors| + 1),
       remaining := if w.dropping then s.remaining - newly else s.remaining,
       outcomes := s.outcomes + [Accepted],
       stats := s.stats.(sat := s.stats.sat + 1, generated := s.stats.generated + 1, accepted := s.stats.accepted + 1))
  }

  // A candidate seen before, or one the check turns down, is blocked for this fault.
  function Reject(w: World, s: State, f: Fault, v: Vector, seen: bool): State
  {
    s.(rejected := s.rejected[f := Blocked(s, f) + {w.key(v)}],
       outcomes := s.outcomes + [NoProgress],
       stats := s.stats.(sat := s.stats.sat + 1, generated := s.stats.generated + 1, stuck := s.stats.stuck + 1,
                         rejected := if seen then s.stats.rejected else s.stats.rejected + 1))
  }

  // What a verdict does.
  function Process(w: World, s: State, f: Fault, verdict: Verdict): State
  {
    match verdict
    case Sat(v) =>
      if w.key(v) in s.seen then Reject(w, s, f, v, true)
      else if w.verify(f, v) then Accept(w, s, f, v)
      else Reject(w, s, f, v, false)
    case Unsat =>
      s.(status := s.status[f := Redundant], stats := s.stats.(unsat := s.stats.unsat + 1))
    case Timeout =>
      s.(timeouts := s.timeouts[f := Tries(s, f) + 1], outcomes := s.outcomes + [TimedOut],
         stats := s.stats.(timeout := s.stats.timeout + 1))
    case Unknown =>
      s.(timeouts := s.timeouts[f := Tries(s, f) + 1], outcomes := s.outcomes + [Undecided],
         stats := s.stats.(unknown := s.stats.unknown + 1))
  }

  predicate Skipped(w: World, s: State, f: Fault) { w.dropping && f !in s.remaining }

  // One fault of a serial round: skip it if dropped, else ask and process.
  function Step(w: World, s: State, f: Fault): State
    requires w.tiers != []
  {
    if Skipped(w, s, f) then s else Process(w, s, f, Ask(w, s, f))
  }

  function SerialRound(w: World, s: State, ids: seq<Fault>): State
    requires w.tiers != []
  {
    if ids == [] then s else Step(w, SerialRound(w, s, ids[..|ids| - 1]), ids[|ids| - 1])
  }

  ghost predicate Distinct(ids: seq<Fault>) { forall i, j :: 0 <= i < j < |ids| ==> ids[i] != ids[j] }

  // Processing one fault leaves what the solver is asked about another alone,
  // and only ever drops faults.
  lemma ProcessOthers(w: World, s: State, f: Fault, verdict: Verdict, g: Fault)
    requires f != g && w.tiers != []
    ensures var s' := Process(w, s, f, verdict);
            && Ask(w, s', g) == Ask(w, s, g)
            && s'.remaining <= s.remaining
  {}

  /* ---- what every step keeps ---- */

  // The seen set is the keys of the vectors, and no key comes twice.
  ghost predicate SeenExact(w: World, s: State)
  {
    && (forall k :: k in s.seen <==> exists i :: 0 <= i < |s.vectors| && w.key(s.vectors[i]) == k)
    && (forall i, j :: 0 <= i < j < |s.vectors| ==> w.key(s.vectors[i]) != w.key(s.vectors[j]))
  }

  // A fault detected since the start is detected by the vector at its index.
  ghost predicate Recorded(w: World, s: State, start: map<Fault, Status>)
  {
    && s.status.Keys == start.Keys
    && (forall f :: f in start && !start[f].Active? ==> s.status[f] == start[f])
    && (forall f :: f in start && start[f].Active? && s.status[f].Detected? ==>
          1 <= s.status[f].index <= |s.vectors| && w.detects(s.vectors[s.status[f].index - 1], f))
  }

  // Faults still to be visited are active, unless dropped.
  ghost predicate ToVisit(w: World, s: State, ids: seq<Fault>, n: nat)
  {
    forall i :: n <= i < |ids| && !Skipped(w, s, ids[i]) ==> ids[i] in s.status && s.status[ids[i]].Active?
  }

  lemma SeenPush(w: World, s: State, s': State, v: Vector)
    requires SeenExact(w, s) && w.key(v) !in s.seen && s'.vectors == s.vectors + [v] && s'.seen == s.seen + {w.key(v)}
    ensures SeenExact(w, s')
  {
    forall k ensures k in s'.seen <==> exists i :: 0 <= i < |s'.vectors| && w.key(s'.vectors[i]) == k {
      if k in s.seen {
        var i :| 0 <= i < |s.vectors| && w.key(s.vectors[i]) == k;
        assert s'.vectors[i] == s.vectors[i];
      }
      if k == w.key(v) {
        assert s'.vectors[|s.vectors|] == v;
      }
    }
  }

  lemma RecordPush(w: World, s: State, s': State, start: map<Fault, Status>, ids: set<Fault>, v: Vector)
    requires Recorded(w, s, start) && s'.vectors == s.vectors + [v]
    requires s'.status == Record(s.status, Newly(w, s.status, ids, v), |s.vectors| + 1)
    ensures Recorded(w, s', start)
  {
    assert s'.status.Keys == s.status.Keys;
  }

  // An accepted vector keeps both.
  lemma AcceptKeeps(w: World, s: State, start: map<Fault, Status>, f: Fault, v: Vector)
    requires SeenExact(w, s) && Recorded(w, s, start) && w.key(v) !in s.seen
    ensures SeenExact(w, Accept(w, s, f, v)) && Recorded(w, Accept(w, s, f, v), start)
  {
    SeenPush(w, s, Accept(w, s, f, v), v);
    RecordPush(w, s, Accept(w, s, f, v), start, if w.dropping then s.remaining else {f}, v);
  }

  lemma StepKeeps(w: World, s: State, start: map<Fault, Status>, f: Fault)
    requires w.tiers != [] && SeenExact(w, s) && Recorded(w, s, start)
    requires Skipped(w, s, f) || (f in s.status && s.status[f].Active?)
    ensures SeenExact(w, Step(w, s, f)) && Recorded(w, Step(w, s, f), start)
  {
    if !Skipped(w, s, f) {
      var verdict := Ask(w, s, f);
      if verdict.Sat? && w.key(verdict.vector) !in s.seen && w.verify(f, verdict.vector) {
        AcceptKeeps(w, s, start, f, verdict.vector);
      } else {
        var s' := Step(w, s, f);
        assert s'.vectors == s.vectors && s'.seen == s.seen;
        assert s'.status == s.status || s'.status == s.status[f := Redundant];
        hide Step, Ask;
      }
    }
  }

  lemma StepVisits(w: World, s: State, ids: seq<Fault>, n: nat)
    requires w.tiers != [] && Distinct(ids) && n < |ids| && ToVisit(w, s, ids, n)
    ensures ToVisit(w, Step(w, s, ids[n]), ids, n + 1)
  {
    var f := ids[n];
    var s' := Step(w, s, f);
    if !Skipped(w, s, f) {
      forall i | n + 1 <= i < |ids| && !Skipped(w, s', ids[i]) ensures ids[i] in s'.status && s'.status[ids[i]].Active? {
        assert ids[i] != f;
        ProcessOthers(w, s, f, Ask(w, s, f), ids[i]);
        assert !Skipped(w, s, ids[i]);
      }
    }
  }

  /** Over any prefix of a serial round the seen set stays exact and every
      recorded detection stays true. */
  lemma {:induction false} RoundKeeps(w: World, s: State, start: map<Fault, Status>, ids: seq<Fault>, n: nat)
    requires w.tiers != [] && SeenExact(w, s) && Recorded(w, s, start) && Distinct(ids) && ToVisit(w, s, ids, 0) && n <= |ids|
    ensures var s' := SerialRound(w, s, ids[..n]);
            SeenExact(w, s') && Recorded(w, s', start) && ToVisit(w, s', ids, n)
    decreases n
  {
    if n == 0 {
      assert ids[..0] == [];
    } else {
      hide SeenExact, Recorded, Step;
      assert ids[..n][..n - 1] == ids[..n - 1];
      RoundKeeps(w, s, start, ids, n - 1);
      var before := SerialRound(w, s, ids[..n - 1]);
      assert Skipped(w, before, ids[n - 1]) || (ids[n - 1] in before.status && before.status[ids[n - 1]].Active?);
      StepKeeps(w, before, start, ids[n - 1]);
      StepVisits(w, before, ids, n - 1);
    }
  }
}

/** The key that tells vectors apart (faultflow/runner/progressive_atpg.py). */
module PatternKeys {
  import opened Campaign

  function Value(v: Vector, name: string): bool { name in v && v[name] }

  // The values in input order, then those of any further names, sorted.
  function PatternKey(v: Vector, inputs: seq<string>, sorted: set<string> -> seq<string>): seq<bool>
  {
    var names := inputs + sorted(v.Keys - (set name | name in inputs));
    seq(|names|, i requires 0 <= i < |names| => Value(v, names[i]))
  }

  ghost predicate Lists(sorted: set<string> -> seq<string>) { forall s :: forall name :: name in sorted(s) <==> name in s }

  /** Vectors over the same names get the same key exactly when they agree on every name. */
  lemma KeyTells(v: Vector, u: Vector, inputs: seq<string>, sorted: set<string> -> seq<string>)
    requires Lists(sorted) && v.Keys == u.Keys
    ensures PatternKey(v, inputs, sorted) == PatternKey(u, inputs, sorted) <==> forall name :: name in inputs || name in v ==> Value(v, name) == Value(u, name)
  {
    var extra := v.Keys - (set name | name in inputs);
    var names := inputs + sorted(extra);
    var a, b := PatternKey(v, inputs, sorted), PatternKey(u, inputs, sorted);
    if a == b {
      forall name | name in inputs || name in v ensures Value(v, name) == Value(u, name) {
        assert name in names by { if name !in inputs { assert name in extra; assert name in sorted(extra); } }
        var i :| 0 <= i < |names| && names[i] == name;
        assert a[i] == Value(v, name) && b[i] == Value(u, name);
      }
    } else {
      var i :| 0 <= i < |names| && a[i] != b[i];
      assert names[i] in inputs || names[i] in sorted(extra);
      assert Value(v, names[i]) != Value(u, names[i]);
    }
  }

  /** Vectors over different names can collide. */
  lemma KeysCollide(sorted: set<string> -> seq<string>)
    requires sorted({"a"}) == ["a"] && sorted({"b"}) == ["b"]
    ensures PatternKey(map["a" := true], [], sorted) == PatternKey(map["b" := true], [], sorted)
  {
    var none: seq<string> := [];
    var v: Vector, u: Vector := map["a" := true], map["b" := true];
    assert v.Keys - (set name | name in none) == {"a"} && u.Keys - (set name | name in none) == {"b"};
    assert none + ["a"] == ["a"] && none + ["b"] == ["b"];
    assert PatternKey(v, none, sorted) == [true] && PatternKey(u, none, sorted) == [true];
  }

  /* ---- exactly when a key tells vectors apart ---- */

  // Each set listed without repeats.
  ghost predicate ListsOnce(sorted: set<string> -> seq<string>) { Lists(sorted) && forall s :: |sorted(s)| == |s| }

  function Extra(v: Vector, inputs: seq<string>): set<string> { v.Keys - (set name | name in inputs) }

  ghost predicate Agree(v: Vector, u: Vector, inputs: seq<string>)
  {
    forall name :: name in inputs || name in v || name in u ==> Value(v, name) == Value(u, name)
  }

  // Vectors with these extra names and one key agree on every name.
  ghost predicate KeysTell(inputs: seq<string>, a: set<string>, b: set<string>, sorted: set<string> -> seq<string>)
  {
    forall v: Vector, u: Vector ::
      Extra(v, inputs) == a && Extra(u, inputs) == b && PatternKey(v, inputs, sorted) == PatternKey(u, inputs, sorted) ==> Agree(v, u, inputs)
  }

  lemma SameNamesTell(v: Vector, u: Vector, inputs: seq<string>, sorted: set<string> -> seq<string>)
    requires ListsOnce(sorted) && Extra(v, inputs) == Extra(u, inputs) && PatternKey(v, inputs, sorted) == PatternKey(u, inputs, sorted)
    ensures Agree(v, u, inputs)
  {
    var extra := Extra(v, inputs);
    var names, a, b := inputs + sorted(extra), PatternKey(v, inputs, sorted), PatternKey(u, inputs, sorted);
    forall name | name in inputs || name in v || name in u ensures Value(v, name) == Value(u, name) {
      assert name in names by { if name !in inputs { assert name in extra; assert name in sorted(extra); } }
      var i :| 0 <= i < |names| && names[i] == name;
      assert a[i] == Value(v, name) && b[i] == Value(u, name);
    }
  }

  // The vector with exactly these names, all 1.
  function Ones(names: set<string>): Vector { map name | name in names :: true }

  // The key of such a vector: zeros for the inputs, ones for the rest.
  lemma OnesKey(names: set<string>, inputs: seq<string>, sorted: set<string> -> seq<string>)
    requires ListsOnce(sorted) && forall name :: name in names ==> name !in inputs
    ensures Extra(Ones(names), inputs) == names
    ensures var key := PatternKey(Ones(names), inputs, sorted);
            |key| == |inputs| + |names| && forall i :: 0 <= i < |key| ==> key[i] == (i >= |inputs|)
  {
    var v := Ones(names);
    assert v.Keys - (set name | name in inputs) == names;
    var list, key := inputs + sorted(names), PatternKey(v, inputs, sorted);
    assert |sorted(names)| == |names|;
    forall i | 0 <= i < |key| ensures key[i] == (i >= |inputs|) {
      assert key[i] == Value(v, list[i]);
      OnesAt(names, inputs, sorted, i);
    }
  }

  lemma OnesAt(names: set<string>, inputs: seq<string>, sorted: set<string> -> seq<string>, i: nat)
    requires Lists(sorted) && (forall name :: name in names ==> name !in inputs) && i < |inputs + sorted(names)|
    ensures Value(Ones(names), (inputs + sorted(names))[i]) == (i >= |inputs|)
  {
    var x := (inputs + sorted(names))[i];
    assert if i < |inputs| then x in inputs else x in sorted(names);
  }

  lemma SizesTell(inputs: seq<string>, a: set<string>, b: set<string>, sorted: set<string> -> seq<string>)
    requires ListsOnce(sorted) && |a| != |b|
    ensures KeysTell(inputs, a, b, sorted)
  {
    forall v: Vector, u: Vector | Extra(v, inputs) == a && Extra(u, inputs) == b
      ensures |PatternKey(v, inputs, sorted)| != |PatternKey(u, inputs, sorted)|
    {}
    hide PatternKey, Extra, Agree;
  }

  lemma SameTell(inputs: seq<string>, a: set<string>, sorted: set<string> -> seq<string>)
    requires ListsOnce(sorted)
    ensures KeysTell(inputs, a, a, sorted)
  {
    hide PatternKey, Extra, Agree, ListsOnce;
    forall v: Vector, u: Vector |
      Extra(v, inputs) == a && Extra(u, inputs) == a && PatternKey(v, inputs, sorted) == PatternKey(u, inputs, sorted)
      ensures Agree(v, u, inputs)
    {
      SameNamesTell(v, u, inputs, sorted);
    }
  }

  lemma OthersCollide(inputs: seq<string>, a: set<string>, b: set<string>, sorted: set<string> -> seq<string>)
    requires ListsOnce(sorted) && (forall name :: name in a || name in b ==> name !in inputs) && a != b && |a| == |b|
    ensures !KeysTell(inputs, a, b, sorted)
  {
    hide *;
    OnesDiffer(inputs, a, b);
    OnesKey(a, inputs, sorted);
    OnesKey(b, inputs, sorted);
    assert PatternKey(Ones(a), inputs, sorted) == PatternKey(Ones(b), inputs, sorted);
    TellsNot(inputs, a, b, sorted, Ones(a), Ones(b));
  }

  lemma TellsNot(inputs: seq<string>, a: set<string>, b: set<string>, sorted: set<string> -> seq<string>, v: Vector, u: Vector)
    requires Extra(v, inputs) == a && Extra(u, inputs) == b && PatternKey(v, inputs, sorted) == PatternKey(u, inputs, sorted) && !Agree(v, u, inputs)
    ensures !KeysTell(inputs, a, b, sorted)
  {
    hide Extra, PatternKey, Agree;
  }

  lemma OnesDiffer(inputs: seq<string>, a: set<string>, b: set<string>)
    requires a != b && |a| == |b|
    ensures !Agree(Ones(a), Ones(b), inputs)
  {
    SubsetSame(a, b);
    var x :| x in a && x !in b;
    var v, u := Ones(a), Ones(b);
    assert x in v && Value(v, x) && !Value(u, x);
  }

  lemma SubsetSame(a: set<string>, b: set<string>)
    ensures a <= b && |a| == |b| ==> a == b
  {
    if a <= b {
      assert |b - a| == |b| - |a|;
      assert b == a + (b - a);
    }
  }

  /** Over given extra names, one key means one assignment exactly when the names are
      the same or differ in number. */
  lemma KeyExact(inputs: seq<string>, a: set<string>, b: set<string>, sorted: set<string> -> seq<string>)
    requires ListsOnce(sorted) && forall name :: name in a || name in b ==> name !in inputs
    ensures KeysTell(inputs, a, b, sorted) <==> a == b || |a| != |b|
  {
    hide KeysTell, ListsOnce;
    if a == b {
      SameTell(inputs, a, sorted);
    } else if |a| != |b| {
      SizesTell(inputs, a, b, sorted);
    } else {
      OthersCollide(inputs, a, b, sorted);
    }
  }
}
