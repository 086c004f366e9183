/** The rounds of a campaign (faultflow/runner/progressive_atpg.py): one random
    phase, then SAT rounds until complete, covered, stalled or out of rounds. */
module CampaignRun {
  import N = Netlist
  import opened Campaign
  import opened Waves
  import opened Redundancy
  import ScanPlan

  /* ---- the timeout schedule ---- */

  ghost predicate Increasing(tiers: seq<nat>) { forall i, j :: 0 <= i < j < |tiers| ==> tiers[i] < tiers[j] }

  /** The schedule as given, or an error unless every tier is at least a second and
      longer than the one before; an empty schedule is the fallback alone. */
  method ParseSchedule(tokens: seq<int>, fallback: nat) returns (r: N.Option<seq<nat>>)
    ensures r.Some? <==> (forall i :: 0 <= i < |tokens| ==> tokens[i] >= 1) && (forall i, j :: 0 <= i < j < |tokens| ==> tokens[i] < tokens[j])
    ensures r.Some? ==> r.value != [] && Increasing(r.value)
    ensures r.Some? ==> |r.value| == (if tokens == [] then 1 else |tokens|)
    ensures r.Some? ==> forall i :: 0 <= i < |r.value| ==> r.value[i] == if tokens == [] then fallback else tokens[i]
  {
    if tokens == [] {
      return N.Some([fallback]);
    }
    var tiers: seq<nat> := [];
    for i := 0 to |tokens|
      invariant |tiers| == i && (forall k :: 0 <= k < i ==> tiers[k] == tokens[k] && tokens[k] >= 1) && Increasing(tiers)
    {
      if tokens[i] < 1 {
        return N.None;
      }
      if tiers != [] && tokens[i] <= tiers[|tiers| - 1] {
        assert tokens[i - 1] >= tokens[i];
        return N.None;
      }
      tiers := tiers + [tokens[i]];
    }
    r := N.Some(tiers);
    assert forall i, j :: 0 <= i < j < |tokens| ==> tiers[i] < tiers[j];
  }

  /* ---- statuses only move away from active ---- */

  ghost predicate Grew(a: map<Fault, Status>, b: map<Fault, Status>)
  {
    a.Keys == b.Keys && forall f :: f in a && !a[f].Active? ==> b[f] == a[f]
  }

  function DetectedSet(status: map<Fault, Status>): set<Fault> { set f | f in status && status[f].Detected? }

  function RedundantSet(status: map<Fault, Status>): set<Fault> { set f | f in status && status[f].Redundant? }

  lemma SameSize(a: set<Fault>, b: set<Fault>)
    requires a <= b && |a| == |b|
    ensures a == b
    decreases a
  {
    if a == {} {
      assert b == {};
    } else {
      var x :| x in a;
      SameSize(a - {x}, b - {x});
      assert a == a - {x} + {x} && b == b - {x} + {x};
    }
  }

  // Equal counts mean nothing happened.
  lemma CountsTell(a: map<Fault, Status>, b: map<Fault, Status>)
    requires Grew(a, b) && |DetectedSet(a)| == |DetectedSet(b)| && |RedundantSet(a)| == |RedundantSet(b)|
    ensures a == b
  {
    SameSize(DetectedSet(a), DetectedSet(b));
    SameSize(RedundantSet(a), RedundantSet(b));
    forall f | f in a ensures a[f] == b[f] {
      assert f in DetectedSet(a) <==> f in DetectedSet(b);
      assert f in RedundantSet(a) <==> f in RedundantSet(b);
    }
  }

  lemma StepGrows(w: World, s: State, f: Fault)
    requires w.tiers != [] && (Skipped(w, s, f) || (f in s.status && s.status[f].Active?))
    ensures Grew(s.status, Step(w, s, f).status) && s.outcomes <= Step(w, s, f).outcomes
  {
    if !Skipped(w, s, f) {
      var v := Ask(w, s, f);
      assert Step(w, s, f) == Process(w, s, f, v);
      hide Ask, Step;
      ProcessGrows(w, s, f, v);
    }
  }

  lemma ProcessGrows(w: World, s: State, f: Fault, v: Verdict)
    requires f in s.status && s.status[f].Active?
    ensures Grew(s.status, Process(w, s, f, v).status) && s.outcomes <= Process(w, s, f, v).outcomes
  {
    if v.Sat? && w.key(v.vector) !in s.seen && w.verify(f, v.vector) {
      var ids := if w.dropping then s.remaining else {f};
      RecordGrows(s.status, s.status, Newly(w, s.status, ids, v.vector), |s.vectors| + 1);
      hide Record;
    }
  }

  lemma VisitAt(w: World, s0: State, ids: seq<Fault>, n: nat)
    requires w.tiers != [] && Distinct(ids) && ToVisit(w, s0, ids, 0) && n < |ids|
    ensures var s := SerialRound(w, s0, ids[..n]);
            && (Skipped(w, s, ids[n]) || (ids[n] in s.status && s.status[ids[n]].Active?))
            && SerialRound(w, s0, ids[..n + 1]) == Step(w, s, ids[n])
  {
    hide Step;
    RoundVisits(w, s0, ids, n);
    assert ids[..n + 1][..n] == ids[..n];
  }

  lemma {:induction false} RoundVisits(w: World, s0: State, ids: seq<Fault>, n: nat)
    requires w.tiers != [] && Distinct(ids) && ToVisit(w, s0, ids, 0) && n <= |ids|
    ensures ToVisit(w, SerialRound(w, s0, ids[..n]), ids, n)
    decreases n
  {
    if n == 0 {
      assert ids[..0] == [];
    } else {
      hide Step, ToVisit;
      assert ids[..n][..n - 1] == ids[..n - 1];
      RoundVisits(w, s0, ids, n - 1);
      StepVisits(w, SerialRound(w, s0, ids[..n - 1]), ids, n - 1);
    }
  }

  // From any point of a round to a later one.
  lemma {:induction false} RoundGrows(w: World, s0: State, ids: seq<Fault>, n: nat, m: nat)
    requires w.tiers != [] && Distinct(ids) && ToVisit(w, s0, ids, 0) && n <= m <= |ids|
    ensures var a, b := SerialRound(w, s0, ids[..n]), SerialRound(w, s0, ids[..m]);
            Grew(a.status, b.status) && a.outcomes <= b.outcomes
    decreases m
  {
    hide Step, SerialRound;
    if n < m {
      RoundGrows(w, s0, ids, n, m - 1);
      VisitAt(w, s0, ids, m - 1);
      StepGrows(w, SerialRound(w, s0, ids[..m - 1]), ids[m - 1]);
    }
  }

  /* ---- a round without progress ---- */

  predicate Undecisive(v: Verdict) { v.Timeout? || v.Unknown? }

  predicate Futile(outcomes: seq<Outcome>) { forall i :: 0 <= i < |outcomes| ==> outcomes[i].TimedOut? || outcomes[i].Undecided? }

  // After n faults of a futile round: nothing decided, one more try each.
  ghost predicate QuietTo(w: World, s0: State, ids: seq<Fault>, n: nat)
    requires w.tiers != [] && n <= |ids|
  {
    var s := SerialRound(w, s0, ids[..n]);
    && s.status == s0.status && s.remaining == s0.remaining
    && (forall i :: 0 <= i < n ==> Undecisive(Ask(w, s0, ids[i])) && Tries(s, ids[i]) == Tries(s0, ids[i]) + 1)
    && (forall i :: n <= i < |ids| ==> Ask(w, s, ids[i]) == Ask(w, s0, ids[i]) && Tries(s, ids[i]) == Tries(s0, ids[i]))
  }

  lemma FutileVerdict(w: World, s: State, f: Fault)
    requires w.tiers != [] && !Skipped(w, s, f) && f in s.status && s.status[f].Active?
    requires Futile(Step(w, s, f).outcomes) && Step(w, s, f).status == s.status
    ensures Undecisive(Ask(w, s, f)) && Step(w, s, f).remaining == s.remaining && Tries(Step(w, s, f), f) == Tries(s, f) + 1
  {
    var s', v := Step(w, s, f), Ask(w, s, f);
    assert s' == Process(w, s, f, v);
    assert |s'.outcomes| > |s.outcomes| ==> s'.outcomes[|s.outcomes|].TimedOut? || s'.outcomes[|s.outcomes|].Undecided?;
    hide Ask;
  }

  lemma OthersTries(w: World, s: State, f: Fault, g: Fault)
    requires w.tiers != [] && f != g
    ensures Tries(Step(w, s, f), g) == Tries(s, g) && Ask(w, Step(w, s, f), g) == Ask(w, s, g)
  {
    if !Skipped(w, s, f) {
      ProcessOthers(w, s, f, Ask(w, s, f), g);
    }
  }

  lemma {:induction false} QuietRound(w: World, s0: State, ids: seq<Fault>, n: nat)
    requires w.tiers != [] && Distinct(ids) && ToVisit(w, s0, ids, 0) && n <= |ids|
    requires forall i :: 0 <= i < |ids| ==> !Skipped(w, s0, ids[i])
    requires Futile(SerialRound(w, s0, ids).outcomes) && SerialRound(w, s0, ids).status == s0.status
    ensures QuietTo(w, s0, ids, n)
    decreases n
  {
    hide Step, Ask, Tries, Undecisive;
    if n == 0 {
      assert ids[..0] == [];
    } else {
      QuietRound(w, s0, ids, n - 1);
      var b, f := SerialRound(w, s0, ids[..n - 1]), ids[n - 1];
      VisitAt(w, s0, ids, n - 1);
      RoundGrows(w, s0, ids, n, |ids|);
      assert ids[..|ids|] == ids;
      var s := SerialRound(w, s0, ids[..n]);
      hide SerialRound;
      StepGrows(w, b, f);
      BetweenSame(b.status, s.status, SerialRound(w, s0, ids).status);
      FutileVerdict(w, b, f);
      forall i | 0 <= i < |ids| && i != n - 1 ensures Tries(s, ids[i]) == Tries(b, ids[i]) && Ask(w, s, ids[i]) == Ask(w, b, ids[i]) {
        OthersTries(w, b, f, ids[i]);
      }
    }
  }

  lemma BetweenSame(a: map<Fault, Status>, b: map<Fault, Status>, c: map<Fault, Status>)
    requires Grew(a, b) && Grew(b, c) && a == c
    ensures b == a
  {
    forall f | f in a ensures a[f] == b[f] {
      assert !b[f].Active? ==> c[f] == b[f];
    }
  }

  /* ---- the random phase ---- */

  // A key that was seen before, or comes earlier in the batch.
  ghost predicate KeyTaken(w: World, seen: set<Key>, batch: seq<Vector>, n: int, k: Key)
    requires n <= |batch|
  {
    k in seen || exists i :: 0 <= i < n && w.key(batch[i]) == k
  }

  // The vectors of a batch that bring a new key, each key once, in the batch's order.
  ghost function FirstOnes(w: World, seen: set<Key>, batch: seq<Vector>): (r: seq<Vector>)
  {
    if batch == [] then []
    else
      var n := |batch| - 1;
      FirstOnes(w, seen, batch[..n]) + if KeyTaken(w, seen, batch, n, w.key(batch[n])) then [] else [batch[n]]
  }

  lemma FirstStep(w: World, seen: set<Key>, batch: seq<Vector>, i: nat, now: set<Key>)
    requires i < |batch| && forall k :: k in now <==> KeyTaken(w, seen, batch, i, k)
    ensures FirstOnes(w, seen, batch[..i + 1]) == FirstOnes(w, seen, batch[..i]) + if w.key(batch[i]) in now then [] else [batch[i]]
    ensures forall k :: k in now + {w.key(batch[i])} <==> KeyTaken(w, seen, batch, i + 1, k)
  {
    var all, k := batch[..i + 1], w.key(batch[i]);
    assert all[..i] == batch[..i] && all[i] == batch[i];
    assert KeyTaken(w, seen, all, i, k) <==> KeyTaken(w, seen, batch, i, k) by {
      assert forall j :: 0 <= j < i ==> all[j] == batch[j];
    }
  }

  /** Append the vectors of a batch whose key has not been seen. */
  method AppendUnique(w: World, s: State, batch: seq<Vector>) returns (r: State, added: seq<Vector>)
    requires SeenExact(w, s)
    ensures SeenExact(w, r) && r == s.(vectors := s.vectors + added, seen := r.seen)
    ensures forall i :: 0 <= i < |batch| ==> w.key(batch[i]) in r.seen
    ensures forall v :: v in added ==> v in batch && w.key(v) !in s.seen
    ensures added == FirstOnes(w, s.seen, batch)
  {
    hide SeenExact;
    r, added := s, [];
    assert batch[..0] == [];
    for i := 0 to |batch|
      invariant SeenExact(w, r) && r == s.(vectors := s.vectors + added, seen := r.seen)
      invariant forall k :: k in r.seen <==> KeyTaken(w, s.seen, batch, i, k)
      invariant forall v :: v in added ==> v in batch && w.key(v) !in s.seen
      invariant added == FirstOnes(w, s.seen, batch[..i])
    {
      var key := w.key(batch[i]);
      FirstStep(w, s.seen, batch, i, r.seen);
      hide FirstOnes;
      assert key !in r.seen ==> key !in s.seen;
      hide KeyTaken;
      if key !in r.seen {
        var next := r.(vectors := r.vectors + [batch[i]], seen := r.seen + {key});
        SeenPush(w, r, next, batch[i]);
        added := added + [batch[i]];
        r := next;
        assert r.vectors == s.vectors + added;
      } else {
        assert r.seen + {key} == r.seen;
      }
    }
    assert batch[..|batch|] == batch;
  }

  // The first of n vectors from base that detects the fault decides its status.
  ghost predicate GradedBy(w: World, vectors: seq<Vector>, base: nat, n: nat, f: Fault, a: Status, b: Status)
    requires base + n <= |vectors|
  {
    if b.Active? then a.Active? && forall i :: base <= i < base + n ==> !w.detects(vectors[i], f)
    else if a.Active? then
      && b.Detected? && base < b.index <= base + n && w.detects(vectors[b.index - 1], f)
      && forall i :: base <= i < b.index - 1 ==> !w.detects(vectors[i], f)
    else a == b
  }

  ghost predicate Graded(w: World, vectors: seq<Vector>, base: nat, n: nat, ids: set<Fault>, a: map<Fault, Status>, b: map<Fault, Status>)
    requires base + n <= |vectors|
  {
    && a.Keys == b.Keys
    && forall f :: f in a ==> if f in ids then GradedBy(w, vectors, base, n, f, a[f], b[f]) else a[f] == b[f]
  }

  lemma GradeNext(w: World, vectors: seq<Vector>, base: nat, n: nat, ids: set<Fault>, a: map<Fault, Status>, b: map<Fault, Status>)
    requires base + n < |vectors| && Graded(w, vectors, base, n, ids, a, b)
    ensures Graded(w, vectors, base, n + 1, ids, a, Record(b, Newly(w, b, ids, vectors[base + n]), base + n + 1))
  {}

  // Grading leaves one answer.
  lemma GradedUnique(w: World, vectors: seq<Vector>, base: nat, n: nat, ids: set<Fault>, a: map<Fault, Status>, b: map<Fault, Status>, c: map<Fault, Status>)
    requires base + n <= |vectors| && Graded(w, vectors, base, n, ids, a, b) && Graded(w, vectors, base, n, ids, a, c)
    ensures b == c
  {
    forall f | f in a ensures b[f] == c[f] {
      if f in ids && a[f].Active? && b[f].Detected? && c[f].Detected? {
        assert !(b[f].index < c[f].index) && !(c[f].index < b[f].index) by {
          assert w.detects(vectors[b[f].index - 1], f) && w.detects(vectors[c[f].index - 1], f);
        }
      }
    }
  }

  // None of the first vectors alone reached coverage.
  ghost predicate NotYetAt(w: World, vectors: seq<Vector>, base: nat, n: nat, ids: set<Fault>, a: map<Fault, Status>, stop: map<Fault, Status> -> bool)
    requires base + n <= |vectors|
  {
    forall k, mid :: 0 < k < n && Graded(w, vectors, base, k, ids, a, mid) ==> !stop(mid)
  }

  lemma NotYetMore(w: World, vectors: seq<Vector>, base: nat, n: nat, ids: set<Fault>, a: map<Fault, Status>, b: map<Fault, Status>, stop: map<Fault, Status> -> bool)
    requires base + n < |vectors| && NotYetAt(w, vectors, base, n, ids, a, stop) && Graded(w, vectors, base, n, ids, a, b) && (n > 0 ==> !stop(b))
    ensures NotYetAt(w, vectors, base, n + 1, ids, a, stop)
  {
    hide Graded;
    forall k, mid | 0 < k < n + 1 && Graded(w, vectors, base, k, ids, a, mid) ensures !stop(mid) {
      if k == n {
        GradedUnique(w, vectors, base, n, ids, a, b, mid);
      }
    }
  }

  // Grade the new vectors in order, stopping once coverage is reached.
  method GradeRandom(w: World, s: State, base: nat, ids: set<Fault>, stop: map<Fault, Status> -> bool, ghost start: map<Fault, Status>)
    returns (status: map<Fault, Status>, graded: nat)
    requires base <= |s.vectors| && Recorded(w, s.(vectors := s.vectors[..base]), start)
    ensures graded <= |s.vectors| - base && Grew(s.status, status)
    ensures Graded(w, s.vectors, base, graded, ids, s.status, status)
    ensures base + graded == |s.vectors| || (graded > 0 && stop(status))
    ensures NotYetAt(w, s.vectors, base, graded, ids, s.status, stop)
    ensures Recorded(w, s.(vectors := s.vectors[..base + graded], status := status), start)
  {
    hide Recorded, Record, Grew, GradedBy;
    status, graded := s.status, 0;
    assert Grew(s.status, status) && Graded(w, s.vectors, base, 0, ids, s.status, status) by { GrewSelf(s.status); GradedNone(w, s.vectors, base, ids, s.status); }
    hide Graded, NotYetAt;
    NotYetNone(w, s.vectors, base, ids, s.status, stop);
    assert s.(vectors := s.vectors[..base + 0], status := status) == s.(vectors := s.vectors[..base]);
    while base + graded < |s.vectors|
      invariant graded <= |s.vectors| - base && Grew(s.status, status)
      invariant Graded(w, s.vectors, base, graded, ids, s.status, status)
      invariant Recorded(w, s.(vectors := s.vectors[..base + graded], status := status), start)
      invariant NotYetAt(w, s.vectors, base, graded, ids, s.status, stop) && (graded > 0 ==> !stop(status))
    {
      NotYetMore(w, s.vectors, base, graded, ids, s.status, status, stop);
      var v := s.vectors[base + graded];
      var newly := Newly(w, status, ids, v);
      ghost var before := s.(vectors := s.vectors[..base + graded], status := status);
      ghost var after := s.(vectors := s.vectors[..base + graded + 1], status := Record(status, newly, base + graded + 1));
      RecordPush(w, before, after, start, ids, v);
      RecordGrows(s.status, status, newly, base + graded + 1) by { assert forall f :: f in newly ==> status[f].Active?; }
      GradeNext(w, s.vectors, base, graded, ids, s.status, status);
      status := Record(status, newly, base + graded + 1);
      graded := graded + 1;
      if stop(status) {
        break;
      }
    }
  }

  lemma NotYetNone(w: World, vectors: seq<Vector>, base: nat, ids: set<Fault>, a: map<Fault, Status>, stop: map<Fault, Status> -> bool)
    requires base <= |vectors|
    ensures NotYetAt(w, vectors, base, 0, ids, a, stop)
  {}

  lemma GradedNone(w: World, vectors: seq<Vector>, base: nat, ids: set<Fault>, a: map<Fault, Status>)
    requires base <= |vectors|
    ensures Graded(w, vectors, base, 0, ids, a, a)
  {}

  lemma GrewSelf(a: map<Fault, Status>)
    ensures Grew(a, a)
  {}

  lemma RecordGrows(a: map<Fault, Status>, b: map<Fault, Status>, newly: set<Fault>, index: nat)
    requires Grew(a, b) && forall f :: f in newly ==> f in b && b[f].Active?
    ensures Grew(a, Record(b, newly, index))
  {}

  // Release the keys of the vectors not graded.
  method ReleaseKeys(w: World, s: State, keep: nat) returns (seen: set<Key>)
    requires SeenExact(w, s) && keep <= |s.vectors|
    ensures SeenExact(w, s.(vectors := s.vectors[..keep], seen := seen))
  {
    hide SeenExact, KeyLeft;
    seen := s.seen;
    forall k ensures k in seen <==> KeyLeft(w, s.vectors, keep, keep, k) {
      AllLeft(w, s, keep, k);
    }
    for i := keep to |s.vectors|
      invariant forall k :: k in seen <==> KeyLeft(w, s.vectors, keep, i, k)
    {
      ghost var before := seen;
      seen := seen - {w.key(s.vectors[i])};
      forall k ensures k in seen <==> KeyLeft(w, s.vectors, keep, i + 1, k) {
        KeyOnce(w, s, keep, i, k);
        assert k in before <==> KeyLeft(w, s.vectors, keep, i, k);
      }
    }
    KeptKeys(w, s, keep, seen);
  }

  ghost predicate KeyAt(w: World, vectors: seq<Vector>, j: int, k: Key) { 0 <= j < |vectors| && w.key(vectors[j]) == k }

  // The key of a vector outside the range released so far.
  ghost predicate KeyLeft(w: World, vectors: seq<Vector>, keep: nat, i: nat, k: Key)
  {
    exists j :: KeyAt(w, vectors, j, k) && !(keep <= j < i)
  }

  lemma AllLeft(w: World, s: State, keep: nat, k: Key)
    requires SeenExact(w, s)
    ensures k in s.seen <==> KeyLeft(w, s.vectors, keep, keep, k)
  {
    if k in s.seen {
      var j :| 0 <= j < |s.vectors| && w.key(s.vectors[j]) == k;
      assert KeyAt(w, s.vectors, j, k);
    }
  }

  lemma KeyOnce(w: World, s: State, keep: nat, i: nat, k: Key)
    requires SeenExact(w, s) && keep <= i < |s.vectors|
    ensures KeyLeft(w, s.vectors, keep, i + 1, k) <==> KeyLeft(w, s.vectors, keep, i, k) && k != w.key(s.vectors[i])
  {
    forall j ensures KeyAt(w, s.vectors, j, k) && k == w.key(s.vectors[i]) ==> j == i {}
  }

  lemma KeptKeys(w: World, s: State, keep: nat, seen: set<Key>)
    requires SeenExact(w, s) && keep <= |s.vectors|
    requires forall k :: k in seen <==> KeyLeft(w, s.vectors, keep, |s.vectors|, k)
    ensures SeenExact(w, s.(vectors := s.vectors[..keep], seen := seen))
  {
    var kept := s.vectors[..keep];
    forall k ensures k in seen <==> exists i :: 0 <= i < |kept| && w.key(kept[i]) == k {
      if k in seen {
        assert KeyLeft(w, s.vectors, keep, |s.vectors|, k);
        var j :| KeyAt(w, s.vectors, j, k) && !(keep <= j < |s.vectors|);
        assert kept[j] == s.vectors[j];
      }
      if i :| 0 <= i < |kept| && w.key(kept[i]) == k {
        assert KeyAt(w, s.vectors, i, k);
      }
    }
  }

  // The new vectors of the batch, in order, up to the first that reaches coverage.
  ghost predicate TookFrom(w: World, s: State, batch: seq<Vector>, ids: set<Fault>, stop: map<Fault, Status> -> bool, r: State)
  {
    var first, n := FirstOnes(w, s.seen, batch), |r.vectors| - |s.vectors|;
    && 0 <= n <= |first| && r.vectors == s.vectors + first[..n]
    && (n == |first| || (n > 0 && stop(r.status)))
    && NotYetAt(w, r.vectors, |s.vectors|, n, ids, s.status, stop)
  }

  lemma Took(w: World, s: State, batch: seq<Vector>, ids: set<Fault>, stop: map<Fault, Status> -> bool, all: seq<Vector>, n: nat, r: State)
    requires all == s.vectors + FirstOnes(w, s.seen, batch) && |s.vectors| + n <= |all| && r.vectors == all[..|s.vectors| + n]
    requires |s.vectors| + n == |all| || (n > 0 && stop(r.status))
    requires NotYetAt(w, all, |s.vectors|, n, ids, s.status, stop)
    ensures TookFrom(w, s, batch, ids, stop, r)
  {
    hide FirstOnes;
    assert r.vectors == s.vectors + FirstOnes(w, s.seen, batch)[..n];
    forall k, mid | 0 < k < n && Graded(w, r.vectors, |s.vectors|, k, ids, s.status, mid) ensures !stop(mid) {
      SameGraded(w, r.vectors, all, |s.vectors|, k, ids, s.status, mid);
    }
  }

  lemma SameGraded(w: World, u: seq<Vector>, v: seq<Vector>, base: nat, n: nat, ids: set<Fault>, a: map<Fault, Status>, b: map<Fault, Status>)
    requires base + n <= |u| <= |v| && u == v[..|u|] && Graded(w, u, base, n, ids, a, b)
    ensures Graded(w, v, base, n, ids, a, b)
  {
    assert forall i :: 0 <= i < base + n ==> u[i] == v[i];
  }

  /** The random phase keeps the seen set exact and every recorded detection true,
      also when it stops early and drops the vectors it did not grade. Every fault
      goes to the first kept vector that detects it, and unless it stopped early no
      vector of the batch is missing. It stops at the first vector that reaches
      coverage. */
  method RandomPhase(w: World, s: State, batch: seq<Vector>, ids: set<Fault>, stop: map<Fault, Status> -> bool, ghost start: map<Fault, Status>)
    returns (r: State)
    requires SeenExact(w, s) && Recorded(w, s, start)
    ensures SeenExact(w, r) && Recorded(w, r, start) && Grew(s.status, r.status)
    ensures s.vectors <= r.vectors && r.timeouts == s.timeouts && r.rejected == s.rejected
    ensures Graded(w, r.vectors, |s.vectors|, |r.vectors| - |s.vectors|, ids, s.status, r.status)
    ensures forall i :: |s.vectors| <= i < |r.vectors| ==> r.vectors[i] in batch
    ensures (forall i :: 0 <= i < |batch| ==> w.key(batch[i]) in r.seen) || stop(r.status)
    ensures TookFrom(w, s, batch, ids, stop, r)
    ensures var n := |r.vectors| - |s.vectors|;
            && r.stats == s.stats.(generated := s.stats.generated + n, accepted := s.stats.accepted + n)
            && r == s.(vectors := r.vectors, seen := r.seen, status := r.status, stats := r.stats)
  {
    hide SeenExact, Recorded, Graded, Grew, FirstOnes, NotYetAt, TookFrom;
    var all, added := AppendUnique(w, s, batch);
    var base := |s.vectors|;
    assert all.vectors[..base] == s.vectors;
    RecordedOnly(w, s, all.(vectors := all.vectors[..base]), start);
    var status, graded := GradeRandom(w, all, base, ids, stop, start);
    var seen := ReleaseKeys(w, all, base + graded);
    r := all.(vectors := all.vectors[..base + graded], seen := seen, status := status,
              stats := all.stats.(generated := all.stats.generated + graded, accepted := all.stats.accepted + graded));
    forall i | base <= i < |r.vectors| ensures r.vectors[i] in batch {
      assert r.vectors[i] == added[i - base];
    }
    GradedPrefix(w, all.vectors, r.vectors, base, graded, ids, s.status, status);
    assert base + graded == |all.vectors| ==> seen == all.seen by {
      if base + graded == |all.vectors| {
        SameSeen(w, all, all.(vectors := all.vectors[..base + graded], seen := seen));
      }
    }
    Took(w, s, batch, ids, stop, all.vectors, graded, r);
    SeenOnly(w, all.(vectors := all.vectors[..base + graded], seen := seen), r);
    RecordedOnly(w, all.(vectors := all.vectors[..base + graded], status := status), r, start);
  }

  lemma GradedPrefix(w: World, vectors: seq<Vector>, kept: seq<Vector>, base: nat, n: nat, ids: set<Fault>, a: map<Fault, Status>, b: map<Fault, Status>)
    requires base + n == |kept| <= |vectors| && kept == vectors[..base + n] && Graded(w, vectors, base, n, ids, a, b)
    ensures Graded(w, kept, base, n, ids, a, b)
  {
    assert forall i :: 0 <= i < base + n ==> kept[i] == vectors[i];
  }

  lemma SameSeen(w: World, s: State, r: State)
    requires SeenExact(w, s) && SeenExact(w, r) && s.vectors == r.vectors
    ensures s.seen == r.seen
  {
    forall k ensures k in s.seen <==> k in r.seen {}
  }

  // A vector detects no fault its grading left active.
  lemma RandomClassifies(w: World, s: State, r: State, start: map<Fault, Status>, ids: set<Fault>)
    requires Classified(w, s, start) && s.vectors <= r.vectors && r.rejected == s.rejected
    requires Graded(w, r.vectors, |s.vectors|, |r.vectors| - |s.vectors|, ids, s.status, r.status)
    requires forall f :: f in ids <==> f in s.status && s.status[f].Active?
    ensures Classified(w, r, start)
  {
    assert forall f :: Blocked(r, f) == Blocked(s, f);
    hide Untestable, TestKeyed, Blocked;
    assert forall f :: f in r.status && r.status[f].Redundant? ==> s.status[f].Redundant?;
    if w.dropping {
      forall f, i | f in r.status && r.status[f].Active? && 0 <= i < |r.vectors| ensures !w.detects(r.vectors[i], f) {
        assert GradedBy(w, r.vectors, |s.vectors|, |r.vectors| - |s.vectors|, f, s.status[f], r.status[f]);
        if i < |s.vectors| {
          assert r.vectors[i] == s.vectors[i];
        }
      }
    }
  }

  lemma SeenOnly(w: World, s: State, r: State)
    requires SeenExact(w, s) && r.vectors == s.vectors && r.seen == s.seen
    ensures SeenExact(w, r)
  {}

  lemma RecordedOnly(w: World, s: State, r: State, start: map<Fault, Status>)
    requires Recorded(w, s, start) && r.vectors == s.vectors && r.status == s.status
    ensures Recorded(w, r, start)
  {}

  /* ---- preparing a round ---- */

  // The active faults, in id order.
  method ActiveFaults(status: map<Fault, Status>) returns (ids: seq<Fault>)
    ensures ScanPlan.Ascending(ids) && Distinct(ids) && forall f :: f in ids <==> f in status && status[f].Active?
  {
    ids := ScanPlan.SortedKeys(set f | f in status && status[f].Active?);
  }

  // The reconvergent faults, or the others, in order.
  function Group(ids: seq<Fault>, reconv: set<Fault>, late: bool): seq<Fault>
  {
    if ids == [] then []
    else
      var f := ids[|ids| - 1];
      Group(ids[..|ids| - 1], reconv, late) + if (f in reconv) == late then [f] else []
  }

  // Reconvergent faults last, otherwise in the same order.
  method ReconvergentLast(ids: seq<Fault>, reconv: set<Fault>) returns (r: seq<Fault>)
    requires Distinct(ids)
    ensures Distinct(r) && forall f :: f in r <==> f in ids
    ensures r == Group(ids, reconv, false) + Group(ids, reconv, true)
  {
    var plain, late := [], [];
    for i := 0 to |ids|
      invariant plain == Group(ids[..i], reconv, false) && late == Group(ids[..i], reconv, true)
    {
      assert ids[..i + 1][..i] == ids[..i];
      if ids[i] in reconv {
        late := late + [ids[i]];
      } else {
        plain := plain + [ids[i]];
      }
    }
    assert ids[..|ids|] == ids;
    GroupOf(ids, reconv, false);
    GroupOf(ids, reconv, true);
    JoinDistinct(plain, late);
    r := plain + late;
  }

  lemma {:induction false} GroupOf(ids: seq<Fault>, reconv: set<Fault>, late: bool)
    requires Distinct(ids)
    ensures Distinct(Group(ids, reconv, late)) && forall f :: f in Group(ids, reconv, late) <==> f in ids && (f in reconv) == late
  {
    if ids != [] {
      var n := |ids| - 1;
      assert ids == ids[..n] + [ids[n]] && ids[n] !in ids[..n];
      GroupOf(ids[..n], reconv, late);
      if (ids[n] in reconv) == late {
        JoinDistinct(Group(ids[..n], reconv, late), [ids[n]]);
      }
    }
  }

  lemma JoinDistinct(a: seq<Fault>, b: seq<Fault>)
    requires Distinct(a) && Distinct(b) && forall f :: f in a ==> f !in b
    ensures Distinct(a + b)
  {
    forall i, j | 0 <= i < j < |a + b| ensures (a + b)[i] != (a + b)[j] {
      if i < |a| <= j {
        assert a[i] in a && b[j - |a|] in b;
      }
    }
  }

  // A reconvergent fault counts as timed out once, so that it skips the shortest tier.
  method SkipShortTier(timeouts: map<Fault, nat>, ids: seq<Fault>, reconv: set<Fault>) returns (r: map<Fault, nat>)
    ensures forall f :: f in r <==> f in timeouts || (f in ids && f in reconv)
    ensures forall f :: f in timeouts && !(f in ids && f in reconv) ==> r[f] == timeouts[f]
    ensures forall f :: f in ids && f in reconv ==> r[f] == if f in timeouts && timeouts[f] > 1 then timeouts[f] else 1
  {
    r := timeouts;
    for i := 0 to |ids|
      invariant forall f :: f in r <==> f in timeouts || (f in ids[..i] && f in reconv)
      invariant forall f :: f in timeouts && !(f in ids[..i] && f in reconv) ==> r[f] == timeouts[f]
      invariant forall f :: f in ids[..i] && f in reconv ==> r[f] == if f in timeouts && timeouts[f] > 1 then timeouts[f] else 1
    {
      assert ids[..i + 1] == ids[..i] + [ids[i]];
      if ids[i] in reconv {
        var tries := if ids[i] in r then r[ids[i]] else 0;
        r := r[ids[i] := if tries < 1 then 1 else tries];
      }
    }
    assert ids[..|ids|] == ids;
  }

  /* ---- the stall verdict ---- */

  predicate ShouldStall(before: map<Fault, Status>, after: map<Fault, Status>, outcomes: seq<Outcome>)
  {
    |DetectedSet(after)| == |DetectedSet(before)| && |RedundantSet(after)| == |RedundantSet(before)| && Futile(outcomes)
  }

  // A fault that has timed out but has a longer tier left to try.
  predicate Headroom(w: World, s: State, ids: seq<Fault>)
  {
    exists i :: 0 <= i < |ids| && 0 < Tries(s, ids[i]) < |w.tiers|
  }

  // Every fault still active was tried this round, at the longest tier, without a verdict.
  ghost predicate Exhausted(w: World, last: State, ids: seq<Fault>, s: State)
    requires w.tiers != []
  {
    && s == SerialRound(w, last, ids)
    && forall f :: f in s.status && s.status[f].Active? ==>
         f in ids && Tries(last, f) + 1 >= |w.tiers| && Undecisive(w.solve(f, Blocked(last, f), w.tiers[|w.tiers| - 1]))
  }

  lemma StallExhausts(w: World, last: State, ids: seq<Fault>, left: seq<Fault>, before: map<Fault, Status>)
    requires w.tiers != [] && Distinct(ids) && last.outcomes == [] && last.remaining == (set f | f in ids)
    requires forall f :: f in ids <==> f in last.status && last.status[f].Active?
    requires Grew(before, last.status)
    requires var s := SerialRound(w, last, ids);
             && ShouldStall(before, s.status, s.outcomes) && !Headroom(w, s, left)
             && (forall f :: f in left <==> f in s.status && s.status[f].Active?)
    ensures Exhausted(w, last, ids, SerialRound(w, last, ids))
  {
    var s := SerialRound(w, last, ids);
    assert ids[..|ids|] == ids;
    StallSame(w, last, ids, before);
    StallCounts(before, s.status, s.outcomes);
    assert forall i :: 0 <= i < |ids| ==> !Skipped(w, last, ids[i]);
    QuietRound(w, last, ids, |ids|);
    hide SerialRound, ShouldStall, Ask, Tier, Blocked, Tries, Undecisive, Headroom, QuietTo;
    forall f | f in s.status && s.status[f].Active?
      ensures f in ids && Tries(last, f) + 1 >= |w.tiers| && Undecisive(w.solve(f, Blocked(last, f), w.tiers[|w.tiers| - 1]))
    {
      assert f in left;
      StallOne(w, last, ids, left, f);
    }
  }

  lemma StallOne(w: World, last: State, ids: seq<Fault>, left: seq<Fault>, f: Fault)
    requires w.tiers != [] && QuietTo(w, last, ids, |ids|) && !Headroom(w, SerialRound(w, last, ids), left) && f in left && f in ids
    ensures Tries(last, f) + 1 >= |w.tiers| && Undecisive(w.solve(f, Blocked(last, f), w.tiers[|w.tiers| - 1]))
  {
    assert ids[..|ids|] == ids;
    var s := SerialRound(w, last, ids);
    hide SerialRound, Ask, Tier, Blocked, Tries, Undecisive;
    var i :| 0 <= i < |ids| && ids[i] == f;
    var k :| 0 <= k < |left| && left[k] == f;
    assert Tries(s, ids[i]) == Tries(last, ids[i]) + 1 && Undecisive(Ask(w, last, ids[i]));
    assert !(0 < Tries(s, left[k]) < |w.tiers|);
    LongestTier(w, last, f);
  }

  // Nothing changed between the counts, so nothing changed in the round.
  lemma StallSame(w: World, last: State, ids: seq<Fault>, before: map<Fault, Status>)
    requires w.tiers != [] && Distinct(ids) && ToVisit(w, last, ids, 0) && Grew(before, last.status)
    requires ShouldStall(before, SerialRound(w, last, ids).status, SerialRound(w, last, ids).outcomes)
    ensures SerialRound(w, last, ids).status == last.status
  {
    assert ids[..|ids|] == ids && ids[..0] == [];
    var s := SerialRound(w, last, ids);
    RoundGrows(w, last, ids, 0, |ids|);
    assert SerialRound(w, last, []) == last;
    hide SerialRound, ShouldStall;
    StallCounts(before, s.status, s.outcomes);
    CountsTell(before, s.status);
    BetweenSame(before, last.status, s.status);
  }

  // Once a fault has been tried at all tiers but one, the next try is the longest.
  lemma LongestTier(w: World, s: State, f: Fault)
    requires w.tiers != [] && Tries(s, f) + 1 >= |w.tiers|
    ensures Tier(w, s, f) == w.tiers[|w.tiers| - 1] && Ask(w, s, f) == w.solve(f, Blocked(s, f), w.tiers[|w.tiers| - 1])
  {}

  lemma StallCounts(before: map<Fault, Status>, after: map<Fault, Status>, outcomes: seq<Outcome>)
    requires ShouldStall(before, after, outcomes)
    ensures |DetectedSet(after)| == |DetectedSet(before)| && |RedundantSet(after)| == |RedundantSet(before)| && Futile(outcomes)
  {}

  /* ---- the run ---- */

  datatype Terminal = MaxRounds | Complete | RandomOnly | ThresholdMet | Stalled

  datatype Config = Config(maxRounds: nat, batch: seq<Vector>, stop: map<Fault, Status> -> bool, met: map<Fault, Status> -> bool,
                           randomOnly: bool, reconv: set<Fault>, parallel: bool, waveSize: nat,
                           ordered: bool, cone: Fault -> nat, workers: nat, reserve: int)

  // The state a round's SAT phase starts from: its faults listed, nothing tried yet.
  ghost predicate RoundStart(w: World, s: State, ids: seq<Fault>)
  {
    && Distinct(ids) && s.outcomes == [] && s.remaining == (set f | f in ids)
    && (forall f :: f in ids <==> f in s.status && s.status[f].Active?)
  }

  // A reconvergent fault never tried starts past the shortest tier; no other count moves.
  ghost predicate TierSet(a: State, b: State, ids: seq<Fault>, reconv: set<Fault>)
  {
    forall f :: Tries(b, f) == if f in ids && f in reconv && Tries(a, f) == 0 then 1 else Tries(a, f)
  }

  // The reconvergent faults come last.
  ghost predicate LateOnes(ids: seq<Fault>, reconv: set<Fault>)
  {
    forall i, j :: 0 <= i < j < |ids| && ids[i] in reconv ==> ids[j] in reconv
  }

  method StartRound(w: World, s: State, reconv: set<Fault>, ghost start: map<Fault, Status>) returns (r: State, ids: seq<Fault>)
    requires SeenExact(w, s) && Recorded(w, s, start)
    ensures RoundStart(w, r, ids) && SeenExact(w, r) && Recorded(w, r, start)
    ensures r == s.(timeouts := r.timeouts, remaining := r.remaining, outcomes := [])
    ensures TierSet(s, r, ids, reconv) && LateOnes(ids, reconv)
  {
    hide SeenExact, Recorded, Group, Tries;
    var active := ActiveFaults(s.status);
    var timeouts := SkipShortTier(s.timeouts, active, reconv);
    ids := ReconvergentLast(active, reconv);
    GroupOf(active, reconv, false);
    GroupOf(active, reconv, true);
    LateLast(Group(active, reconv, false), Group(active, reconv, true), reconv);
    r := s.(timeouts := timeouts, remaining := (set f | f in ids), outcomes := []);
    SeenOnly(w, s, r);
    RecordedOnly(w, s, r, start);
    forall f ensures Tries(r, f) == if f in ids && f in reconv && Tries(s, f) == 0 then 1 else Tries(s, f) {
      TierSkipped(s, r, active, reconv, f);
    }
  }

  lemma TierSkipped(s: State, r: State, ids: seq<Fault>, reconv: set<Fault>, f: Fault)
    requires f in r.timeouts <==> f in s.timeouts || (f in ids && f in reconv)
    requires f in s.timeouts && !(f in ids && f in reconv) ==> r.timeouts[f] == s.timeouts[f]
    requires f in ids && f in reconv ==> r.timeouts[f] == if f in s.timeouts && s.timeouts[f] > 1 then s.timeouts[f] else 1
    ensures Tries(r, f) == if f in ids && f in reconv && Tries(s, f) == 0 then 1 else Tries(s, f)
  {}

  lemma LateLast(plain: seq<Fault>, late: seq<Fault>, reconv: set<Fault>)
    requires (forall f :: f in plain ==> f !in reconv) && (forall f :: f in late ==> f in reconv)
    ensures LateOnes(plain + late, reconv)
  {
    var ids := plain + late;
    assert forall i :: 0 <= i < |ids| ==> (ids[i] in reconv <==> i >= |plain|) by {
      forall i | 0 <= i < |ids| ensures ids[i] in reconv <==> i >= |plain| {
        assert if i < |plain| then ids[i] in plain else ids[i] in late;
      }
    }
  }

  // A whole SAT phase keeps what every step keeps.
  lemma PhaseKeeps(w: World, s: State, ids: seq<Fault>, start: map<Fault, Status>)
    requires w.tiers != [] && RoundStart(w, s, ids) && SeenExact(w, s) && Recorded(w, s, start)
    ensures SeenExact(w, SerialRound(w, s, ids)) && Recorded(w, SerialRound(w, s, ids), start)
  {
    assert ToVisit(w, s, ids, 0);
    assert ids[..|ids|] == ids;
    hide SeenExact, Recorded, SerialRound, ToVisit;
    RoundKeeps(w, s, start, ids, |ids|);
  }

  // And classifies the faults.
  lemma PhaseClassifies(w: World, s: State, ids: seq<Fault>, start: map<Fault, Status>)
    requires w.tiers != [] && RoundStart(w, s, ids) && SeenExact(w, s) && Recorded(w, s, start) && Faithful(w) && Classified(w, s, start)
    ensures Classified(w, SerialRound(w, s, ids), start)
  {
    assert ToVisit(w, s, ids, 0) && Open(w, s);
    assert ids[..|ids|] == ids;
    hide SeenExact, Recorded, SerialRound, ToVisit, Faithful, Classified;
    RoundClassifies(w, s, start, ids, |ids|);
  }

  // Preparing a round leaves the verdicts alone.
  lemma StartClassifies(w: World, s: State, r: State, start: map<Fault, Status>)
    requires Classified(w, s, start) && r.vectors == s.vectors && r.rejected == s.rejected && r.status == s.status
    ensures Classified(w, r, start)
  {
    assert forall f :: Blocked(r, f) == Blocked(s, f);
    hide Untestable, TestKeyed, Blocked;
  }

  // One round's SAT phase: from what, over which faults, to what.
  datatype Round = Round(from: State, ids: seq<Fault>, to: State)

  ghost predicate Held(w: World, r: Round)
    requires w.tiers != []
  {
    RoundStart(w, r.from, r.ids) && r.to == SerialRound(w, r.from, r.ids)
  }

  // A round goes on from what the one before left, its retry counts included.
  ghost predicate GoesOn(a: State, r: Round, reconv: set<Fault>)
  {
    && r.from == a.(timeouts := r.from.timeouts, remaining := r.from.remaining, outcomes := [])
    && TierSet(a, r.from, r.ids, reconv) && LateOnes(r.ids, reconv)
  }

  ghost predicate History(w: World, rounds: seq<Round>, reconv: set<Fault>)
    requires w.tiers != []
  {
    && (forall i :: 0 <= i < |rounds| ==> Held(w, rounds[i]))
    && (forall i :: 0 < i < |rounds| ==> GoesOn(rounds[i - 1].to, rounds[i], reconv))
  }

  lemma HistoryMore(w: World, rounds: seq<Round>, r: Round, reconv: set<Fault>)
    requires w.tiers != [] && History(w, rounds, reconv) && Held(w, r)
    requires rounds != [] ==> GoesOn(rounds[|rounds| - 1].to, r, reconv)
    ensures History(w, rounds + [r], reconv)
  {
    hide Held, GoesOn;
  }

  ghost function ActiveSet(status: map<Fault, Status>): set<Fault> { set f | f in status && status[f].Active? }

  // The first round comes after the random phase over all the faults active then.
  ghost predicate RandomFirst(w: World, status: map<Fault, Status>, cfg: Config, s: State)
  {
    var ids, first, n := ActiveSet(status), FirstOnes(w, {}, cfg.batch), |s.vectors|;
    && Graded(w, s.vectors, 0, n, ids, status, s.status)
    && n <= |first| && s.vectors == first[..n] && (n == |first| || (n > 0 && cfg.stop(s.status)))
    && NotYetAt(w, s.vectors, 0, n, ids, status, cfg.stop)
  }

  // The first round has tried nothing, and starts its reconvergent faults one tier up.
  ghost predicate FirstRound(w: World, status: map<Fault, Status>, r: Round, cfg: Config)
  {
    && RandomFirst(w, status, cfg, r.from) && LateOnes(r.ids, cfg.reconv)
    && forall f :: Tries(r.from, f) == if f in r.ids && f in cfg.reconv then 1 else 0
  }

  /* ---- when a run goes on ---- */

  ghost predicate AnyActive(status: map<Fault, Status>) { exists f :: f in status && status[f].Active? }

  // A round that changed no status, got nothing but timeouts and undecided answers, and
  // left no fault that has timed out with a longer tier to go.
  ghost predicate Spent(w: World, before: map<Fault, Status>, to: State)
  {
    && to.status == before
    && (forall o :: o in to.outcomes ==> o == TimedOut || o == Undecided)
    && (forall f :: f in to.timeouts && f in to.status && to.status[f].Active? ==> !(1 <= to.timeouts[f] < |w.tiers|))
  }

  lemma SpentIs(w: World, before: map<Fault, Status>, s: State, left: seq<Fault>)
    requires Grew(before, s.status) && (forall f :: f in left <==> f in s.status && s.status[f].Active?)
    ensures Spent(w, before, s) <==> ShouldStall(before, s.status, s.outcomes) && !Headroom(w, s, left)
  {
    if ShouldStall(before, s.status, s.outcomes) && !Headroom(w, s, left) {
      CountsTell(before, s.status);
      forall f | f in s.timeouts && f in s.status && s.status[f].Active? ensures !(1 <= s.timeouts[f] < |w.tiers|) {
        assert f in left;
        var i :| 0 <= i < |left| && left[i] == f;
        assert !(0 < Tries(s, left[i]) < |w.tiers|);
      }
    }
    if Spent(w, before, s) {
      assert forall i :: 0 <= i < |s.outcomes| ==> s.outcomes[i] in s.outcomes;
      forall i | 0 <= i < |left| ensures !(0 < Tries(s, left[i]) < |w.tiers|) {
        assert left[i] in left;
      }
    }
  }

  // The statuses a round began with, before the random phase if it is the first.
  ghost function Before(status: map<Fault, Status>, rounds: seq<Round>, k: nat): map<Fault, Status>
    requires k <= |rounds|
  {
    if k == 0 then status else rounds[k - 1].to.status
  }

  // After a round: some fault is active, the threshold is not met, and it is not spent.
  ghost predicate WentOn(w: World, met: map<Fault, Status> -> bool, before: map<Fault, Status>, to: State)
  {
    AnyActive(to.status) && !met(to.status) && !Spent(w, before, to)
  }

  ghost predicate AllWentOn(w: World, status: map<Fault, Status>, met: map<Fault, Status> -> bool, rounds: seq<Round>, n: int)
  {
    forall k :: 0 <= k < n && k < |rounds| ==> WentOn(w, met, Before(status, rounds, k), rounds[k].to)
  }

  lemma WentOnMore(w: World, status: map<Fault, Status>, met: map<Fault, Status> -> bool, rounds: seq<Round>, r: Round)
    requires AllWentOn(w, status, met, rounds, |rounds|)
    ensures AllWentOn(w, status, met, rounds + [r], |rounds|)
    ensures WentOn(w, met, Before(status, rounds, |rounds|), r.to) ==> AllWentOn(w, status, met, rounds + [r], |rounds| + 1)
    ensures Before(status, rounds + [r], |rounds|) == Before(status, rounds, |rounds|)
  {
    hide WentOn;
    var more := rounds + [r];
    forall k | 0 <= k <= |rounds| ensures Before(status, more, k) == Before(status, rounds, k) {
      assert k > 0 ==> more[k - 1] == rounds[k - 1];
    }
  }

  /** A campaign: a random phase, then rounds, each going on from the one before.
      However it ends, the seen set is the keys of the returned vectors, no key
      comes twice, and every newly detected fault is detected by the vector at its
      index. It ends complete only with no fault active, and stalled only when
      every active fault has just been tried at the longest tier in vain. It goes on
      after a round exactly while a fault is active, the threshold is not met and the
      round is not spent. With a
      faithful solver a fault it marks redundant has no test exactly when none of
      its candidates was turned down, and with fault dropping none ever is. */
  method RunCampaign(w: World, status: map<Fault, Status>, cfg: Config)
    returns (s: State, terminal: Terminal, ghost rounds: seq<Round>)
    requires w.tiers != [] && cfg.waveSize > 0
    ensures SeenExact(w, s) && Recorded(w, s, status)
    ensures Faithful(w) ==> Classified(w, s, status)
    ensures History(w, rounds, cfg.reconv) && |rounds| <= cfg.maxRounds
    ensures rounds != [] ==> s == rounds[|rounds| - 1].to && FirstRound(w, status, rounds[0], cfg)
    ensures terminal == Complete ==> forall f :: f in s.status ==> !s.status[f].Active?
    ensures terminal == Stalled ==> rounds != [] && Exhausted(w, rounds[|rounds| - 1].from, rounds[|rounds| - 1].ids, s)
    ensures terminal == ThresholdMet ==> rounds != [] && cfg.met(s.status)
    ensures terminal == RandomOnly ==> cfg.randomOnly && RandomFirst(w, status, cfg, s)
    ensures terminal == MaxRounds ==> |rounds| == cfg.maxRounds
    ensures cfg.randomOnly ==> rounds == [] && (AnyActive(status) && cfg.maxRounds > 0 ==> terminal == RandomOnly)
    ensures AllWentOn(w, status, cfg.met, rounds, if terminal == MaxRounds then |rounds| else |rounds| - 1)
    ensures terminal == ThresholdMet ==> AnyActive(s.status)
    ensures terminal == Stalled ==> AnyActive(s.status) && !cfg.met(s.status) && Spent(w, Before(status, rounds, |rounds| - 1), s)
  {
    hide SeenExact, Recorded, Exhausted, SerialRound, RoundStart, ShouldStall, Headroom, Grew, Classified, Faithful, History, Held, GoesOn, RandomFirst,
         FirstRound, TierSet, LateOnes, Tries, Spent, AllWentOn, Before, WentOn, AnyActive, TookFrom;
    s := State([], {}, map[], map[], status, {}, [], Stats(0, 0, 0, 0, 0, 0, 0, 0));
    RunStart(w, s, status);
    NoneWentOn(w, status, cfg.met);
    rounds, terminal := [], MaxRounds;
    var switched := false;
    var round := 0;
    while round < cfg.maxRounds
      invariant SeenExact(w, s) && Recorded(w, s, status) && terminal == MaxRounds && (Faithful(w) ==> Classified(w, s, status))
      invariant round == |rounds| <= cfg.maxRounds && (switched <==> rounds != []) && History(w, rounds, cfg.reconv)
      invariant rounds != [] ==> s == rounds[|rounds| - 1].to && FirstRound(w, status, rounds[0], cfg)
      invariant rounds == [] ==> s.status == status && s.vectors == [] && s.seen == {} && s.timeouts == map[]
      invariant AllWentOn(w, status, cfg.met, rounds, |rounds|) && (cfg.randomOnly ==> rounds == [])
      invariant s.status == Before(status, rounds, |rounds|)
    {
      round := round + 1;
      var before := s.status;
      var active := ActiveFaults(before);
      SomeActive(before, active);
      if active == [] {
        FewerWentOn(w, status, cfg.met, rounds);
        terminal := Complete;
        return;
      }
      ghost var was := s;
      LastStatus(status, rounds);
      assert Grew(before, s.status) by { GrewSelf(before); }
      if !switched {
        s := RandomPhase(w, s, cfg.batch, (set f | f in active), cfg.stop, status);
        switched := true;
        AfterRandom(w, was, s, status, cfg, (set f | f in active));
        if cfg.randomOnly {
          FewerWentOn(w, status, cfg.met, rounds);
          terminal := RandomOnly;
          return;
        }
      }
      ghost var mid := s;
      var from, faults := StartRound(w, s, cfg.reconv, status);
      AfterStart(w, s, from, faults, cfg.reconv, status, cfg);
      assert Distinct(faults) by { StartDistinct(w, from, faults); }
      s := SatRound(w, from, faults, cfg.parallel, cfg.waveSize, cfg.ordered, cfg.cone, cfg.workers, cfg.reserve);
      PhaseKeeps(w, from, faults, status);
      if Faithful(w) {
        PhaseClassifies(w, from, faults, status);
      }
      RoundAdded(w, rounds, mid, from, faults, cfg.reconv);
      WentOnMore(w, status, cfg.met, rounds, Round(from, faults, s));
      rounds := rounds + [Round(from, faults, s)];
      var left := ActiveFaults(s.status);
      SomeActive(s.status, left);
      StillGrew(w, from, faults, before);
      SpentIs(w, before, s, left);
      LastStatus(status, rounds);
      if left == [] {
        terminal := Complete;
        return;
      }
      if cfg.met(s.status) {
        terminal := ThresholdMet;
        return;
      }
      if ShouldStall(before, s.status, s.outcomes) && !Headroom(w, s, left) {
        StallEnds(w, from, faults, left, before);
        terminal := Stalled;
        return;
      }
      assert WentOn(w, cfg.met, before, s) by { HasWentOn(w, cfg.met, before, s); }
    }
  }

  lemma SomeActive(status: map<Fault, Status>, left: seq<Fault>)
    requires forall f :: f in left <==> f in status && status[f].Active?
    ensures AnyActive(status) <==> left != []
  {
    if left != [] {
      assert left[0] in left;
    }
  }

  lemma HasWentOn(w: World, met: map<Fault, Status> -> bool, before: map<Fault, Status>, to: State)
    requires AnyActive(to.status) && !met(to.status) && !Spent(w, before, to)
    ensures WentOn(w, met, before, to)
  {}

  lemma NoneWentOn(w: World, status: map<Fault, Status>, met: map<Fault, Status> -> bool)
    ensures AllWentOn(w, status, met, [], 0) && Before(status, [], 0) == status
  {}

  lemma FewerWentOn(w: World, status: map<Fault, Status>, met: map<Fault, Status> -> bool, rounds: seq<Round>)
    requires AllWentOn(w, status, met, rounds, |rounds|)
    ensures AllWentOn(w, status, met, rounds, |rounds| - 1)
  {
    hide WentOn;
  }

  lemma LastStatus(status: map<Fault, Status>, rounds: seq<Round>)
    ensures Before(status, rounds, |rounds|) == if rounds == [] then status else rounds[|rounds| - 1].to.status
  {}

  lemma StillGrew(w: World, from: State, ids: seq<Fault>, before: map<Fault, Status>)
    requires w.tiers != [] && RoundStart(w, from, ids) && Grew(before, from.status)
    ensures Grew(before, SerialRound(w, from, ids).status)
  {
    assert ids[..|ids|] == ids && ids[..0] == [] && ToVisit(w, from, ids, 0);
    assert SerialRound(w, from, []) == from;
    hide SerialRound;
    RoundGrows(w, from, ids, 0, |ids|);
  }

  lemma AfterRandom(w: World, was: State, s: State, status: map<Fault, Status>, cfg: Config, ids: set<Fault>)
    requires was.status == status && was.vectors == [] && was.seen == {} && s.rejected == was.rejected
    requires TookFrom(w, was, cfg.batch, ids, cfg.stop, s)
    requires Graded(w, s.vectors, |was.vectors|, |s.vectors| - |was.vectors|, ids, was.status, s.status)
    requires forall f :: f in ids <==> f in status && status[f].Active?
    ensures RandomFirst(w, status, cfg, s) && (Classified(w, was, status) ==> Classified(w, s, status))
  {
    assert ids == ActiveSet(status);
    hide Graded, Classified, FirstOnes, NotYetAt, ActiveSet;
    assert s.vectors == FirstOnes(w, {}, cfg.batch)[..|s.vectors|];
    if Classified(w, was, status) {
      RandomClassifies(w, was, s, status, ids);
    }
  }

  lemma AfterStart(w: World, s: State, from: State, ids: seq<Fault>, reconv: set<Fault>, status: map<Fault, Status>, cfg: Config)
    requires from == s.(timeouts := from.timeouts, remaining := from.remaining, outcomes := [])
    requires TierSet(s, from, ids, reconv) && LateOnes(ids, reconv) && reconv == cfg.reconv
    ensures forall to :: GoesOn(s, Round(from, ids, to), reconv)
    ensures RandomFirst(w, status, cfg, s) && s.timeouts == map[] ==> forall to :: FirstRound(w, status, Round(from, ids, to), cfg)
    ensures Classified(w, s, status) ==> Classified(w, from, status)
  {
    hide Classified, Graded, LateOnes, FirstOnes, NotYetAt;
    if Classified(w, s, status) {
      StartClassifies(w, s, from, status);
    }
  }

  lemma RoundAdded(w: World, rounds: seq<Round>, mid: State, from: State, faults: seq<Fault>, reconv: set<Fault>)
    requires w.tiers != [] && History(w, rounds, reconv) && RoundStart(w, from, faults)
    requires GoesOn(mid, Round(from, faults, SerialRound(w, from, faults)), reconv)
    requires rounds != [] ==> mid == rounds[|rounds| - 1].to
    ensures History(w, rounds + [Round(from, faults, SerialRound(w, from, faults))], reconv)
  {
    var r := Round(from, faults, SerialRound(w, from, faults));
    assert Held(w, r);
    hide History, Held, GoesOn;
    HistoryMore(w, rounds, r, reconv);
  }

  lemma RunStart(w: World, s: State, start: map<Fault, Status>)
    requires w.tiers != [] && s.vectors == [] && s.seen == {} && s.status == start && s.rejected == map[]
    ensures SeenExact(w, s) && Recorded(w, s, start) && Classified(w, s, start) && forall reconv :: History(w, [], reconv)
  {
    hide Untestable, TestKeyed;
    assert forall f :: Blocked(s, f) == {};
  }

  lemma StartDistinct(w: World, s: State, ids: seq<Fault>)
    requires RoundStart(w, s, ids)
    ensures Distinct(ids)
  {}

  lemma StallEnds(w: World, last: State, ids: seq<Fault>, left: seq<Fault>, before: map<Fault, Status>)
    requires w.tiers != [] && RoundStart(w, last, ids) && Grew(before, last.status)
    requires var s := SerialRound(w, last, ids);
             && ShouldStall(before, s.status, s.outcomes) && !Headroom(w, s, left)
             && (forall f :: f in left <==> f in s.status && s.status[f].Active?)
    ensures Exhausted(w, last, ids, SerialRound(w, last, ids))
  {
    assert ToVisit(w, last, ids, 0);
    StallExhausts(w, last, ids, left, before);
  }
}
