/** What a redundant verdict is worth (faultflow/runner/progressive_atpg.py): when a
    fault marked redundant really has no test. */
module Redundancy {
  import opened Campaign

  ghost predicate Untestable(w: World, f: Fault) { forall v :: !w.detects(v, f) }

  // A test of the fault with that key.
  ghost predicate TestKeyed(w: World, f: Fault, k: Key) { exists v :: w.detects(v, f) && w.key(v) == k }

  // The solver finds a test outside the blocked ones, or there is none outside
  // them; the candidate check is the simulator's; vectors of one key do the same.
  ghost predicate Faithful(w: World)
  {
    && (forall f, blocked, t :: w.solve(f, blocked, t).Sat? ==>
          w.detects(w.solve(f, blocked, t).vector, f) && w.key(w.solve(f, blocked, t).vector) !in blocked)
    && (forall f, blocked, t :: w.solve(f, blocked, t).Unsat? ==> forall k :: TestKeyed(w, f, k) ==> k in blocked)
    && (forall f, v :: w.verify(f, v) <==> w.detects(v, f))
    && (forall f, v, u :: w.key(v) == w.key(u) ==> w.detects(v, f) == w.detects(u, f))
  }

  // Only keys of tests are blocked.
  ghost predicate BlocksTests(w: World, s: State)
  {
    forall f, k :: k in Blocked(s, f) ==> TestKeyed(w, f, k)
  }

  // A fault marked since the start has no test exactly when none of its
  // candidates was ever turned down.
  ghost predicate Told(w: World, s: State, start: map<Fault, Status>)
  {
    forall f :: f in start && start[f].Active? && f in s.status && s.status[f].Redundant? ==> (Untestable(w, f) <==> Blocked(s, f) == {})
  }

  // With fault dropping: no candidate turned down, no active fault overlooked.
  ghost predicate Dropped(w: World, s: State)
  {
    && (forall f :: Blocked(s, f) == {})
    && (forall f, i :: f in s.status && s.status[f].Active? && 0 <= i < |s.vectors| ==> !w.detects(s.vectors[i], f))
  }

  ghost predicate Classified(w: World, s: State, start: map<Fault, Status>)
  {
    BlocksTests(w, s) && Told(w, s, start) && (w.dropping ==> Dropped(w, s))
  }

  // Within a round every active fault is still to be graded.
  ghost predicate Open(w: World, s: State)
  {
    w.dropping ==> forall f :: f in s.status && s.status[f].Active? ==> f in s.remaining
  }

  lemma UnsatTells(w: World, s: State, f: Fault)
    requires w.tiers != [] && Faithful(w) && BlocksTests(w, s) && Ask(w, s, f).Unsat?
    ensures Untestable(w, f) <==> Blocked(s, f) == {}
  {
    assert forall k :: TestKeyed(w, f, k) ==> k in Blocked(s, f);
    if k :| k in Blocked(s, f) {
      assert TestKeyed(w, f, k);
    }
    if v :| w.detects(v, f) {
      assert TestKeyed(w, f, w.key(v));
    }
  }

  // A candidate is never turned down by the check, and with dropping never seen.
  lemma CandidateNew(w: World, s: State, f: Fault)
    requires w.tiers != [] && Faithful(w) && SeenExact(w, s) && Ask(w, s, f).Sat? && f in s.status && s.status[f].Active?
    ensures var v := Ask(w, s, f).vector;
            && w.detects(v, f) && w.verify(f, v) && TestKeyed(w, f, w.key(v))
            && (w.dropping && Dropped(w, s) ==> w.key(v) !in s.seen)
  {
    var v := Ask(w, s, f).vector;
    assert w.detects(v, f);
    assert forall i :: 0 <= i < |s.vectors| && w.key(s.vectors[i]) == w.key(v) ==> w.detects(s.vectors[i], f);
  }

  lemma AcceptClassifies(w: World, s: State, start: map<Fault, Status>, f: Fault, v: Vector)
    requires Classified(w, s, start) && Open(w, s)
    ensures Classified(w, Accept(w, s, f, v), start) && Open(w, Accept(w, s, f, v))
  {
    var s' := Accept(w, s, f, v);
    assert forall g :: Blocked(s', g) == Blocked(s, g);
    assert forall g :: g in s'.status && s'.status[g].Active? ==> g in s.status && s.status[g].Active?;
    hide Untestable, TestKeyed;
    if w.dropping {
      forall g, i | g in s'.status && s'.status[g].Active? && 0 <= i < |s'.vectors| ensures !w.detects(s'.vectors[i], g) {
        if i == |s.vectors| {
          assert g in s.remaining && g !in Newly(w, s.status, s.remaining, v);
        } else {
          assert s'.vectors[i] == s.vectors[i];
        }
      }
    }
  }

  lemma RejectClassifies(w: World, s: State, start: map<Fault, Status>, f: Fault, v: Vector, seen: bool)
    requires Classified(w, s, start) && Open(w, s) && f in s.status && s.status[f].Active? && !w.dropping && TestKeyed(w, f, w.key(v))
    ensures Classified(w, Reject(w, s, f, v, seen), start) && Open(w, Reject(w, s, f, v, seen))
  {
    var s' := Reject(w, s, f, v, seen);
    assert forall g :: Blocked(s', g) == if g == f then Blocked(s, f) + {w.key(v)} else Blocked(s, g);
    hide Untestable, TestKeyed, Blocked;
  }

  // Everything else leaves the vectors and what is blocked alone.
  lemma OtherClassifies(w: World, s: State, s': State, start: map<Fault, Status>, f: Fault)
    requires Classified(w, s, start) && Open(w, s) && s'.vectors == s.vectors && s'.rejected == s.rejected && s'.remaining == s.remaining
    requires s'.status == s.status || (s'.status == s.status[f := Redundant] && (Untestable(w, f) <==> Blocked(s, f) == {}))
    ensures Classified(w, s', start) && Open(w, s')
  {
    assert forall g :: Blocked(s', g) == Blocked(s, g);
    hide Untestable, TestKeyed, Blocked;
  }

  lemma StepClassifies(w: World, s: State, start: map<Fault, Status>, f: Fault)
    requires w.tiers != [] && Faithful(w) && SeenExact(w, s) && Classified(w, s, start) && Open(w, s)
    requires Skipped(w, s, f) || (f in s.status && s.status[f].Active?)
    ensures Classified(w, Step(w, s, f), start) && Open(w, Step(w, s, f))
  {
    if !Skipped(w, s, f) {
      var verdict := Ask(w, s, f);
      assert Step(w, s, f) == Process(w, s, f, verdict);
      assert w.dropping ==> Dropped(w, s);
      if verdict.Sat? {
        CandidateNew(w, s, f);
        hide Faithful, SeenExact, Classified, Open, Ask, Accept, Reject, TestKeyed, Dropped, Step;
        if w.key(verdict.vector) !in s.seen {
          AcceptClassifies(w, s, start, f, verdict.vector);
        } else {
          RejectClassifies(w, s, start, f, verdict.vector, true);
        }
      } else {
        if verdict.Unsat? {
          UnsatTells(w, s, f);
        }
        hide Faithful, SeenExact, Classified, Open, Ask, Accept, Reject, TestKeyed, Dropped, Step, Untestable, Blocked;
        OtherClassifies(w, s, Process(w, s, f, verdict), start, f);
      }
    }
  }

  /** Over any prefix of a round, every fault it marks redundant is told right
      exactly when none of its candidates was turned down; with dropping none is. */
  lemma {:induction false} RoundClassifies(w: World, s: State, start: map<Fault, Status>, ids: seq<Fault>, n: nat)
    requires w.tiers != [] && SeenExact(w, s) && Recorded(w, s, start) && Distinct(ids) && ToVisit(w, s, ids, 0) && n <= |ids|
    requires Faithful(w) && Classified(w, s, start) && Open(w, s)
    ensures Classified(w, SerialRound(w, s, ids[..n]), start) && Open(w, SerialRound(w, s, ids[..n]))
    decreases n
  {
    if n == 0 {
      assert ids[..0] == [];
    } else {
      hide SeenExact, Recorded, Step, Faithful, Classified, Open;
      assert ids[..n][..n - 1] == ids[..n - 1];
      RoundClassifies(w, s, start, ids, n - 1);
      RoundKeeps(w, s, start, ids, n - 1);
      var before := SerialRound(w, s, ids[..n - 1]);
      assert Skipped(w, before, ids[n - 1]) || (ids[n - 1] in before.status && before.status[ids[n - 1]].Active?);
      StepClassifies(w, before, start, ids[n - 1]);
    }
  }

  /* ---- without dropping ---- */

  const TEST: Vector := map["a" := true]

  // Faults 0 and 1 have one test, and it is the same.
  function OneTest(f: Fault, blocked: set<Key>, t: nat): Verdict
  {
    if f < 2 && "1" !in blocked then Sat(TEST) else Unsat
  }

  function OneKey(v: Vector): Key { if v == TEST then "1" else "0" }

  const SHARED: World := World(OneTest, (f: Fault, v: Vector) => f < 2 && v == TEST, (v: Vector, f: Fault) => f < 2 && v == TEST, OneKey, [1], false)

  function Begin(status: map<Fault, Status>): State
  {
    State([], {}, map[], map[], status, {}, [], Stats(0, 0, 0, 0, 0, 0, 0, 0))
  }

  lemma SharedFaithful()
    ensures Faithful(SHARED)
  {
    forall f, blocked, t | SHARED.solve(f, blocked, t).Unsat? ensures forall k :: TestKeyed(SHARED, f, k) ==> k in blocked {
      forall k | TestKeyed(SHARED, f, k) ensures k in blocked {
        var v :| SHARED.detects(v, f) && SHARED.key(v) == k;
        assert v == TEST;
      }
    }
  }

  /** Without dropping, a fault that a returned vector detects can end up marked
      redundant: its only test was accepted for another fault, turned down as a
      duplicate for this one, and blocked when it was tried again. */
  lemma RedundantLost()
    ensures Faithful(SHARED)
    ensures var s1 := SerialRound(SHARED, Begin(map[0 := Active, 1 := Active]), [0, 1]);
            var s2 := SerialRound(SHARED, s1, [1]);
            s2.status == map[0 := Detected(1), 1 := Redundant] && s2.vectors == [TEST] && SHARED.detects(s2.vectors[0], 1)
  {
    SharedFaithful();
    var s := Begin(map[0 := Active, 1 := Active]);
    TakenForOne(s);
    var a := Step(SHARED, s, 0);
    TurnedDown(a);
    var b := Step(SHARED, a, 1);
    var c := Step(SHARED, b, 1);
    hide Step;
    var ids: seq<Fault> := [0, 1];
    assert ids[..1] == [0] && [0][..0] == [];
    assert SerialRound(SHARED, s, [0]) == a by { assert SerialRound(SHARED, s, []) == s; }
    assert SerialRound(SHARED, s, ids) == b;
    var one: seq<Fault> := [1];
    assert one[..0] == [];
    assert SerialRound(SHARED, b, one) == c by { assert SerialRound(SHARED, b, []) == b; }
  }

  // The test is accepted for fault 0 and graded against it alone.
  lemma TakenForOne(s: State)
    requires s == Begin(map[0 := Active, 1 := Active])
    ensures var a := Step(SHARED, s, 0);
            a.status == map[0 := Detected(1), 1 := Active] && a.seen == {"1"} && a.vectors == [TEST] && a.rejected == map[]
  {
    assert Ask(SHARED, s, 0) == Sat(TEST);
    assert Step(SHARED, s, 0) == Accept(SHARED, s, 0, TEST);
    assert Newly(SHARED, s.status, {0}, TEST) == {0};
  }

  // For fault 1 it is a duplicate, then blocked.
  lemma TurnedDown(a: State)
    requires a.status == map[0 := Detected(1), 1 := Active] && a.seen == {"1"} && a.vectors == [TEST] && a.rejected == map[]
    ensures var b := Step(SHARED, a, 1); var c := Step(SHARED, b, 1);
            c.status == map[0 := Detected(1), 1 := Redundant] && c.vectors == [TEST]
  {
    var b := Step(SHARED, a, 1);
    assert Ask(SHARED, a, 1) == Sat(TEST);
    assert b == Reject(SHARED, a, 1, TEST, true) && Blocked(b, 1) == {"1"};
    assert Ask(SHARED, b, 1) == Unsat;
  }
}
