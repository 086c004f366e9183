/** What a SAT round asks and what each answer does (faultflow/runner/progressive_atpg.py),
    said of the states a run goes through: which query a fault gets, how every counter
    moves, and that timeouts escalate tier by tier. */
module CampaignLaws {
  import opened Campaign
  import opened CampaignRun

  /* ---- one fault's turn ---- */

  // The keys blocked for a fault, and how often it has run out of time.
  ghost predicate Standing(s: State, f: Fault, keys: set<Key>, k: nat)
  {
    && keys == (if f in s.rejected then s.rejected[f] else {})
    && k == (if f in s.timeouts then s.timeouts[f] else 0)
  }

  // A new vector that passed the check: appended, and every fault it is graded
  // against and detects is recorded at its index.
  ghost predicate Took(w: World, b: State, f: Fault, v: Vector, a: State)
  {
    && a.vectors == b.vectors + [v] && a.seen == b.seen + {w.key(v)} && a.rejected == b.rejected && a.timeouts == b.timeouts
    && a.outcomes == b.outcomes + [Accepted] && a.status.Keys == b.status.Keys
    && (forall g :: g in b.status ==>
          a.status[g] == if b.status[g].Active? && w.detects(v, g) && (if w.dropping then g in b.remaining else g == f)
                         then Detected(|b.vectors| + 1) else b.status[g])
    && (forall g :: g in a.remaining <==> g in b.remaining && !(w.dropping && g in b.status && b.status[g].Active? && w.detects(v, g)))
  }

  // A vector seen before or turned down: its key is blocked for this fault.
  ghost predicate TurnedDown(w: World, b: State, f: Fault, v: Vector, a: State)
  {
    && a.vectors == b.vectors && a.seen == b.seen && a.timeouts == b.timeouts && a.status == b.status && a.remaining == b.remaining
    && a.outcomes == b.outcomes + [NoProgress] && f in a.rejected
    && (forall k :: k in a.rejected[f] <==> k == w.key(v) || (f in b.rejected && k in b.rejected[f]))
    && (forall g :: g != f ==> (g in a.rejected <==> g in b.rejected) && (g in b.rejected ==> a.rejected[g] == b.rejected[g]))
  }

  // Out of time or undecided: one more try on record.
  ghost predicate Retried(b: State, f: Fault, o: Outcome, a: State)
  {
    && a.vectors == b.vectors && a.seen == b.seen && a.rejected == b.rejected && a.status == b.status && a.remaining == b.remaining
    && a.outcomes == b.outcomes + [o] && f in a.timeouts && a.timeouts[f] == (if f in b.timeouts then b.timeouts[f] + 1 else 1)
    && (forall g :: g != f ==> (g in a.timeouts <==> g in b.timeouts) && (g in b.timeouts ==> a.timeouts[g] == b.timeouts[g]))
  }

  ghost predicate MarkedRedundant(b: State, f: Fault, a: State)
  {
    && a.vectors == b.vectors && a.seen == b.seen && a.rejected == b.rejected && a.timeouts == b.timeouts && a.remaining == b.remaining
    && a.outcomes == b.outcomes && f in a.status && a.status[f] == Redundant
    && (forall g :: g != f ==> (g in a.status <==> g in b.status) && (g in b.status ==> a.status[g] == b.status[g]))
  }

  ghost predicate Answered(w: World, b: State, f: Fault, verdict: Verdict, a: State)
  {
    match verdict
    case Sat(v) => if w.key(v) !in b.seen && w.verify(f, v) then Took(w, b, f, v, a) else TurnedDown(w, b, f, v, a)
    case Unsat => MarkedRedundant(b, f, a)
    case Timeout => Retried(b, f, TimedOut, a)
    case Unknown => Retried(b, f, Undecided, a)
  }

  lemma ProcessAnswers(w: World, b: State, f: Fault, verdict: Verdict)
    ensures Answered(w, b, f, verdict, Process(w, b, f, verdict))
  {}

  /** At its turn a fault that has not been dropped is put to the solver with its
      blocked keys and the tier of its tries, the last tier once it is past them, and
      the answer does to the state what it should; a dropped fault is passed over. */
  lemma RoundAsks(w: World, from: State, ids: seq<Fault>, i: nat, keys: set<Key>, k: nat)
    requires w.tiers != [] && i < |ids| && Standing(SerialRound(w, from, ids[..i]), ids[i], keys, k)
    ensures var b, a := SerialRound(w, from, ids[..i]), SerialRound(w, from, ids[..i + 1]);
            if w.dropping && ids[i] !in b.remaining then a == b
            else Answered(w, b, ids[i], w.solve(ids[i], keys, if k < |w.tiers| then w.tiers[k] else w.tiers[|w.tiers| - 1]), a)
  {
    assert ids[..i + 1][..i] == ids[..i];
    var b := SerialRound(w, from, ids[..i]);
    ProcessAnswers(w, b, ids[i], Ask(w, b, ids[i]));
    hide Answered, Process;
  }

  /* ---- the counters ---- */

  function Count(outcomes: seq<Outcome>, o: Outcome): nat
  {
    if outcomes == [] then 0 else Count(outcomes[..|outcomes| - 1], o) + if outcomes[|outcomes| - 1] == o then 1 else 0
  }

  lemma CountMore(outcomes: seq<Outcome>, o: Outcome, more: Outcome)
    ensures Count(outcomes + [more], o) == Count(outcomes, o) + if more == o then 1 else 0
  {
    assert (outcomes + [more])[..|outcomes|] == outcomes;
  }

  // The counters moved as the outcomes say, since state a of the same round.
  ghost predicate Tallied(a: State, b: State)
  {
    var x, y := a.stats, b.stats;
    && y.accepted - x.accepted == Count(b.outcomes, Accepted) - Count(a.outcomes, Accepted) == |b.vectors| - |a.vectors|
    && y.stuck - x.stuck == Count(b.outcomes, NoProgress) - Count(a.outcomes, NoProgress)
    && y.timeout - x.timeout == Count(b.outcomes, TimedOut) - Count(a.outcomes, TimedOut)
    && y.unknown - x.unknown == Count(b.outcomes, Undecided) - Count(a.outcomes, Undecided)
    && y.sat - x.sat == y.generated - x.generated == (y.accepted - x.accepted) + (y.stuck - x.stuck)
  }

  // How many of the visited faults had an answer of each kind.
  ghost function Visits(w: World, from: State, ids: seq<Fault>, n: nat): nat
    requires w.tiers != [] && n <= |ids|
  {
    if n == 0 then 0
    else Visits(w, from, ids, n - 1) + if w.dropping && ids[n - 1] !in SerialRound(w, from, ids[..n - 1]).remaining then 0 else 1
  }

  // The counters moved as the outcomes say, over that many visits.
  ghost predicate Counted(a: State, b: State, visits: nat)
  {
    && Tallied(a, b)
    && b.stats.sat + b.stats.unsat + b.stats.timeout + b.stats.unknown == a.stats.sat + a.stats.unsat + a.stats.timeout + a.stats.unknown + visits
    && 0 <= b.stats.rejected - a.stats.rejected <= b.stats.stuck - a.stats.stuck
  }

  lemma CountEach(outcomes: seq<Outcome>, more: Outcome)
    ensures forall o :: Count(outcomes + [more], o) == Count(outcomes, o) + if more == o then 1 else 0
  {
    forall o ensures Count(outcomes + [more], o) == Count(outcomes, o) + if more == o then 1 else 0 {
      CountMore(outcomes, o, more);
    }
  }

  lemma AcceptTallies(w: World, b: State, f: Fault, v: Vector)
    ensures var a := Accept(w, b, f, v); Counted(b, a, 1) && a.stats.unsat == b.stats.unsat && a.stats.rejected == b.stats.rejected
  {
    CountEach(b.outcomes, Accepted);
    hide Count, Record, Newly;
  }

  lemma RejectTallies(w: World, b: State, f: Fault, v: Vector, seen: bool)
    ensures var a := Reject(w, b, f, v, seen);
            Counted(b, a, 1) && a.stats.unsat == b.stats.unsat && a.stats.rejected == b.stats.rejected + if seen then 0 else 1
  {
    CountEach(b.outcomes, NoProgress);
    hide Count, Blocked;
  }

  lemma OtherTallies(w: World, b: State, f: Fault, verdict: Verdict)
    requires !verdict.Sat?
    ensures var a := Process(w, b, f, verdict);
            Counted(b, a, 1) && a.stats.unsat - b.stats.unsat == (if verdict.Unsat? then 1 else 0) && a.stats.rejected == b.stats.rejected
  {
    CountEach(b.outcomes, TimedOut);
    CountEach(b.outcomes, Undecided);
    hide Count, Tries;
  }

  // One answer is counted once; a rejection is a new candidate that failed the check.
  lemma ProcessTallies(w: World, b: State, f: Fault, verdict: Verdict)
    ensures var a := Process(w, b, f, verdict);
            && Counted(b, a, 1)
            && a.stats.unsat - b.stats.unsat == (if verdict.Unsat? then 1 else 0)
            && a.stats.rejected - b.stats.rejected == (if verdict.Sat? && w.key(verdict.vector) !in b.seen && !w.verify(f, verdict.vector) then 1 else 0)
  {
    hide Counted, Accept, Reject;
    if verdict.Sat? {
      AcceptTallies(w, b, f, verdict.vector);
      RejectTallies(w, b, f, verdict.vector, w.key(verdict.vector) in b.seen);
    } else {
      OtherTallies(w, b, f, verdict);
    }
  }

  lemma CountedChain(a: State, b: State, c: State, n: nat, k: nat)
    requires Counted(a, b, n) && Counted(b, c, k)
    ensures Counted(a, c, n + k)
  {
    hide Count;
  }

  lemma CountedSelf(a: State)
    ensures Counted(a, a, 0)
  {
    hide Count;
  }

  /** Over any prefix of a round: every visited fault is counted once, by its answer;
      accepted vectors are the ones appended; what was generated was accepted or
      turned down; and the counters agree with the recorded outcomes. */
  lemma {:induction false} RoundTallies(w: World, from: State, ids: seq<Fault>, n: nat)
    requires w.tiers != [] && n <= |ids|
    ensures Counted(from, SerialRound(w, from, ids[..n]), Visits(w, from, ids, n))
    decreases n
  {
    hide Counted, Process, Ask;
    if n == 0 {
      assert ids[..0] == [];
      CountedSelf(from);
    } else {
      assert ids[..n][..n - 1] == ids[..n - 1];
      RoundTallies(w, from, ids, n - 1);
      var b, f := SerialRound(w, from, ids[..n - 1]), ids[n - 1];
      if !Skipped(w, b, f) {
        ProcessTallies(w, b, f, Ask(w, b, f));
        CountedChain(from, b, Process(w, b, f, Ask(w, b, f)), Visits(w, from, ids, n - 1), 1);
      }
    }
  }

  /* ---- what was appended was checked ---- */

  // The solver gave the vector for the fault, and the check passed it.
  ghost predicate Earned(w: World, f: Fault, v: Vector)
  {
    w.verify(f, v) && exists keys, t :: w.solve(f, keys, t) == Sat(v)
  }

  ghost predicate AllEarned(w: World, ids: seq<Fault>, vectors: seq<Vector>, start: nat)
  {
    forall i :: start <= i < |vectors| ==> exists f :: f in ids && Earned(w, f, vectors[i])
  }

  /** Whatever the solver and the check are: each vector a SAT round appends is one
      the solver gave for a fault of the round and the check passed for that fault. */
  lemma {:induction false} RoundEarns(w: World, from: State, ids: seq<Fault>, n: nat)
    requires w.tiers != [] && n <= |ids|
    ensures from.vectors <= SerialRound(w, from, ids[..n]).vectors
    ensures AllEarned(w, ids, SerialRound(w, from, ids[..n]).vectors, |from.vectors|)
    decreases n
  {
    hide *;
    if n == 0 {
      NoneEarned(w, from, ids);
    } else {
      RoundEarns(w, from, ids, n - 1);
      var v := TurnEarns(w, from, ids, n - 1);
      EarnedMore(w, ids, SerialRound(w, from, ids[..n - 1]).vectors, SerialRound(w, from, ids[..n]).vectors, |from.vectors|, ids[n - 1], v);
    }
  }

  lemma NoneEarned(w: World, from: State, ids: seq<Fault>)
    requires w.tiers != []
    ensures SerialRound(w, from, ids[..0]) == from && AllEarned(w, ids, from.vectors, |from.vectors|)
  {
    assert ids[..0] == [];
  }

  lemma EarnedMore(w: World, ids: seq<Fault>, before: seq<Vector>, after: seq<Vector>, start: nat, f: Fault, v: Vector)
    requires AllEarned(w, ids, before, start) && f in ids
    requires after == before || (after == before + [v] && Earned(w, f, v))
    ensures AllEarned(w, ids, after, start) && before <= after
  {
    hide Earned;
  }

  lemma TurnEarns(w: World, from: State, ids: seq<Fault>, i: nat) returns (v: Vector)
    requires w.tiers != [] && i < |ids|
    ensures var b, a := SerialRound(w, from, ids[..i]), SerialRound(w, from, ids[..i + 1]);
            a.vectors == b.vectors || (a.vectors == b.vectors + [v] && Earned(w, ids[i], v))
  {
    var b, f := SerialRound(w, from, ids[..i]), ids[i];
    var keys, k := if f in b.rejected then b.rejected[f] else {}, if f in b.timeouts then b.timeouts[f] else 0;
    RoundAsks(w, from, ids, i, keys, k);
    hide SerialRound, Earned, Answered;
    var t := if k < |w.tiers| then w.tiers[k] else w.tiers[|w.tiers| - 1];
    var a, verdict := SerialRound(w, from, ids[..i + 1]), w.solve(f, keys, t);
    v := if verdict.Sat? then verdict.vector else map[];
    if !(w.dropping && f !in b.remaining) {
      AnsweredVectors(w, b, f, verdict, a);
      if a.vectors != b.vectors {
        EarnedBy(w, f, keys, t);
      }
    }
  }

  lemma AnsweredVectors(w: World, b: State, f: Fault, verdict: Verdict, a: State)
    requires Answered(w, b, f, verdict, a)
    ensures a.vectors == b.vectors || (verdict.Sat? && w.verify(f, verdict.vector) && a.vectors == b.vectors + [verdict.vector])
  {}

  lemma EarnedBy(w: World, f: Fault, keys: set<Key>, t: nat)
    requires w.solve(f, keys, t).Sat? && w.verify(f, w.solve(f, keys, t).vector)
    ensures Earned(w, f, w.solve(f, keys, t).vector)
  {}

  /* ---- escalation over a run ---- */

  lemma TriesAre(s: State, f: Fault)
    ensures Tries(s, f) == if f in s.timeouts then s.timeouts[f] else 0
  {}

  // In one round a fault's tries do not move before its turn, and by at most one at it.
  lemma {:induction false} TriesMove(w: World, from: State, ids: seq<Fault>, n: nat, f: Fault)
    requires w.tiers != [] && Distinct(ids) && n <= |ids|
    ensures var a := SerialRound(w, from, ids[..n]);
            && (f !in ids[..n] ==> Tries(a, f) == Tries(from, f))
            && Tries(from, f) <= Tries(a, f) <= Tries(from, f) + 1
    decreases n
  {
    if n == 0 {
      assert ids[..0] == [];
    } else {
      TriesMove(w, from, ids, n - 1, f);
      assert ids[..n] == ids[..n - 1] + [ids[n - 1]];
      assert ids[..n][..n - 1] == ids[..n - 1];
      var b, g := SerialRound(w, from, ids[..n - 1]), ids[n - 1];
      if g == f {
        assert f !in ids[..n - 1];
      } else {
        OthersTries(w, b, g, f);
      }
      StepTries(w, b, g);
      hide Step, Tries;
    }
  }

  lemma StepTries(w: World, b: State, f: Fault)
    requires w.tiers != []
    ensures Tries(b, f) <= Tries(Step(w, b, f), f) <= Tries(b, f) + 1
  {
    hide Ask;
  }

  // The query a fault gets in a round: at its turn, with the tier of its tries.
  ghost predicate AskedAt(w: World, r: Round, f: Fault, t: nat)
    requires w.tiers != []
  {
    exists i, keys, k: nat ::
      0 <= i < |r.ids| && r.ids[i] == f && Standing(SerialRound(w, r.from, r.ids[..i]), f, keys, k) && k == t
      && !(w.dropping && f !in SerialRound(w, r.from, r.ids[..i]).remaining)
  }

  // A fault active after a round was on its list and was asked.
  lemma ActiveAsked(w: World, r: Round, f: Fault)
    requires w.tiers != [] && Held(w, r) && f in r.to.status && r.to.status[f].Active?
    ensures f in r.ids && f in r.from.status && r.from.status[f].Active? && AskedAt(w, r, f, Tries(r.from, f))
  {
    var ids := r.ids;
    assert ids[..|ids|] == ids && ids[..0] == [];
    assert ToVisit(w, r.from, ids, 0);
    RoundGrows(w, r.from, ids, 0, |ids|);
    assert SerialRound(w, r.from, []) == r.from;
    assert f in r.from.status && r.from.status[f].Active?;
    var i :| 0 <= i < |ids| && ids[i] == f;
    var b := SerialRound(w, r.from, ids[..i]);
    TriesMove(w, r.from, ids, i, f);
    assert f !in ids[..i];
    RoundGrows(w, r.from, ids, i, |ids|);
    StillThere(w, r, i, f);
    TriesAre(b, f);
    var keys := if f in b.rejected then b.rejected[f] else {};
    hide SerialRound, Tries;
    assert Standing(b, f, keys, Tries(r.from, f));
  }

  // An active fault of the round is never dropped from those remaining.
  lemma {:induction false} StillThere(w: World, r: Round, n: nat, f: Fault)
    requires w.tiers != [] && RoundStart(w, r.from, r.ids) && n <= |r.ids| && f in r.ids
    requires var b := SerialRound(w, r.from, r.ids[..n]); f in b.status && b.status[f].Active?
    ensures f in SerialRound(w, r.from, r.ids[..n]).remaining
    decreases n
  {
    if n == 0 {
      assert r.ids[..0] == [];
    } else {
      assert r.ids[..n][..n - 1] == r.ids[..n - 1];
      var b, g := SerialRound(w, r.from, r.ids[..n - 1]), r.ids[n - 1];
      var a := Step(w, b, g);
      StepKeepsActive(w, b, g, f);
      hide Step;
      StillThere(w, r, n - 1, f);
    }
  }

  lemma StepKeepsActive(w: World, b: State, g: Fault, f: Fault)
    requires w.tiers != [] && f in Step(w, b, g).status && Step(w, b, g).status[f].Active?
    ensures f in b.status && b.status[f].Active? && (f in b.remaining ==> f in Step(w, b, g).remaining)
  {
    hide Ask;
  }

  // Between rounds tries only move for a reconvergent fault that has none yet.
  lemma RoundLink(w: World, rounds: seq<Round>, reconv: set<Fault>, i: nat, f: Fault)
    requires w.tiers != [] && History(w, rounds, reconv) && i + 1 < |rounds|
    requires Tries(rounds[0].from, f) == (if f in rounds[0].ids && f in reconv then 1 else 0)
    requires f in reconv ==> 1 <= Tries(rounds[i].from, f)
    ensures Tries(rounds[i].from, f) <= Tries(rounds[i + 1].from, f) <= Tries(rounds[i].from, f) + 1
  {
    var r := rounds[i];
    assert Held(w, r) && GoesOn(rounds[i + 1 - 1].to, rounds[i + 1], reconv);
    assert r.ids[..|r.ids|] == r.ids;
    TriesMove(w, r.from, r.ids, |r.ids|, f);
    assert TierSet(r.to, rounds[i + 1].from, rounds[i + 1].ids, reconv);
    hide SerialRound, Tries;
  }

  // A fault active at the end was active in every round.
  lemma {:induction false} AlwaysActive(w: World, rounds: seq<Round>, reconv: set<Fault>, i: nat, f: Fault)
    requires w.tiers != [] && History(w, rounds, reconv) && i < |rounds|
    requires var s := rounds[|rounds| - 1].to; f in s.status && s.status[f].Active?
    ensures f in rounds[i].to.status && rounds[i].to.status[f].Active? && f in rounds[i].ids && AskedAt(w, rounds[i], f, Tries(rounds[i].from, f))
    decreases |rounds| - i
  {
    hide AskedAt, RoundStart, Tries;
    assert Held(w, rounds[i]);
    if i + 1 < |rounds| {
      AlwaysActive(w, rounds, reconv, i + 1, f);
      assert Held(w, rounds[i + 1]);
      ActiveAsked(w, rounds[i + 1], f);
      assert GoesOn(rounds[i + 1 - 1].to, rounds[i + 1], reconv);
      hide Held, GoesOn;
    }
    ActiveAsked(w, rounds[i], f);
  }

  lemma {:induction false} TriesClimb(w: World, rounds: seq<Round>, reconv: set<Fault>, i: nat, f: Fault)
    requires w.tiers != [] && History(w, rounds, reconv) && i < |rounds|
    requires var s := rounds[|rounds| - 1].to; f in s.status && s.status[f].Active?
    requires Tries(rounds[0].from, f) == (if f in rounds[0].ids && f in reconv then 1 else 0)
    ensures Tries(rounds[0].from, f) <= Tries(rounds[i].from, f)
    ensures i > 0 ==> Tries(rounds[i - 1].from, f) <= Tries(rounds[i].from, f) <= Tries(rounds[i - 1].from, f) + 1
    decreases i
  {
    hide Tries, Held, GoesOn, AskedAt;
    AlwaysActive(w, rounds, reconv, 0, f);
    if i > 0 {
      TriesClimb(w, rounds, reconv, i - 1, f);
      AlwaysActive(w, rounds, reconv, i - 1, f);
      RoundLink(w, rounds, reconv, i - 1, f);
    }
  }

  // A count that climbs by at most one passes every value on the way.
  lemma {:induction false} Passes(w: World, rounds: seq<Round>, reconv: set<Fault>, i: nat, f: Fault, t: nat) returns (k: nat)
    requires w.tiers != [] && History(w, rounds, reconv) && i < |rounds|
    requires var s := rounds[|rounds| - 1].to; f in s.status && s.status[f].Active?
    requires Tries(rounds[0].from, f) == (if f in rounds[0].ids && f in reconv then 1 else 0)
    requires Tries(rounds[0].from, f) <= t <= Tries(rounds[i].from, f)
    ensures k <= i && Tries(rounds[k].from, f) == t
    decreases i
  {
    hide Tries, History;
    if i > 0 && t < Tries(rounds[i].from, f) {
      TriesClimb(w, rounds, reconv, i, f);
      k := Passes(w, rounds, reconv, i - 1, f, t);
    } else {
      k := i;
    }
  }

  /** A stalled run has put every fault still active to the solver in every round, at
      tiers that never go down and skip none: from the first, or the second for a
      reconvergent fault, up to the last. */
  lemma StallEscalates(w: World, rounds: seq<Round>, cfg: Config, status: map<Fault, Status>, f: Fault, t: nat) returns (k: nat)
    requires w.tiers != [] && History(w, rounds, cfg.reconv) && rounds != [] && FirstRound(w, status, rounds[0], cfg)
    requires var last := rounds[|rounds| - 1]; Exhausted(w, last.from, last.ids, last.to) && f in last.to.status && last.to.status[f].Active?
    requires (if f in cfg.reconv then 1 else 0) <= t < |w.tiers|
    ensures forall i :: 0 <= i < |rounds| ==> AskedAt(w, rounds[i], f, Tries(rounds[i].from, f))
    ensures forall i, j :: 0 <= i < j < |rounds| ==> Tries(rounds[i].from, f) <= Tries(rounds[j].from, f)
    ensures k < |rounds| && AskedAt(w, rounds[k], f, t)
  {
    var n := |rounds| - 1;
    assert Tries(rounds[0].from, f) == if f in rounds[0].ids && f in cfg.reconv then 1 else 0;
    assert Tries(rounds[n].from, f) + 1 >= |w.tiers|;
    hide Tries, History, FirstRound, Exhausted, AskedAt;
    forall i | 0 <= i < |rounds| ensures AskedAt(w, rounds[i], f, Tries(rounds[i].from, f)) && f in rounds[i].ids {
      AlwaysActive(w, rounds, cfg.reconv, i, f);
    }
    forall i, j | 0 <= i < j < |rounds| ensures Tries(rounds[i].from, f) <= Tries(rounds[j].from, f) {
      Nondecreasing(w, rounds, cfg.reconv, i, j, f);
    }
    k := Passes(w, rounds, cfg.reconv, n, f, t);
  }

  lemma {:induction false} Nondecreasing(w: World, rounds: seq<Round>, reconv: set<Fault>, i: nat, j: nat, f: Fault)
    requires w.tiers != [] && History(w, rounds, reconv) && i <= j < |rounds|
    requires var s := rounds[|rounds| - 1].to; f in s.status && s.status[f].Active?
    requires Tries(rounds[0].from, f) == (if f in rounds[0].ids && f in reconv then 1 else 0)
    ensures Tries(rounds[i].from, f) <= Tries(rounds[j].from, f)
    decreases j
  {
    hide Tries, History;
    if i < j {
      TriesClimb(w, rounds, reconv, j, f);
      Nondecreasing(w, rounds, reconv, i, j - 1, f);
    }
  }
}
