/** A SAT round with parallel waves (faultflow/runner/progressive_atpg.py,
    faultflow/config.py): faults are solved ahead of their turn, a wave of
    survivors at a time, and still give the serial round's result. */
module Waves {
  import opened Campaign

  /* ---- the order a wave is dispatched in ---- */

  ghost predicate SameFaults(a: seq<Fault>, b: seq<Fault>) { multiset(a) == multiset(b) }

  ghost predicate ByCone(ids: seq<Fault>, cone: Fault -> nat) { forall i, j :: 0 <= i < j < |ids| ==> cone(ids[i]) <= cone(ids[j]) }

  // The faults of one cone size, in their order.
  ghost function Having(ids: seq<Fault>, cone: Fault -> nat, c: nat): seq<Fault>
  {
    if ids == [] then []
    else Having(ids[..|ids| - 1], cone, c) + if cone(ids[|ids| - 1]) == c then [ids[|ids| - 1]] else []
  }

  lemma {:induction false} HavingAppend(a: seq<Fault>, b: seq<Fault>, cone: Fault -> nat, c: nat)
    ensures Having(a + b, cone, c) == Having(a, cone, c) + Having(b, cone, c)
    decreases |b|
  {
    if b == [] {
      assert a + b == a;
    } else {
      var n := |b| - 1;
      HavingAppend(a, b[..n], cone, c);
      assert (a + b)[..|a + b| - 1] == a + b[..n] && (a + b)[|a + b| - 1] == b[n];
    }
  }

  lemma {:induction false} HavingNone(ids: seq<Fault>, cone: Fault -> nat, c: nat)
    requires forall k :: 0 <= k < |ids| ==> cone(ids[k]) > c
    ensures Having(ids, cone, c) == []
  {
    if ids != [] {
      HavingNone(ids[..|ids| - 1], cone, c);
    }
  }

  // Inserting behind everything no larger leaves each size in its order, the new one last.
  lemma InsertStable(sorted: seq<Fault>, i: nat, f: Fault, cone: Fault -> nat, c: nat)
    requires i <= |sorted| && forall k :: i <= k < |sorted| ==> cone(sorted[k]) > cone(f)
    ensures Having(sorted[..i] + [f] + sorted[i..], cone, c) == Having(sorted + [f], cone, c)
  {
    assert sorted == sorted[..i] + sorted[i..];
    HavingAppend(sorted[..i], sorted[i..], cone, c);
    HavingAppend(sorted, [f], cone, c);
    HavingAppend(sorted[..i] + [f], sorted[i..], cone, c);
    HavingAppend(sorted[..i], [f], cone, c);
    if c == cone(f) {
      HavingNone(sorted[i..], cone, c);
    }
  }

  // Insert by cone size, after those of equal size.
  method InsertByCone(sorted: seq<Fault>, f: Fault, cone: Fault -> nat) returns (r: seq<Fault>)
    requires ByCone(sorted, cone)
    ensures ByCone(r, cone) && multiset(r) == multiset(sorted) + multiset{f}
    ensures forall c :: Having(r, cone, c) == Having(sorted + [f], cone, c)
  {
    var i := |sorted|;
    while i > 0 && cone(sorted[i - 1]) > cone(f)
      invariant 0 <= i <= |sorted| && forall k :: i <= k < |sorted| ==> cone(sorted[k]) > cone(f)
    {
      i := i - 1;
    }
    InsertSorts(sorted, i, f, cone);
    InsertMembers(sorted, i, f);
    forall c ensures Having(sorted[..i] + [f] + sorted[i..], cone, c) == Having(sorted + [f], cone, c) {
      InsertStable(sorted, i, f, cone, c);
    }
    hide ByCone, Having;
    r := sorted[..i] + [f] + sorted[i..];
  }

  lemma InsertSorts(sorted: seq<Fault>, i: nat, f: Fault, cone: Fault -> nat)
    requires ByCone(sorted, cone) && i <= |sorted| && (i > 0 ==> cone(sorted[i - 1]) <= cone(f))
    requires forall k :: i <= k < |sorted| ==> cone(sorted[k]) > cone(f)
    ensures ByCone(sorted[..i] + [f] + sorted[i..], cone)
  {
    var r := sorted[..i] + [f] + sorted[i..];
    forall a, b | 0 <= a < b < |r| ensures cone(r[a]) <= cone(r[b]) {
      assert r[a] == if a < i then sorted[a] else if a == i then f else sorted[a - 1];
      assert r[b] == if b < i then sorted[b] else if b == i then f else sorted[b - 1];
      assert a < i ==> cone(sorted[a]) <= cone(sorted[i - 1]);
    }
  }

  lemma InsertMembers(sorted: seq<Fault>, i: nat, f: Fault)
    requires i <= |sorted|
    ensures multiset(sorted[..i] + [f] + sorted[i..]) == multiset(sorted) + multiset{f}
  {
    assert sorted == sorted[..i] + sorted[i..];
  }

  /** A stable sort by cone size. */
  method SortByCone(ids: seq<Fault>, cone: Fault -> nat) returns (r: seq<Fault>)
    ensures ByCone(r, cone) && SameFaults(r, ids)
    ensures forall c :: Having(r, cone, c) == Having(ids, cone, c)
  {
    hide Having;
    r := [];
    assert ids[..0] == [];
    for i := 0 to |ids|
      invariant ByCone(r, cone) && multiset(r) == multiset(ids[..i])
      invariant forall c :: Having(r, cone, c) == Having(ids[..i], cone, c)
    {
      assert ids[..i + 1] == ids[..i] + [ids[i]];
      forall c ensures Having(r + [ids[i]], cone, c) == Having(ids[..i + 1], cone, c) {
        HavingAppend(r, [ids[i]], cone, c);
        HavingAppend(ids[..i], [ids[i]], cone, c);
      }
      r := InsertByCone(r, ids[i], cone);
    }
    assert ids[..|ids|] == ids;
  }

  method TakeFront(items: seq<Fault>, from: nat, back: nat, most: nat) returns (chunk: seq<Fault>, front: nat)
    requires from <= back <= |items|
    ensures front == (if from + most < back then from + most else back) && chunk == items[from..front]
  {
    chunk, front := [], from;
    while |chunk| < most && front < back
      invariant from <= front <= back && chunk == items[from..front] && front - from <= most
    {
      chunk := chunk + [items[front]];
      front := front + 1;
    }
  }

  // From the back, the hardest first.
  method TakeBack(items: seq<Fault>, front: nat, upto: nat, most: nat) returns (chunk: seq<Fault>, back: nat)
    requires front <= upto <= |items|
    ensures back == (if front + most < upto then upto - most else front) && SameFaults(chunk, items[back..upto])
    ensures |chunk| == upto - back && forall k :: 0 <= k < |chunk| ==> chunk[k] == items[upto - 1 - k]
  {
    chunk, back := [], upto;
    while |chunk| < most && back > front
      invariant front <= back <= upto && multiset(chunk) == multiset(items[back..upto])
      invariant |chunk| == upto - back <= most && forall k :: 0 <= k < |chunk| ==> chunk[k] == items[upto - 1 - k]
    {
      assert items[back - 1..upto] == [items[back - 1]] + items[back..upto];
      chunk := chunk + [items[back - 1]];
      back := back - 1;
    }
  }

  // The item at a place: of each chunk of `workers` places, the first `reserve`
  // count up from the front of the list and the rest count down from its back.
  ghost predicate Mixed(items: seq<Fault>, workers: nat, reserve: nat, i: nat, f: Fault)
    requires 0 < reserve < workers
  {
    exists c: nat, o: nat :: PlaceIs(i, c, o, workers) && FromEnd(items, workers, reserve, c, o, f)
  }

  ghost predicate PlaceIs(i: nat, c: nat, o: nat, workers: nat) { i == c * workers + o && o < workers }

  ghost predicate FromEnd(items: seq<Fault>, workers: nat, reserve: nat, c: nat, o: nat, f: Fault)
    requires 0 < reserve < workers
  {
    var at := if o < reserve then c * reserve + o else |items| - 1 - (c * (workers - reserve) + (o - reserve));
    0 <= at < |items| && f == items[at]
  }

  predicate Mixes(n: nat, workers: nat, reserve: int) { n > 0 && workers >= 4 && 0 < reserve < workers }

  /** Easy and hard faults mixed chunk by chunk: a permutation of the list, with
      every place filled from the front or from the back as its chunk says. */
  method InterleaveEasyHard(items: seq<Fault>, workers: nat, reserve: int) returns (r: seq<Fault>)
    ensures SameFaults(r, items) && |r| == |items|
    ensures !Mixes(|items|, workers, reserve) ==> r == items
    ensures Mixes(|items|, workers, reserve) ==> forall i :: 0 <= i < |r| ==> Mixed(items, workers, reserve, i, r[i])
  {
    if items == [] || workers < 4 || reserve <= 0 || reserve >= workers {
      return items;
    }
    hide Mixed, Whole, Accounted, SameFaults;
    r := [];
    var front, back := 0, |items|;     // the items left are items[front..back]
    ghost var chunks: nat := 0;
    WholeStart(|items|, workers, reserve);
    AllLeft(items);
    while front < back
      invariant 0 <= front <= back <= |items| && |r| == |items| - (back - front)
      invariant front < back ==> Whole(|items|, workers, reserve, chunks, front, back, |r|)
      invariant Accounted(items, r, front, back)
      invariant forall i :: 0 <= i < |r| ==> Mixed(items, workers, reserve, i, r[i])
      decreases back - front
    {
      var easy, front' := TakeFront(items, front, back, reserve);
      var hard, back' := TakeBack(items, front', back, workers - reserve);
      ChunkAccounted(items, r, front, front', back', back, hard);
      ChunkPlaced(items, workers, reserve, chunks, front, back, r, easy, hard);
      if front' < back' {
        WholeNext(|items|, workers, reserve, chunks, front, back, |r|);
      }
      r := r + easy + hard;
      front, back := front', back';
      chunks := chunks + 1;
    }
    NoneLeft(items, r, front);
  }

  // Every item is either placed or left between the two ends.
  ghost predicate Accounted(items: seq<Fault>, r: seq<Fault>, front: nat, back: nat)
    requires front <= back <= |items|
  {
    multiset(r) + multiset(items[front..back]) == multiset(items)
  }

  lemma AllLeft(items: seq<Fault>)
    ensures Accounted(items, [], 0, |items|)
  {
    assert items[0..|items|] == items;
  }

  lemma NoneLeft(items: seq<Fault>, r: seq<Fault>, front: nat)
    requires front <= |items| && Accounted(items, r, front, front)
    ensures SameFaults(r, items)
  {
    assert items[front..front] == [];
  }

  lemma ChunkAccounted(items: seq<Fault>, r: seq<Fault>, front: nat, front': nat, back': nat, back: nat, hard: seq<Fault>)
    requires front <= front' <= back' <= back <= |items| && Accounted(items, r, front, back) && SameFaults(hard, items[back'..back])
    ensures Accounted(items, r + items[front..front'] + hard, front', back')
  {
    assert items[front..back] == items[front..front'] + items[front'..back'] + items[back'..back];
  }

  // After that many whole chunks: what is taken from either end.
  ghost predicate Whole(n: nat, workers: nat, reserve: nat, c: nat, front: nat, back: nat, done: nat)
    requires reserve < workers
  {
    front == c * reserve && back == n - c * (workers - reserve) && done == c * workers
  }

  lemma WholeStart(n: nat, workers: nat, reserve: nat)
    requires reserve < workers
    ensures Whole(n, workers, reserve, 0, 0, n, 0)
  {}

  lemma WholeNext(n: nat, workers: nat, reserve: nat, c: nat, front: nat, back: nat, done: nat)
    requires reserve < workers && Whole(n, workers, reserve, c, front, back, done) && back >= workers - reserve
    ensures Whole(n, workers, reserve, c + 1, front + reserve, back - (workers - reserve), done + workers)
  {}

  // One chunk fills its places.
  lemma ChunkPlaced(items: seq<Fault>, workers: nat, reserve: nat, c: nat, front: nat, back: nat, r: seq<Fault>, easy: seq<Fault>, hard: seq<Fault>)
    requires 0 < reserve < workers && Whole(|items|, workers, reserve, c, front, back, |r|) && back <= |items|
    requires |easy| <= reserve && |hard| <= workers - reserve && (hard != [] ==> |easy| == reserve)
    requires forall i :: 0 <= i < |r| ==> Mixed(items, workers, reserve, i, r[i])
    requires front + |easy| <= |items| && easy == items[front..front + |easy|]
    requires |hard| <= back && forall k :: 0 <= k < |hard| ==> hard[k] == items[back - 1 - k]
    ensures var r' := r + easy + hard; forall i :: 0 <= i < |r'| ==> Mixed(items, workers, reserve, i, r'[i])
  {
    var r' := r + easy + hard;
    forall i | 0 <= i < |r'| ensures Mixed(items, workers, reserve, i, r'[i]) {
      if |r| <= i {
        var o: nat := i - |r|;
        assert r'[i] == if o < |easy| then easy[o] else hard[o - |easy|];
        assert PlaceIs(i, c, o, workers) && FromEnd(items, workers, reserve, c, o, r'[i]);
      }
    }
  }

  lemma MembersSame(a: seq<Fault>, b: seq<Fault>, f: Fault)
    requires SameFaults(a, b)
    ensures f in a <==> f in b
  {
    assert f in multiset(a) <==> f in multiset(b);
  }

  /* ---- waves ---- */

  // Results waiting for their fault's turn are what the solver would say then.
  ghost predicate Waiting(w: World, s: State, ids: seq<Fault>, results: map<Fault, Verdict>, n: nat)
    requires w.tiers != []
  {
    forall i :: n <= i < |ids| && ids[i] in results ==> results[ids[i]] == Ask(w, s, ids[i])
  }

  // Everything before the wave position is solved or dropped; everything between
  // the wave position and the current fault is dropped.
  ghost predicate WaveInv(w: World, s: State, ids: seq<Fault>, results: map<Fault, Verdict>, pos: nat, n: nat)
  {
    && pos <= |ids|
    && (forall i :: n <= i < pos && i < |ids| ==> ids[i] in results || Skipped(w, s, ids[i]))
    && (forall i :: pos <= i < n && i < |ids| ==> Skipped(w, s, ids[i]))
    && (forall i :: n <= i < |ids| && ids[i] in results ==> i < pos)
  }

  // The next wave: up to `size` survivors from the wave position on.
  method NextWave(w: World, s: State, ids: seq<Fault>, pos: nat, size: nat) returns (wave: seq<Fault>, pos': nat)
    requires pos <= |ids| && size > 0
    ensures pos <= pos' <= |ids|
    ensures forall i :: pos <= i < pos' ==> ids[i] in wave || Skipped(w, s, ids[i])
    ensures |wave| <= size && forall f :: f in wave ==> exists i :: pos <= i < pos' && ids[i] == f && !Skipped(w, s, f)
    ensures |wave| == size || pos' == |ids|
    ensures forall i :: pos <= i < |ids| && !Skipped(w, s, ids[i]) && (forall k :: pos <= k < i ==> Skipped(w, s, ids[k])) ==> i < pos'
  {
    wave, pos' := [], pos;
    while pos' < |ids| && |wave| < size
      invariant pos <= pos' <= |ids| && |wave| <= size
      invariant forall i :: pos <= i < pos' ==> ids[i] in wave || Skipped(w, s, ids[i])
      invariant forall f :: f in wave ==> exists i :: pos <= i < pos' && ids[i] == f && !Skipped(w, s, f)
      invariant wave == [] ==> forall i :: pos <= i < pos' ==> Skipped(w, s, ids[i])
    {
      var f := ids[pos'];
      pos' := pos' + 1;
      if !w.dropping || f in s.remaining {
        wave := wave + [f];
      }
    }
    assert wave != [] ==> wave[0] in wave;
  }

  // The pool solves a wave; results are keyed by fault.
  method SolveWave(w: World, s: State, wave: seq<Fault>, before: map<Fault, Verdict>) returns (results: map<Fault, Verdict>)
    requires w.tiers != []
    ensures forall f :: f in results <==> f in before || f in wave
    ensures forall f :: f in wave ==> results[f] == Ask(w, s, f)
    ensures forall f :: f in before && f !in wave ==> results[f] == before[f]
  {
    results := before;
    for i := 0 to |wave|
      invariant forall f :: f in results <==> f in before || f in wave[..i]
      invariant forall f :: f in wave[..i] ==> results[f] == Ask(w, s, f)
      invariant forall f :: f in before && f !in wave[..i] ==> results[f] == before[f]
    {
      results := results[wave[i] := Ask(w, s, wave[i])];
    }
    assert wave[..|wave|] == wave;
  }

  // The order a wave is sent in: by cone size if asked for, ties as they were, then easy
  // and hard faults mixed if workers are reserved.
  ghost predicate Sent(wave: seq<Fault>, ordered: bool, cone: Fault -> nat, workers: nat, reserve: int, base: seq<Fault>, sent: seq<Fault>)
  {
    && SameFaults(base, wave) && SameFaults(sent, wave)
    && (if ordered then ByCone(base, cone) && forall c :: Having(base, cone, c) == Having(wave, cone, c) else base == wave)
    && (if Mixes(|base|, workers, reserve) then |sent| == |base| && forall i :: 0 <= i < |sent| ==> Mixed(base, workers, reserve, i, sent[i])
        else sent == base)
  }

  method OrderWave(wave: seq<Fault>, ordered: bool, cone: Fault -> nat, workers: nat, reserve: int) returns (sent: seq<Fault>, ghost base: seq<Fault>)
    ensures Sent(wave, ordered, cone, workers, reserve, base, sent)
  {
    hide Mixed, ByCone, Having;
    sent := wave;
    if ordered {
      sent := SortByCone(sent, cone);
    }
    base := sent;
    if reserve > 0 && workers >= 4 {
      sent := InterleaveEasyHard(sent, workers, reserve);
    }
  }

  // A fault still to be solved is always in the wave built for it.
  method Dispatch(w: World, s: State, ids: seq<Fault>, n: nat, pos: nat, size: nat, before: map<Fault, Verdict>,
                  ordered: bool, cone: Fault -> nat, workers: nat, reserve: int)
    returns (results: map<Fault, Verdict>, pos': nat, ghost wave: seq<Fault>, ghost base: seq<Fault>, sent: seq<Fault>)
    requires w.tiers != [] && Distinct(ids) && n < |ids| && size > 0
    requires WaveInv(w, s, ids, before, pos, n) && Waiting(w, s, ids, before, n)
    requires !Skipped(w, s, ids[n]) && ids[n] !in before
    ensures WaveInv(w, s, ids, results, pos', n) && Waiting(w, s, ids, results, n)
    ensures ids[n] in results && n < pos'
    ensures (|wave| == size || (|wave| < size && pos' == |ids|)) && Sent(wave, ordered, cone, workers, reserve, base, sent)
    ensures forall f :: f in results <==> f in before || f in sent
  {
    assert pos <= n;
    var next;
    next, pos' := NextWave(w, s, ids, pos, size);
    wave := next;
    sent, base := OrderWave(next, ordered, cone, workers, reserve);
    results := SolveWave(w, s, sent, before);
    assert SameFaults(sent, wave);
    hide Sent;
    forall f ensures f in sent <==> f in wave {
      MembersSame(sent, wave, f);
    }
    hide Ask, Skipped;
  }

  /** With parallel waves or without, a round does exactly what the serial round
      does: same vectors, statuses, counters and retry bookkeeping. No fault is
      ever looked up in vain. */
  method SatRound(w: World, s0: State, ids: seq<Fault>, parallel: bool, size: nat,
                  ordered: bool, cone: Fault -> nat, workers: nat, reserve: int) returns (s: State)
    requires w.tiers != [] && Distinct(ids) && size > 0
    ensures s == SerialRound(w, s0, ids)
  {
    hide Ask, Process, Skipped, WaveInv, Waiting, Distinct;
    s := s0;
    var results: map<Fault, Verdict> := map[];
    var pos := 0;
    assert ids[..0] == [];
    WaveStart(w, s0, ids);
    for n := 0 to |ids|
      invariant s == SerialRound(w, s0, ids[..n])
      invariant parallel ==> WaveInv(w, s, ids, results, pos, n) && Waiting(w, s, ids, results, n)
      invariant !parallel ==> results == map[]
    {
      var f := ids[n];
      assert ids[..n + 1][..n] == ids[..n];
      if Skipped(w, s, f) {
        if parallel {
          SkipKeeps(w, s, ids, results, pos, n);
        }
      } else {
        if parallel && f !in results {
          ghost var wave, base;
          var sent;
          results, pos, wave, base, sent := Dispatch(w, s, ids, n, pos, size, results, ordered, cone, workers, reserve);
        }
        var verdict;
        if results != map[] {
          assert f in results;   // never the UNKNOWN default
          verdict := results[f];
          PopKeeps(w, s, ids, results, pos, n);
          results := results - {f};
        } else {
          verdict := w.solve(f, Blocked(s, f), Tier(w, s, f));
        }
        assert verdict == Ask(w, s, f) by { AskIs(w, s, f); }
        if parallel {
          AfterProcess(w, s, ids, results, pos, n, verdict);
        }
        s := Process(w, s, f, verdict);
      }
    }
    assert ids[..|ids|] == ids;
  }

  lemma AskIs(w: World, s: State, f: Fault)
    requires w.tiers != []
    ensures Ask(w, s, f) == w.solve(f, Blocked(s, f), Tier(w, s, f))
  {}

  lemma WaveStart(w: World, s: State, ids: seq<Fault>)
    requires w.tiers != []
    ensures WaveInv(w, s, ids, map[], 0, 0) && Waiting(w, s, ids, map[], 0)
  {}

  lemma SkipKeeps(w: World, s: State, ids: seq<Fault>, results: map<Fault, Verdict>, pos: nat, n: nat)
    requires w.tiers != [] && n < |ids| && Skipped(w, s, ids[n])
    requires WaveInv(w, s, ids, results, pos, n) && Waiting(w, s, ids, results, n)
    ensures WaveInv(w, s, ids, results, pos, n + 1) && Waiting(w, s, ids, results, n + 1)
  {
    hide Ask, Skipped;
  }

  // Taking a fault's own result out leaves the others waiting.
  lemma PopKeeps(w: World, s: State, ids: seq<Fault>, results: map<Fault, Verdict>, pos: nat, n: nat)
    requires w.tiers != [] && Distinct(ids) && n < |ids| && ids[n] in results
    requires WaveInv(w, s, ids, results, pos, n) && Waiting(w, s, ids, results, n)
    ensures results[ids[n]] == Ask(w, s, ids[n])
    ensures WaveInv(w, s, ids, results - {ids[n]}, pos, n + 1) && Waiting(w, s, ids, results - {ids[n]}, n + 1)
  {
    hide Ask, Skipped;
  }

  lemma AfterProcess(w: World, s: State, ids: seq<Fault>, results: map<Fault, Verdict>, pos: nat, n: nat, verdict: Verdict)
    requires w.tiers != [] && Distinct(ids) && n < |ids|
    requires WaveInv(w, s, ids, results, pos, n + 1) && Waiting(w, s, ids, results, n + 1)
    ensures var s' := Process(w, s, ids[n], verdict);
            WaveInv(w, s', ids, results, pos, n + 1) && Waiting(w, s', ids, results, n + 1)
  {
    var s' := Process(w, s, ids[n], verdict);
    forall i | 0 <= i < |ids| && i != n ensures Ask(w, s', ids[i]) == Ask(w, s, ids[i]) && (Skipped(w, s, ids[i]) ==> Skipped(w, s', ids[i])) {
      assert ids[i] != ids[n];
      ProcessOthers(w, s, ids[n], verdict, ids[i]);
    }
  }
}
