/** A scan chain as a shift register: scan-in feeds position 0, position L-1 is
    scan-out (faultflow/scan/protocol_constants.py, faultflow/scan/protocol.py). */
module ShiftRegister {

  function Shift(reg: seq<bool>, b: bool): (r: seq<bool>)
    ensures |r| == |reg|
  {
    if reg == [] then [] else [b] + reg[..|reg| - 1]
  }

  function ShiftAll(reg: seq<bool>, bits: seq<bool>): (r: seq<bool>)
    ensures |r| == |reg|
    decreases |bits|
  {
    if bits == [] then reg else ShiftAll(Shift(reg, bits[0]), bits[1..])
  }

  function Out(reg: seq<bool>): bool { reg != [] && reg[|reg| - 1] }

  // What scan-out shows over n shifts that feed 0.
  function Unload(reg: seq<bool>, n: nat): (r: seq<bool>)
    ensures |r| == n
    decreases n
  {
    if n == 0 then [] else [Out(reg)] + Unload(Shift(reg, false), n - 1)
  }

  function Zeros(n: nat): (r: seq<bool>)
    ensures |r| == n && forall i :: 0 <= i < n ==> !r[i]
  {
    seq(n, i => false)
  }

  // The bits of load_sequence and unload_sequence: highest position first.
  function Descending(target: map<nat, bool>, length: nat): (r: seq<bool>)
    ensures |r| == length
    ensures forall k :: 0 <= k < length ==> r[k] == (length - 1 - k in target && target[length - 1 - k])
  {
    seq(length, k requires 0 <= k < length => length - 1 - k in target && target[length - 1 - k])
  }

  lemma ShiftAt(reg: seq<bool>, b: bool, p: nat)
    requires p < |reg|
    ensures Shift(reg, b)[p] == if p == 0 then b else reg[p - 1]
  {
  }

  // A register holds the last bits fed to it, the very last one at position 0;
  // what it held before has moved up or out.
  lemma {:induction false} ShiftedIn(reg: seq<bool>, bits: seq<bool>, p: nat)
    requires p < |reg|
    ensures ShiftAll(reg, bits)[p] == if p < |bits| then bits[|bits| - 1 - p] else reg[p - |bits|]
    decreases |bits|
  {
    hide Shift;
    if bits != [] {
      var next, rest := Shift(reg, bits[0]), bits[1..];
      ShiftAt(reg, bits[0], p);
      ShiftedIn(next, rest, p);
      if p >= |bits| {
        ShiftAt(reg, bits[0], p - |rest|);
      } else if p == |rest| {
        ShiftAt(reg, bits[0], 0);
      }
    }
  }

  lemma {:induction false} ShiftAllAppend(reg: seq<bool>, bits: seq<bool>, more: seq<bool>)
    ensures ShiftAll(reg, bits + more) == ShiftAll(ShiftAll(reg, bits), more)
    decreases |bits|
  {
    if bits == [] {
      assert bits + more == more;
    } else {
      assert (bits + more)[1..] == bits[1..] + more;
      ShiftAllAppend(Shift(reg, bits[0]), bits[1..], more);
    }
  }

  // Unloading shows the register from its last position down, then the zeros fed.
  lemma {:induction false} UnloadShows(reg: seq<bool>, n: nat, k: nat)
    requires k < n
    ensures Unload(reg, n)[k] == (k < |reg| && reg[|reg| - 1 - k])
    decreases n
  {
    hide Shift;
    if k > 0 {
      var next := Shift(reg, false);
      UnloadShows(next, n - 1, k - 1);
      if k <= |reg| {
        ShiftAt(reg, false, |reg| - k);
      }
    }
  }

  // Enough shifts tell any two registers apart.
  lemma UnloadTells(r1: seq<bool>, r2: seq<bool>, n: nat)
    requires |r1| == |r2| <= n
    ensures Unload(r1, n) == Unload(r2, n) <==> r1 == r2
  {
    if Unload(r1, n) == Unload(r2, n) {
      forall p | 0 <= p < |r1| ensures r1[p] == r2[p] {
        UnloadShows(r1, n, |r1| - 1 - p);
        UnloadShows(r2, n, |r1| - 1 - p);
      }
    }
  }

  /* ---- a stuck output on the chain ---- */

  // The values the flops drive when the output at position p is stuck at x.
  function Stick(reg: seq<bool>, p: nat, x: bool): (r: seq<bool>)
    ensures |r| == |reg|
  {
    if p < |reg| then reg[p := x] else reg
  }

  function UnloadStuck(reg: seq<bool>, p: nat, x: bool, n: nat): (r: seq<bool>)
    ensures |r| == n
    decreases n
  {
    if n == 0 then [] else [Out(Stick(reg, p, x))] + UnloadStuck(Shift(Stick(reg, p, x), false), p, x, n - 1)
  }

  lemma StuckStep(reg: seq<bool>, p: nat, x: bool)
    requires p < |reg|
    ensures var next := Shift(Stick(reg, p, x), false);
            && |next| == |reg|
            && (forall q :: 0 <= q < |reg| - 1 ==> next[q + 1] == if q == p then x else reg[q])
            && Out(Stick(reg, p, x)) == if p == |reg| - 1 then x else reg[|reg| - 1]
  {
  }

  // Everything that passes the stuck output reads as the stuck value: the bits of
  // positions up to p, and the zeros fed behind them.
  lemma {:induction false} UnloadStuckShows(reg: seq<bool>, p: nat, x: bool, n: nat, k: nat)
    requires k < n && p < |reg|
    ensures UnloadStuck(reg, p, x, n)[k] == if k < |reg| && |reg| - 1 - k > p then reg[|reg| - 1 - k] else x
    decreases n
  {
    hide Shift;
    hide Stick;
    hide Out;
    StuckStep(reg, p, x);
    var next := Shift(Stick(reg, p, x), false);
    if k > 0 {
      UnloadStuckShows(next, p, x, n - 1, k - 1);
      assert UnloadStuck(reg, p, x, n)[k] == UnloadStuck(next, p, x, n - 1)[k - 1];
      if k < |reg| {
        assert next[|reg| - 1 - k + 1] == if |reg| - 1 - k == p then x else reg[|reg| - 1 - k];
      }
    }
  }

  /** Exactly when unloading a chain with a stuck output differs from the
      fault-free unload: a captured value above the output differs, or a
      fault-free value at or below it is not the stuck value, or the output is
      stuck at 1 and zeros follow the chain's own bits. */
  lemma StuckUnloadDiffers(good: seq<bool>, faulty: seq<bool>, p: nat, x: bool, n: nat)
    requires |good| == |faulty| <= n && p < |good|
    ensures Unload(good, n) != UnloadStuck(faulty, p, x, n) <==>
              || (exists q :: p < q < |good| && good[q] != faulty[q])
              || (exists q :: 0 <= q <= p && good[q] != x)
              || (x && |good| < n)
  {
    hide Unload;
    hide UnloadStuck;
    var a, b, len := Unload(good, n), UnloadStuck(faulty, p, x, n), |good|;
    forall k | 0 <= k < n
      ensures a[k] == (k < len && good[len - 1 - k])
      ensures b[k] == if k < len && len - 1 - k > p then faulty[len - 1 - k] else x
    {
      UnloadShows(good, n, k);
      UnloadStuckShows(faulty, p, x, n, k);
    }
    if a != b {
      var k :| 0 <= k < n && a[k] != b[k];
      if k < len {
        assert good[len - 1 - k] == a[k];
      }
    }
    if q :| p < q < len && good[q] != faulty[q] {
      assert a[len - 1 - q] != b[len - 1 - q];
    }
    if q :| 0 <= q <= p && good[q] != x {
      assert a[len - 1 - q] != b[len - 1 - q];
    }
    if x && len < n {
      assert a[len] != b[len];
    }
  }
}
