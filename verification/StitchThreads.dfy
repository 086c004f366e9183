/** One functional cycle of the stitched netlist, and why it stays acyclic
    (faultflow/scan/stitch.py). */
module StitchThreads {
  import opened Netlist
  import opened NetlistEval
  import opened ScanView
  import opened ScanPlan
  import opened Stitch
  import opened StitchAcyclic
  import opened StitchDesign
  import opened StitchRuns
  import opened ScanProtocol

  /* ---- one cycle ---- */

  ghost predicate SameState(m: Module, st: State, st': State) { forall inst :: inst in m.cells ==> st(inst) == st'(inst) }

  lemma StatesSettle(lib: Library, m: Module, f: Fault, env: Inputs, st: State, st': State, v: Valuation)
    requires SameState(m, st, st') && Settled(lib, m, f, env, st', v)
    ensures Settled(lib, m, f, env, st, v)
  {
    hide CellOk, PortOk;
  }

  // Valuations that settle an acyclic module agree on every port and every capture.
  lemma PortsAgree(lib: Library, m: Module, rank: nat -> nat, f: Fault, env: Inputs, st: State, v: Valuation, w: Valuation)
    requires Acyclic(m, rank) && Settled(lib, m, f, env, st, v) && Settled(lib, m, f, env, st, w)
    ensures forall name :: name in m.ports ==> BitsVal(v, m.ports[name].bits) == BitsVal(w, m.ports[name].bits)
    ensures forall inst :: inst in m.cells ==> NextVal(m.cells[inst], st(inst), v) == NextVal(m.cells[inst], st(inst), w)
  {
    hide Settled, CellOk;
    forall name | name in m.ports ensures BitsVal(v, m.ports[name].bits) == BitsVal(w, m.ports[name].bits) {
      var bits := m.ports[name].bits;
      forall i | 0 <= i < |bits| ensures BitVal(v, bits[i]) == BitVal(w, bits[i]) {
        if bits[i].Net? {
          SettledUnique(lib, m, f, env, st, rank, v, w, bits[i].id);
        }
      }
    }
    forall inst | inst in m.cells ensures NextVal(m.cells[inst], st(inst), v) == NextVal(m.cells[inst], st(inst), w) {
      CaptureAgrees(lib, m, rank, f, env, st, v, w, inst);
    }
  }

  lemma CaptureAgrees(lib: Library, m: Module, rank: nat -> nat, f: Fault, env: Inputs, st: State, v: Valuation, w: Valuation, inst: Name)
    requires Acyclic(m, rank) && Settled(lib, m, f, env, st, v) && Settled(lib, m, f, env, st, w) && inst in m.cells
    ensures NextVal(m.cells[inst], st(inst), v) == NextVal(m.cells[inst], st(inst), w)
  {
    var c := m.cells[inst];
    hide Settled;
    forall p | p in c.conns && |c.conns[p]| > 0 ensures BitVal(v, c.conns[p][0]) == BitVal(w, c.conns[p][0]) {
      if c.conns[p][0].Net? {
        SettledUnique(lib, m, f, env, st, rank, v, w, c.conns[p][0].id);
      }
    }
    assert forall p :: PinVal(v, c, p) == PinVal(w, c, p);
  }

  /** One cycle with scan enable low: every original port shows the same and every
      flop captures the same. */
  lemma CycleAgrees(lib: Library, j: Job, rank: nat -> nat, rank': nat -> nat, f: Fault, env: Inputs, st: State, st': State)
    requires j.Valid() && Acyclic(j.m, rank) && Acyclic(j.Stitched(), rank')
    requires FaultBelow(f, j.next) && HoldsFree(j.m, f) && !env(j.sePort, 0) && SameState(j.m, st, st')
    ensures var v, v' := Evaluated(lib, j.m, f, env, st, rank), Evaluated(lib, j.Stitched(), f, env, st', rank');
            && (forall name :: name in j.m.ports ==> BitsVal(v', j.m.ports[name].bits) == BitsVal(v, j.m.ports[name].bits))
            && (forall inst :: inst in j.m.cells ==>
                  && inst in j.Stitched().cells
                  && NextVal(j.Stitched().cells[inst], st'(inst), v') == NextVal(j.m.cells[inst], st(inst), v))
  {
    var m' := j.Stitched();
    hide Acyclic, Settled, HoldsFree, NextVal, Evaluated, BitsVal;
    var v, v' := Evaluated(lib, j.m, f, env, st, rank), Evaluated(lib, m', f, env, st', rank');
    EvaluatedSettles(lib, j.m, f, env, st, rank);
    EvaluatedSettles(lib, m', f, env, st', rank');
    StitchedBack(lib, j, f, env, st', v');
    StatesSettle(lib, j.m, f, env, st, st', v');
    PortsAgree(lib, j.m, rank, f, env, st, v, v');
  }

  /* ---- acyclic ---- */

  // The original's ranks moved up by one, so that the new ports rank lowest.
  ghost function Lifted(next: nat, rank: nat -> nat): nat -> nat
  {
    (n: nat) => if n < next then rank(n) + 1 else 0
  }

  lemma InputsDriven(j: Job, n: nat)
    requires j.Valid() && (Driven(j.m, n) || j.next <= n <= j.Se())
    ensures Driven(j.WithInputs(), n)
  {
    InputPorts(j);
    hide AddInputs, LinksFit, NamesFree, Below;
    var m' := j.WithInputs();
    if Driven(j.m, n) {
      var s :| Drives(j.m, s, n);
      assert Drives(m', s, n);
    } else if n == j.Se() {
      assert m'.ports[j.sePort].bits[0] == Net(n);
      assert Drives(m', PortBit(j.sePort, 0), n);
    } else {
      assert m'.ports[j.ins[n - j.next]].bits[0] == Net(n);
      assert Drives(m', PortBit(j.ins[n - j.next], 0), n);
    }
  }

  lemma InputDriver(j: Job, s: Site, n: nat)
    requires j.Valid() && Drives(j.WithInputs(), s, n)
    ensures n < j.next ==> Drives(j.m, s, n)
    ensures n >= j.next ==> n <= j.Se() && s == PortBit(if n == j.Se() then j.sePort else j.ins[n - j.next], 0)
  {
    InputPorts(j);
    hide AddInputs, LinksFit, NamesFree;
    match s
    case PortBit(name, i) =>
      if name in j.m.ports {
        assert BitsBelow(j.m.ports[name].bits, j.next);
      } else if name in j.ins {
        var c :| 0 <= c < |j.ins| && j.ins[c] == name;
      }
    case CellPin(x, p, i) =>
      assert CellBelow(j.m.cells[x], j.next) && BitsBelow(j.m.cells[x].conns[p], j.next);
  }

  lemma InputsRanked(j: Job, rank: nat -> nat)
    requires j.Valid() && Ranked(j.m, rank)
    ensures Ranked(j.WithInputs(), Lifted(j.next, rank))
  {
    hide AddInputs, LinksFit, NamesFree, FollowsNet;
    var m', r := j.WithInputs(), Lifted(j.next, rank);
    forall x, p, i, n: nat | x in m'.cells && p in m'.cells[x].conns && p in m'.cells[x].outs
                        && 0 <= i < |m'.cells[x].conns[p]| && m'.cells[x].conns[p][i].Net? && FollowsNet(m'.cells[x], n)
      ensures r(n) < r(m'.cells[x].conns[p][i].id)
    {
      OldRanked(j.m, j.next, rank, x, p, i, n);
    }
  }

  lemma InputsAcyclic(j: Job, rank: nat -> nat)
    requires j.Valid() && Acyclic(j.m, rank)
    ensures Acyclic(j.WithInputs(), Lifted(j.next, rank))
  {
    var m' := j.WithInputs();
    InputsRanked(j, rank);
    InputPorts(j);
    hide AddInputs, LinksFit, NamesFree, Below, Driven, Drives, Ranked;
    forall s, t, n: nat | Drives(m', s, n) && Drives(m', t, n) ensures s == t {
      InputDriver(j, s, n);
      InputDriver(j, t, n);
    }
    forall x, p, i | x in m'.cells && p in m'.cells[x].conns && 0 <= i < |m'.cells[x].conns[p]| && m'.cells[x].conns[p][i].Net?
      ensures Driven(m', m'.cells[x].conns[p][i].id)
    {
      InputsDriven(j, m'.cells[x].conns[p][i].id);
    }
    forall name, i | name in m'.ports && 0 <= i < |m'.ports[name].bits| && m'.ports[name].bits[i].Net?
      ensures Driven(m', m'.ports[name].bits[i].id)
    {
      if name in j.ins {
        var c :| 0 <= c < |j.ins| && j.ins[c] == name;
      }
      InputsDriven(j, m'.ports[name].bits[i].id);
    }
  }

  // Every planned flop outranks scan enable and is fed by a driven net.
  ghost predicate LinksRanked(m: Module, links: seq<Link>, se: nat, rank: nat -> nat)
  {
    forall i :: 0 <= i < |links| ==> Driven(m, links[i].feed) && rank(se) < rank(links[i].ff.q)
  }

  lemma {:induction false} LinksAcyclic(m: Module, k: nat, links: seq<Link>, se: nat, rank: nat -> nat) returns (rank': nat -> nat)
    requires Below(m, k) && se < k && LinksFit(m, links, k) && Acyclic(m, rank)
    requires LinksRanked(m, links, se, rank) && Driven(m, se)
    ensures Acyclic(StitchLinks(Stitching(m, k), links, se).m, rank')
    ensures forall n: nat :: n < k ==> rank'(n) == rank(n)
    ensures forall n: nat :: Driven(m, n) ==> Driven(StitchLinks(Stitching(m, k), links, se).m, n)
  {
    hide Below, LinkFits, SoFar, StitchFlop, StitchReady, Acyclic, Driven, MuxRank;
    if links == [] {
      rank' := rank;
    } else {
      var n := |links| - 1;
      var before, link := StitchLinks(Stitching(m, k), links[..n], se), links[n];
      PrefixFits(m, links, k, n);
      StitchedSoFar(m, k, links[..n], se);
      NotYet(links, n);
      NextReady(m, k, links[..n], before, link, se);
      var r := LinksAcyclic(m, k, links[..n], se, rank);
      LinkNets(m, k, link);
      StaysAcyclic(before.m, before.next, link.ff.inst, link.feed, se, r);
      rank' := MuxRank(before.m.cells[link.ff.inst], before.next, r);
      forall x: nat | Driven(m, x) ensures Driven(StitchLinks(Stitching(m, k), links, se).m, x) {
        StaysDriven(before.m, before.next, link.ff.inst, Net(link.feed), se, x);
      }
    }
  }

  lemma LinkNets(m: Module, k: nat, link: Link)
    requires Below(m, k) && LinkFits(m, link, k)
    ensures link.ff.inst in m.cells && QNet(m.cells[link.ff.inst]) == link.ff.q && link.ff.q < k
  {
    PinsBelow(m.cells[link.ff.inst], k);
  }
}
