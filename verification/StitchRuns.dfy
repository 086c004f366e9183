/** The stitched netlist against the original, over whole runs with scan enable
    low (faultflow/scan/stitch.py). */
module StitchRuns {
  import opened Netlist
  import opened NetlistEval
  import opened ScanView
  import opened ScanPlan
  import opened Stitch
  import opened StitchAcyclic
  import opened StitchDesign

  // What the job's names and nets look like once the inputs are in.
  lemma InputPorts(j: Job)
    requires j.Valid()
    ensures var ports := j.WithInputs().ports;
            && (forall x :: x in ports <==> x in j.m.ports || x in j.ins || x == j.sePort)
            && (forall x :: x in j.m.ports ==> ports[x] == j.m.ports[x])
            && (forall c :: 0 <= c < |j.ins| ==> ports[j.ins[c]] == Port(Input, [Net(j.next + c)]))
            && ports[j.sePort] == Port(Input, [Net(j.Se())])
  {
    var names := j.ins + j.outs + [j.sePort];
    assert AllDiffer(j.ins) by {
      forall a, b | 0 <= a < b < |j.ins| ensures j.ins[a] != j.ins[b] {
        assert names[a] == j.ins[a] && names[b] == j.ins[b];
      }
    }
    InputsAdded(j.m.ports, j.ins, j.next);
    forall c | 0 <= c < |j.ins| ensures j.ins[c] !in j.m.ports && j.ins[c] != j.sePort {
      assert names[c] == j.ins[c] && names[|names| - 1] == j.sePort;
    }
    assert names[|names| - 1] == j.sePort;
  }

  lemma OutputNames(j: Job)
    requires j.Valid()
    ensures AllDiffer(j.outs)
    ensures forall x :: x in j.outs ==> x !in j.m.ports && x !in j.ins && x != j.sePort
  {
    var names := j.ins + j.outs + [j.sePort];
    forall a | 0 <= a < |j.outs|
      ensures j.outs[a] !in j.m.ports && j.outs[a] !in j.ins && j.outs[a] != j.sePort
      ensures forall b :: a < b < |j.outs| ==> j.outs[a] != j.outs[b]
    {
      assert names[|j.ins| + a] == j.outs[a] && names[|names| - 1] == j.sePort;
      forall b | a < b < |j.outs| ensures j.outs[a] != j.outs[b] {
        assert names[|j.ins| + b] == j.outs[b];
      }
      forall b | 0 <= b < |j.ins| ensures j.outs[a] != j.ins[b] {
        assert names[b] == j.ins[b];
      }
    }
  }

  lemma InputsReady(j: Job)
    requires j.Valid()
    ensures Below(j.WithInputs(), j.Se() + 1) && LinksFit(j.WithInputs(), j.Links(), j.Se() + 1)
  {
    var m' := j.WithInputs();
    InputPorts(j);
    hide LinkFits, FlopShape, AddInputs;
    forall x | x in m'.ports ensures BitsBelow(m'.ports[x].bits, j.Se() + 1) {
      if x in j.m.ports {
        assert BitsBelow(j.m.ports[x].bits, j.next);
      } else if x in j.ins {
        var c :| 0 <= c < |j.ins| && j.ins[c] == x;
      }
    }
    forall x | x in m'.cells ensures CellBelow(m'.cells[x], j.Se() + 1) {
      CellBelowMore(j.m.cells[x], j.next, j.Se() + 1);
    }
    forall i | 0 <= i < |j.Links()| ensures LinkFits(m', j.Links()[i], j.Se() + 1) {
      SameFit(j.m, m', j.Links()[i], j.Se() + 1);
    }
  }

  lemma SameFit(m: Module, m': Module, link: Link, k: nat)
    requires LinkFits(m, link, k) && m'.cells == m.cells
    ensures LinkFits(m', link, k)
  {}

  // Input ports only add constraints on fresh nets.
  lemma InputsBack(lib: Library, j: Job, f: Fault, env: Inputs, st: State, v: Valuation)
    requires j.Valid() && FaultBelow(f, j.next) && Settled(lib, j.WithInputs(), f, env, st, v)
    ensures Settled(lib, j.m, f, env, st, v) && v(j.Se()) == env(j.sePort, 0)
  {
    var m' := j.WithInputs();
    InputPorts(j);
    hide AddInputs, CellOk, Below, LinksFit, NamesFree;
    assert PortOk(f, env, j.sePort, m'.ports[j.sePort], v);
    assert m'.ports[j.sePort].bits[0] == Net(j.Se());
    forall x | x in j.m.ports ensures PortOk(f, env, x, j.m.ports[x], v) {
      assert m'.ports[x] == j.m.ports[x];
    }
  }

  // Scan inputs carry what the environment drives.
  ghost function WithScan(j: Job, env: Inputs, v: Valuation): Valuation
  {
    (n: nat) => ScanValue(j, env, v, n)
  }

  ghost function ScanValue(j: Job, env: Inputs, v: Valuation, n: nat): bool
  {
    if j.next <= n < j.Se() then env(j.ins[n - j.next], 0) else if n == j.Se() then env(j.sePort, 0) else v(n)
  }

  lemma ScanNet(j: Job, env: Inputs, v: Valuation, c: nat)
    requires c < |j.ins|
    ensures WithScan(j, env, v)(j.next + c) == env(j.ins[c], 0)
  {
    assert ScanValue(j, env, v, j.next + c) == env(j.ins[c], 0);
  }

  lemma InputsForth(lib: Library, j: Job, f: Fault, env: Inputs, st: State, v: Valuation)
    requires j.Valid() && FaultBelow(f, j.next) && Settled(lib, j.m, f, env, st, v)
    ensures var w := WithScan(j, env, v);
            AgreeBelow(v, w, j.next) && w(j.Se()) == env(j.sePort, 0) && Settled(lib, j.WithInputs(), f, env, st, w)
  {
    var m', w := j.WithInputs(), WithScan(j, env, v);
    assert m'.cells == j.m.cells && w(j.Se()) == env(j.sePort, 0) && Below(j.m, j.next);
    assert AgreeBelow(v, w, j.next);
    hide AddInputs, CellOk, Below, LinksFit, NamesFree, Job.Valid, Job.WithInputs, WithScan, PortOk;
    SettledAgree(lib, j.m, f, env, st, v, w, j.next);
    forall x | x in m'.ports ensures PortOk(f, env, x, m'.ports[x], w) {
      ScanPortOk(j, f, env, v, x);
    }
  }

  lemma ScanPortOk(j: Job, f: Fault, env: Inputs, v: Valuation, x: Name)
    requires j.Valid() && x in j.WithInputs().ports
    requires forall name :: name in j.m.ports ==> PortOk(f, env, name, j.m.ports[name], WithScan(j, env, v))
    ensures PortOk(f, env, x, j.WithInputs().ports[x], WithScan(j, env, v))
  {
    InputPorts(j);
    hide AddInputs, Below, LinksFit, NamesFree, Job.Valid, Job.WithInputs;
    if x in j.m.ports {
    } else if x in j.ins {
      var c :| 0 <= c < |j.ins| && j.ins[c] == x;
      ScanNet(j, env, v, c);
      hide WithScan;
    }
  }

  // Output ports constrain nothing.
  lemma OutputsSettle(lib: Library, j: Job, f: Fault, env: Inputs, st: State, v: Valuation)
    requires j.Valid()
    ensures Settled(lib, j.Stitched(), f, env, st, v)
       <==> Settled(lib, j.Scanned(), f, env, st, v)
  {
    StitchedPorts(j);
    hide AddInputs, AddOutputs, CellOk, Below, LinksFit, NamesFree, StitchLinks;
    var s, m' := j.Scanned(), j.Stitched();
    forall x | x in m'.ports && x !in s.ports ensures PortOk(f, env, x, m'.ports[x], v) {
      var c :| 0 <= c < |j.outs| && j.outs[c] == x;
    }
  }

  lemma OutputsFree(j: Job)
    requires j.Valid()
    ensures forall x :: x in j.WithInputs().ports ==> x !in j.outs
  {
    hide AddInputs, LinksFit, NamesFree, Below;
    InputPorts(j);
    OutputNames(j);
  }

  // The stitched module's ports: the original's, the scan inputs and the scan outputs.
  lemma StitchedPorts(j: Job)
    requires j.Valid()
    ensures var s, ports := j.Scanned(), j.Stitched().ports;
            && s.ports == j.WithInputs().ports
            && (forall x :: x in ports <==> x in s.ports || x in j.outs)
            && (forall x :: x in s.ports ==> ports[x] == s.ports[x])
            && (forall c :: 0 <= c < |j.outs| ==> ports[j.outs[c]] == Port(Output, [Net(j.chains[c].scanOut)]))
  {
    hide AddInputs, AddOutputs, StitchLinks, LinksFit, NamesFree, Below;
    assert |j.chains| == |j.ins| == |j.outs|;
    OutputNames(j);
    InputsReady(j);
    PortsKept(j.WithInputs(), j.Se() + 1, j.Links(), j.Se());
    OutputsAdded(j.Scanned().ports, j.outs, j.Tails());
    OutputsFree(j);
  }

  /** With scan enable low, a settled valuation of the stitched netlist settles
      the original as it is, and every flop captures the same value. */
  lemma StitchedBack(lib: Library, j: Job, f: Fault, env: Inputs, st: State, v: Valuation)
    requires j.Valid() && FaultBelow(f, j.next) && HoldsFree(j.m, f) && !env(j.sePort, 0)
    requires Settled(lib, j.Stitched(), f, env, st, v)
    ensures Settled(lib, j.m, f, env, st, v) && SameNexts(j.m, j.Stitched(), st, v)
  {
    OutputsSettle(lib, j, f, env, st, v);
    InputsReady(j);
    assert j.WithInputs().cells == j.m.cells;
    hide StitchLinks, LinksFit, Below, Settled, AddInputs, AddOutputs, NamesFree;
    var s := j.Scanned();
    SeLow(lib, j, f, env, st, v);
    LinksBack(lib, j.WithInputs(), j.Se() + 1, j.Links(), j.Se(), f, env, st, v);
    InputsBack(lib, j, f, env, st, v);
    assert SameNexts(j.m, j.Stitched(), st, v) by {
      hide NextVal;
      assert j.Stitched().cells == s.cells;
    }
  }

  // The scan enable port carries its net in the stitched module too.
  lemma SeLow(lib: Library, j: Job, f: Fault, env: Inputs, st: State, v: Valuation)
    requires j.Valid() && FaultBelow(f, j.next)
    requires Settled(lib, j.Stitched(), f, env, st, v)
    ensures v(j.Se()) == env(j.sePort, 0)
  {
    StitchedPorts(j);
    InputPorts(j);
    hide StitchLinks, LinksFit, Below, AddInputs, AddOutputs, NamesFree, CellOk;
    assert PortOk(f, env, j.sePort, j.Stitched().ports[j.sePort], v);
    assert j.Stitched().ports[j.sePort].bits[0] == Net(j.Se());
  }

  /** Every settled valuation of the original extends to one of the stitched netlist. */
  lemma StitchedForth(lib: Library, j: Job, f: Fault, env: Inputs, st: State, v: Valuation) returns (w: Valuation)
    requires j.Valid() && FaultBelow(f, j.next) && !env(j.sePort, 0)
    requires Settled(lib, j.m, f, env, st, v)
    ensures AgreeBelow(v, w, j.next) && Settled(lib, j.Stitched(), f, env, st, w)
  {
    hide StitchLinks, LinksFit, Below, Settled, AddInputs, AddOutputs, NamesFree, WithScan, Job.Valid, Job.WithInputs, Job.Stitched, Job.Links;
    InputsReady(j);
    InputsForth(lib, j, f, env, st, v);
    w := LinksForth(lib, j.WithInputs(), j.Se() + 1, j.Links(), j.Se(), f, env, st, WithScan(j, env, v));
    OutputsSettle(lib, j, f, env, st, w);
  }
}
