/** A whole module stitched (faultflow/scan/stitch.py stitch_scan_json): the scan
    ports, then every planned flop in turn, then the scan outputs. */
module StitchDesign {
  import opened Netlist
  import opened ScanView
  import opened ScanPlan
  import opened Stitch

  datatype Stitching = Stitching(m: Module, next: nat)

  function StitchLink(s: Stitching, link: Link, se: nat): Stitching
  {
    var inst := link.ff.inst;
    if inst in s.m.cells && s.m.cells[inst].kind.Flop? then
      Stitching(StitchFlop(s.m, s.next, inst, Net(link.feed), se), s.next + Used(s.m.cells[inst]))
    else s
  }

  function StitchLinks(s: Stitching, links: seq<Link>, se: nat): Stitching
  {
    if links == [] then s
    else StitchLink(StitchLinks(s, links[..|links| - 1], se), links[|links| - 1], se)
  }

  predicate EnTag(t: Tag) { t.EnInv? || t.EnD? || t.EnQ? || t.EnOr? }

  ghost predicate LinksDiffer(links: seq<Link>)
  {
    forall i, j :: 0 <= i < j < |links| ==> links[i].ff.inst != links[j].ff.inst
  }

  // The flop a link plans for.
  ghost predicate LinkFits(m: Module, link: Link, k: nat)
  {
    && link.ff.inst in m.cells && FlopShape(m.cells[link.ff.inst]) && OnlyQ(m.cells[link.ff.inst])
    && QNet(m.cells[link.ff.inst]) == link.ff.q && m.cells[link.ff.inst].conns[CLK] == [Net(link.ff.clock)] && link.feed < k
    && (forall t :: EnTag(t) ==> Made(t, link.ff.inst) !in m.cells)
  }

  ghost predicate LinksFit(m: Module, links: seq<Link>, k: nat)
  {
    LinksDiffer(links) && forall i :: 0 <= i < |links| ==> LinkFits(m, links[i], k)
  }

  ghost predicate Linked(links: seq<Link>, inst: Name) { exists i :: 0 <= i < |links| && links[i].ff.inst == inst }

  // How far stitching has got: untouched cells, new gates, fresh ids.
  ghost predicate SoFar(m: Module, k: nat, links: seq<Link>, s: Stitching)
  {
    && s.m.ports == m.ports && k <= s.next && Below(s.m, s.next)
    && (forall x :: x in m.cells ==> x in s.m.cells)
    && (forall x :: x in m.cells && !Linked(links, x) ==> s.m.cells[x] == m.cells[x])
    && (forall x :: x in s.m.cells && x !in m.cells ==> x.Made? && EnTag(x.tag) && Linked(links, x.base))
  }

  lemma GateFits(kind: Kind, a: Bit, b: Bit, y: nat, k: nat)
    requires y < k && (a.Net? ==> a.id < k) && (b.Net? ==> b.id < k)
    ensures CellBelow(Gate2(kind, a, b, y), k)
  {}

  lemma InvFits(a: Bit, y: nat, k: nat)
    requires y < k && (a.Net? ==> a.id < k)
    ensures CellBelow(InvCell(a, y), k)
  {}

  lemma GatesBelow(inst: Name, c: Cell, k: nat)
    requires FlopShape(c) && CellBelow(c, k)
    ensures forall x :: x in Gates(inst, c, k) ==> CellBelow(Gates(inst, c, k)[x], k + Used(c))
  {
    hide CellBelow, HoldMux, InvCell, Gate2;
    PinsBelow(c, k);
    if Muxed(c) {
      var d, q, en, level := OneBit(c, D), QNet(c), OneBit(c, EN).id, c.kind.en;
      MuxCells(inst, d, q, en, level, k);
      InvFits(Net(en), k, k + 4);
      GateFits(And2, d, if level.High? then Net(en) else Net(k), k + 1, k + 4);
      GateFits(And2, Net(q), if level.High? then Net(k) else Net(en), k + 2, k + 4);
      GateFits(Or2, Net(k + 1), Net(k + 2), k + 3, k + 4);
    }
  }

  lemma ScanBelow(c: Cell, k: nat, feed: nat, se: nat)
    requires FlopShape(c) && CellBelow(c, k) && feed < k && se < k
    ensures CellBelow(ScanCell(c, NewD(c, k), Net(feed), se), k + Used(c))
  {
    PinsBelow(c, k);
    assert BitsBelow(c.conns[CLK], k);
  }

  lemma CellBelowMore(c: Cell, k: nat, k': nat)
    requires CellBelow(c, k) && k <= k'
    ensures CellBelow(c, k')
  {
    forall p | p in c.conns ensures BitsBelow(c.conns[p], k') {
      assert BitsBelow(c.conns[p], k);
    }
  }

  lemma FlopBelow(m: Module, k: nat, inst: Name, feed: nat, se: nat)
    requires StitchReady(m, k, inst, se) && feed < k
    ensures Below(StitchFlop(m, k, inst, Net(feed), se), k + Used(m.cells[inst]))
  {
    var c, m' := m.cells[inst], StitchFlop(m, k, inst, Net(feed), se);
    hide FlopShape, CellBelow, ScanCell, Gates, NewD;
    GatesBelow(inst, c, k);
    ScanBelow(c, k, feed, se);
    forall x | x in m'.cells ensures CellBelow(m'.cells[x], k + Used(c)) {
      if x == inst {
      } else if x in Gates(inst, c, k) {
      } else {
        CellBelowMore(m.cells[x], k, k + Used(c));
      }
    }
  }

  lemma NextReady(m: Module, k: nat, links: seq<Link>, s: Stitching, link: Link, se: nat)
    requires SoFar(m, k, links, s) && LinkFits(m, link, k) && !Linked(links, link.ff.inst) && se < k
    ensures StitchReady(s.m, s.next, link.ff.inst, se) && k <= s.next
    ensures link.ff.inst in m.cells && link.ff.inst in s.m.cells
    ensures s.m.cells[link.ff.inst] == m.cells[link.ff.inst] && m.cells[link.ff.inst].kind.Flop?
  {
    hide Below, Gates;
    var inst := link.ff.inst;
    forall x | x in Gates(inst, m.cells[inst], s.next) ensures x !in s.m.cells && x != inst {
      assert EnTag(x.tag) && x == Made(x.tag, inst);
    }
  }

  lemma LinkedMore(links: seq<Link>, link: Link)
    ensures forall x :: Linked(links + [link], x) <==> Linked(links, x) || x == link.ff.inst
  {
    var more := links + [link];
    forall x ensures Linked(more, x) <==> Linked(links, x) || x == link.ff.inst {
      if Linked(links, x) {
        var i :| 0 <= i < |links| && links[i].ff.inst == x;
        assert more[i].ff.inst == x;
      }
      assert more[|links|] == link;
    }
  }

  lemma SoFarStep(m: Module, k: nat, links: seq<Link>, s: Stitching, link: Link, se: nat)
    requires SoFar(m, k, links, s) && LinkFits(m, link, k) && !Linked(links, link.ff.inst) && se < k
    ensures SoFar(m, k, links + [link], StitchLink(s, link, se))
  {
    hide FlopShape, Below, ScanCell, NewD, Linked, Gates;
    var inst := link.ff.inst;
    NextReady(m, k, links, s, link, se);
    FlopBelow(s.m, s.next, inst, link.feed, se);
    LinkedMore(links, link);
    var s' := StitchLink(s, link, se);
    assert s'.m.cells == s.m.cells + Gates(inst, s.m.cells[inst], s.next)
                         + map[inst := ScanCell(s.m.cells[inst], NewD(s.m.cells[inst], s.next), Net(link.feed), se)];
  }

  lemma NotYet(links: seq<Link>, n: nat)
    requires LinksDiffer(links) && n < |links|
    ensures !Linked(links[..n], links[n].ff.inst)
  {
    assert forall i :: 0 <= i < n ==> links[..n][i] == links[i];
  }

  lemma {:induction false} StitchedSoFar(m: Module, k: nat, links: seq<Link>, se: nat)
    requires Below(m, k) && se < k && LinksFit(m, links, k)
    ensures SoFar(m, k, links, StitchLinks(Stitching(m, k), links, se))
  {
    hide Below, LinkFits;
    if links != [] {
      var n := |links| - 1;
      PrefixFits(m, links, k, n);
      StitchedSoFar(m, k, links[..n], se);
      NotYet(links, n);
      SoFarStep(m, k, links[..n], StitchLinks(Stitching(m, k), links[..n], se), links[n], se);
      assert links[..n] + [links[n]] == links;
    }
  }

  lemma PortsKept(m: Module, k: nat, links: seq<Link>, se: nat)
    requires Below(m, k) && se < k && LinksFit(m, links, k)
    ensures StitchLinks(Stitching(m, k), links, se).m.ports == m.ports
  {
    hide StitchLinks, Linked, Below, LinksFit;
    StitchedSoFar(m, k, links, se);
  }

  lemma PrefixFits(m: Module, links: seq<Link>, k: nat, n: nat)
    requires LinksFit(m, links, k) && n <= |links|
    ensures LinksFit(m, links[..n], k)
  {
    hide LinkFits;
    assert forall i :: 0 <= i < n ==> links[..n][i] == links[i];
  }

  /* ---- meaning ---- */

  ghost predicate HoldsFree(m: Module, f: Fault)
  {
    forall inst :: inst in m.cells ==> HoldFree(f, m.cells[inst])
  }

  lemma NextsChain(m: Module, m1: Module, m2: Module, st: State, v: Valuation)
    requires SameNexts(m, m1, st, v) && SameNexts(m1, m2, st, v)
    ensures SameNexts(m, m2, st, v)
  {}

  // A settled valuation of the stitched module settles the original as it is.
  lemma {:induction false} LinksBack(lib: Library, m: Module, k: nat, links: seq<Link>, se: nat,
                                     f: Fault, env: Inputs, st: State, v: Valuation)
    requires Below(m, k) && se < k && LinksFit(m, links, k) && FaultBelow(f, k) && HoldsFree(m, f) && !v(se)
    requires Settled(lib, StitchLinks(Stitching(m, k), links, se).m, f, env, st, v)
    ensures Settled(lib, m, f, env, st, v)
    ensures SameNexts(m, StitchLinks(Stitching(m, k), links, se).m, st, v)
  {
    hide Below, LinkFits, Settled, SoFar, SameNexts, StitchFlop, StitchReady;
    if links == [] {
      assert SameNexts(m, m, st, v) by { NextsSelf(m, st, v); }
    } else {
      var n := |links| - 1;
      var before, link := StitchLinks(Stitching(m, k), links[..n], se), links[n];
      PrefixFits(m, links, k, n);
      StitchedSoFar(m, k, links[..n], se);
      NotYet(links, n);
      NextReady(m, k, links[..n], before, link, se);
      StitchBack(lib, before.m, before.next, link.ff.inst, Net(link.feed), se, f, env, st, v);
      LinksBack(lib, m, k, links[..n], se, f, env, st, v);
      NextsChain(m, before.m, StitchLinks(Stitching(m, k), links, se).m, st, v);
    }
  }

  lemma NextsSelf(m: Module, st: State, v: Valuation)
    ensures SameNexts(m, m, st, v)
  {}

  lemma {:induction false} LinksForth(lib: Library, m: Module, k: nat, links: seq<Link>, se: nat,
                                      f: Fault, env: Inputs, st: State, v: Valuation) returns (w: Valuation)
    requires Below(m, k) && se < k && LinksFit(m, links, k) && FaultBelow(f, k) && !v(se)
    requires Settled(lib, m, f, env, st, v)
    ensures AgreeBelow(v, w, k)
    ensures Settled(lib, StitchLinks(Stitching(m, k), links, se).m, f, env, st, w)
  {
    hide Below, LinkFits, Settled, SoFar, StitchFlop, StitchReady;
    if links == [] {
      w := v;
    } else {
      var n := |links| - 1;
      var before, link := StitchLinks(Stitching(m, k), links[..n], se), links[n];
      PrefixFits(m, links, k, n);
      var u := LinksForth(lib, m, k, links[..n], se, f, env, st, v);
      StitchedSoFar(m, k, links[..n], se);
      NotYet(links, n);
      NextReady(m, k, links[..n], before, link, se);
      w := StitchForth(lib, before.m, before.next, link.ff.inst, Net(link.feed), se, f, env, st, u);
    }
  }

  /* ---- the ports ---- */

  function AddInputs(ports: map<Name, Port>, names: seq<Name>, next: nat): map<Name, Port>
  {
    if names == [] then ports
    else
      var n := |names| - 1;
      AddInputs(ports, names[..n], next)[names[n] := Port(Input, [Net(next + n)])]
  }

  function AddOutputs(ports: map<Name, Port>, names: seq<Name>, nets: seq<nat>): map<Name, Port>
    requires |names| == |nets|
  {
    if names == [] then ports
    else
      var n := |names| - 1;
      AddOutputs(ports, names[..n], nets[..n])[names[n] := Port(Output, [Net(nets[n])])]
  }

  // What stitching is given: the plan, the port names and the first free net.
  datatype Job = Job(m: Module, chains: seq<PlannedChain>, ins: seq<Name>, outs: seq<Name>, sePort: Name, next: nat)
  {
    function Se(): nat { next + |ins| }

    function Links(): seq<Link> { AllLinks(chains) }

    ghost predicate Valid()
    {
      && Below(m, next) && |chains| == |ins| == |outs|
      && NamesFree(m.ports.Keys, ins + outs + [sePort])
      && LinksFit(m, Links(), Se() + 1)
      && (forall c :: 0 <= c < |chains| ==> chains[c].scanOut < Se() + 1)
    }

    function WithInputs(): Module
    {
      Module(AddInputs(m.ports, ins, next)[sePort := Port(Input, [Net(Se())])], m.cells)
    }

    // The module once every planned flop is a scan flop.
    function Scanned(): Module { StitchLinks(Stitching(WithInputs(), Se() + 1), Links(), Se()).m }

    function Tails(): (r: seq<nat>)
      ensures |r| == |chains|
    {
      seq(|chains|, c requires 0 <= c < |chains| => chains[c].scanOut)
    }

    function Stitched(): Module
      requires |chains| == |outs|
    {
      Module(AddOutputs(Scanned().ports, outs, Tails()), Scanned().cells)
    }
  }

  function AllLinks(chains: seq<PlannedChain>): seq<Link>
  {
    if chains == [] then [] else AllLinks(chains[..|chains| - 1]) + chains[|chains| - 1].links
  }

  lemma {:induction false} InputsAdded(ports: map<Name, Port>, names: seq<Name>, next: nat)
    requires AllDiffer(names)
    ensures var r := AddInputs(ports, names, next);
            && (forall x :: x in r <==> x in ports || x in names)
            && (forall x :: x in ports && x !in names ==> r[x] == ports[x])
            && (forall c :: 0 <= c < |names| ==> r[names[c]] == Port(Input, [Net(next + c)]))
  {
    if names != [] {
      var n := |names| - 1;
      InputsAdded(ports, names[..n], next);
      assert names == names[..n] + [names[n]];
      forall c | 0 <= c < |names| ensures AddInputs(ports, names, next)[names[c]] == Port(Input, [Net(next + c)]) {
        if c < n {
          assert names[..n][c] == names[c];
        }
      }
    }
  }

  lemma {:induction false} OutputsAdded(ports: map<Name, Port>, names: seq<Name>, nets: seq<nat>)
    requires AllDiffer(names) && |names| == |nets|
    ensures var r := AddOutputs(ports, names, nets);
            && (forall x :: x in r <==> x in ports || x in names)
            && (forall x :: x in ports && x !in names ==> r[x] == ports[x])
            && (forall c :: 0 <= c < |names| ==> r[names[c]] == Port(Output, [Net(nets[c])]))
  {
    if names != [] {
      var n := |names| - 1;
      OutputsAdded(ports, names[..n], nets[..n]);
      assert names == names[..n] + [names[n]];
      forall c | 0 <= c < |names| ensures AddOutputs(ports, names, nets)[names[c]] == Port(Output, [Net(nets[c])]) {
        if c < n {
          assert names[..n][c] == names[c];
        }
      }
    }
  }
}
