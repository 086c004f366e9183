/** The incremental net index of the view builder (faultflow/scan/atpg_view.py). */
module BitIndexes {
  import opened Netlist

  /* ---- what the index answers, by full scan ---- */

  ghost predicate At(cells: map<Name, Cell>, inst: Name, p: Pin, n: nat)
  {
    inst in cells && p in cells[inst].conns && Net(n) in cells[inst].conns[p]
  }

  ghost predicate OnPort(ports: map<Name, Port>, name: Name, n: nat)
  {
    name in ports && Net(n) in ports[name].bits
  }

  // The distinct (cell, pin) sites of a net.
  ghost function Sites(cells: map<Name, Cell>, n: nat): set<(Name, Pin)>
  {
    set inst, p | inst in cells && p in cells[inst].conns && Net(n) in cells[inst].conns[p] :: (inst, p)
  }

  /* ---- what a rewire does to one pin ---- */

  // The integer bits of a connection.
  function Nets(bits: seq<Bit>): (r: seq<Bit>)
    ensures forall b :: b in r <==> b in bits && b.Net?
    ensures |r| <= |bits|
    ensures (|r| == |bits|) ==> r == bits
    ensures (forall i :: 0 <= i < |bits| ==> bits[i].Net?) ==> r == bits
  {
    if bits == [] then []
    else
      assert bits == [bits[0]] + bits[1..];
      if bits[0].Net? then [bits[0]] + Nets(bits[1..]) else Nets(bits[1..])
  }

  function RewiredBits(bits: seq<Bit>, q: nat, r: nat): seq<Bit>
  {
    if Net(q) in bits then SubBits(Nets(bits), q, r) else bits
  }

  function RewiredCell(c: Cell, q: nat, r: nat): Cell
  {
    c.(conns := map p | p in c.conns :: RewiredBits(c.conns[p], q, r))
  }

  function RewiredCells(cells: map<Name, Cell>, q: nat, r: nat): map<Name, Cell>
  {
    map inst | inst in cells :: RewiredCell(cells[inst], q, r)
  }

  function RewiredPorts(ports: map<Name, Port>, q: nat, r: nat, keep: set<Name>, known: set<Name>): map<Name, Port>
  {
    map name | name in ports ::
      if name in known && name !in keep then Port(ports[name].dir, SubBits(ports[name].bits, q, r))
      else ports[name]
  }

  lemma SubBitsNets(bits: seq<Bit>, q: nat, r: nat)
    ensures forall n: nat :: Net(n) in SubBits(bits, q, r) <==>
              (n != q && Net(n) in bits) || (n == r && Net(q) in bits)
  {
    var s := SubBits(bits, q, r);
    forall n: nat ensures Net(n) in s <==> (n != q && Net(n) in bits) || (n == r && Net(q) in bits) {
      if Net(n) in s {
        var i :| 0 <= i < |s| && s[i] == Net(n);
        assert s[i] == SubBit(bits[i], q, r);
      }
      if n != q && Net(n) in bits {
        var i :| 0 <= i < |bits| && bits[i] == Net(n);
        assert s[i] == SubBit(bits[i], q, r);
      }
      if n == r && Net(q) in bits {
        var i :| 0 <= i < |bits| && bits[i] == Net(q);
        assert s[i] == SubBit(bits[i], q, r);
      }
    }
  }

  lemma RewiredBitsNets(bits: seq<Bit>, q: nat, r: nat)
    requires q != r
    ensures forall n: nat :: Net(n) in RewiredBits(bits, q, r) <==>
              (n != q && Net(n) in bits) || (n == r && Net(q) in bits)
  {
    SubBitsNets(Nets(bits), q, r);
  }

  lemma SubBitsId(bits: seq<Bit>, q: nat, r: nat)
    requires Net(q) !in bits
    ensures SubBits(bits, q, r) == bits
  {
  }

  // No pin that carries the net also carries a constant.
  ghost predicate Unmixed(cells: map<Name, Cell>, q: nat)
  {
    forall inst, p, i :: At(cells, inst, p, q) && 0 <= i < |cells[inst].conns[p]|
                         ==> cells[inst].conns[p][i].Net?
  }

  // An indexed rewire is the full-scan rewire exactly when no pin that carries
  // the net also carries a constant: the index drops such a pin's constants.
  lemma RewireIsSubstitute(cells: map<Name, Cell>, q: nat, r: nat)
    ensures RewiredCells(cells, q, r) == (map inst | inst in cells :: SubCell(cells[inst], q, r))
       <==> Unmixed(cells, q)
  {
    var full := map inst | inst in cells :: SubCell(cells[inst], q, r);
    if Unmixed(cells, q) {
      forall inst | inst in cells ensures RewiredCell(cells[inst], q, r) == SubCell(cells[inst], q, r) {
        var c := cells[inst];
        forall p | p in c.conns ensures RewiredBits(c.conns[p], q, r) == SubBits(c.conns[p], q, r) {
          if Net(q) in c.conns[p] {
            assert At(cells, inst, p, q);
          } else {
            SubBitsId(c.conns[p], q, r);
          }
        }
      }
      assert RewiredCells(cells, q, r) == full;
    }
    if RewiredCells(cells, q, r) == full {
      forall inst, p, i | At(cells, inst, p, q) && 0 <= i < |cells[inst].conns[p]|
        ensures cells[inst].conns[p][i].Net?
      {
        var bits := cells[inst].conns[p];
        assert full[inst] == RewiredCell(cells[inst], q, r);
        assert full[inst].conns[p] == SubBits(bits, q, r);
        assert |SubBits(bits, q, r)| == |SubBits(Nets(bits), q, r)|;
        assert Nets(bits) == bits;
        assert bits[i] in Nets(bits);
      }
    }
  }

  /** A two-bit pin with a constant beside the net loses the constant. */
  lemma MixedPinLost()
    ensures var cells := map[Text("gate") := Cell(Lib("gate"), {}, map[A := [Net(0), Lit(true)]])];
            && !Unmixed(cells, 0)
            && RewiredCells(cells, 0, 1)[Text("gate")].conns[A] == [Net(1)] && SubCell(cells[Text("gate")], 0, 1).conns[A] == [Net(1), Lit(true)]
  {
    var bits := [Net(0), Lit(true)];
    var cells := map[Text("gate") := Cell(Lib("gate"), {}, map[A := bits])];
    assert At(cells, Text("gate"), A, 0) && cells[Text("gate")].conns[A][1] == Lit(true);
    assert bits[..1] == [Net(0)] && bits[..1][..0] == [];
    assert Nets(bits) == [Net(0)] by {
      assert bits[1..] == [Lit(true)] && bits[1..][1..] == [];
      assert Nets([]) == [];
    }
    assert SubBits(bits, 0, 1) == [Net(1), Lit(true)];
    assert SubBits([Net(0)], 0, 1) == [Net(1)];
  }

  // A rewire that has reached only the sites in `done`.
  ghost function Partly(cells: map<Name, Cell>, done: set<(Name, Pin)>, q: nat, r: nat): map<Name, Cell>
  {
    map inst | inst in cells :: cells[inst].(conns := map p | p in cells[inst].conns ::
      if (inst, p) in done then RewiredBits(cells[inst].conns[p], q, r) else cells[inst].conns[p])
  }

  lemma PartlyNone(cells: map<Name, Cell>, q: nat, r: nat)
    ensures Partly(cells, {}, q, r) == cells
  {
    forall inst | inst in cells ensures Partly(cells, {}, q, r)[inst] == cells[inst] {
      assert Partly(cells, {}, q, r)[inst].conns == cells[inst].conns;
    }
  }

  lemma PartlyStep(cells: map<Name, Cell>, done: set<(Name, Pin)>, q: nat, r: nat, inst: Name, pin: Pin)
    requires At(cells, inst, pin, q) && (inst, pin) !in done
    ensures var c := Partly(cells, done, q, r)[inst];
            Partly(cells, done + {(inst, pin)}, q, r)
            == Partly(cells, done, q, r)[inst := c.(conns := c.conns[pin := SubBits(Nets(c.conns[pin]), q, r)])]
  {
    assert RewiredBits(cells[inst].conns[pin], q, r) == SubBits(Nets(cells[inst].conns[pin]), q, r);
    hide RewiredBits;
    hide SubBits;
    hide Nets;
    var before, after := Partly(cells, done, q, r), Partly(cells, done + {(inst, pin)}, q, r);
    var c := before[inst];
    assert after[inst].conns == c.conns[pin := SubBits(Nets(c.conns[pin]), q, r)];
    forall i | i in cells && i != inst ensures after[i] == before[i] {
      assert after[i].conns == before[i].conns;
    }
    hide Partly;
    assert after == before[inst := c.(conns := c.conns[pin := SubBits(Nets(c.conns[pin]), q, r)])];
  }

  lemma PartlyAll(cells: map<Name, Cell>, done: set<(Name, Pin)>, q: nat, r: nat)
    requires forall i, p :: (i, p) in done <==> At(cells, i, p, q)
    ensures Partly(cells, done, q, r) == RewiredCells(cells, q, r)
  {
    forall inst | inst in cells ensures Partly(cells, done, q, r)[inst] == RewiredCell(cells[inst], q, r) {
      var c := cells[inst];
      forall p | p in c.conns
        ensures Partly(cells, done, q, r)[inst].conns[p] == RewiredBits(c.conns[p], q, r)
      {
        assert (inst, p) in done <==> At(cells, inst, p, q);
      }
      assert Partly(cells, done, q, r)[inst].conns == RewiredCell(c, q, r).conns;
    }
  }

  // Where the nets are after a rewire.
  lemma RewiredAt(cells: map<Name, Cell>, q: nat, r: nat)
    requires q != r
    ensures forall n: nat, i, p :: At(RewiredCells(cells, q, r), i, p, n) <==>
              (n != q && At(cells, i, p, n)) || (n == r && At(cells, i, p, q))
  {
    forall n: nat, i, p
      ensures At(RewiredCells(cells, q, r), i, p, n) <==>
                (n != q && At(cells, i, p, n)) || (n == r && At(cells, i, p, q))
    {
      if i in cells && p in cells[i].conns {
        RewiredBitsNets(cells[i].conns[p], q, r);
      }
    }
  }

  lemma RewiredOnPort(ports: map<Name, Port>, q: nat, r: nat, keep: set<Name>, known: set<Name>)
    requires q != r
    ensures forall n: nat, x :: x in known && x !in keep ==>
              (OnPort(RewiredPorts(ports, q, r, keep, known), x, n) <==>
                (n != q && OnPort(ports, x, n)) || (n == r && OnPort(ports, x, q)))
    ensures forall n: nat, x :: x in keep || x !in known ==>
              (OnPort(RewiredPorts(ports, q, r, keep, known), x, n) <==> OnPort(ports, x, n))
  {
    forall n: nat, x | x in known && x !in keep
      ensures OnPort(RewiredPorts(ports, q, r, keep, known), x, n) <==>
                (n != q && OnPort(ports, x, n)) || (n == r && OnPort(ports, x, q))
    {
      if x in ports {
        SubBitsNets(ports[x].bits, q, r);
      }
    }
  }

  ghost function MovedPorts(ports: map<Name, Port>, moved: set<Name>, q: nat, r: nat): map<Name, Port>
  {
    map name | name in ports ::
      if name in moved then Port(ports[name].dir, SubBits(ports[name].bits, q, r)) else ports[name]
  }

  lemma MovedAll(ports: map<Name, Port>, moved: set<Name>, q: nat, r: nat, keep: set<Name>, known: set<Name>)
    requires forall x :: x in moved <==> x in known && x !in keep && OnPort(ports, x, q)
    ensures MovedPorts(ports, moved, q, r) == RewiredPorts(ports, q, r, keep, known)
  {
    forall x | x in ports && x !in moved && x in known && x !in keep
      ensures SubBits(ports[x].bits, q, r) == ports[x].bits
    {
      assert !OnPort(ports, x, q);
      SubBitsId(ports[x].bits, q, r);
    }
  }

  // The sites recorded for a net; a net with no entry has none.
  function Locs<T>(locs: map<nat, set<T>>, n: nat): set<T>
  {
    if n in locs then locs[n] else {}
  }

  ghost function Entry<T>(locs: map<nat, set<T>>, n: nat, sites: set<T>): map<nat, set<T>>
  {
    if sites == {} then locs else locs[n := sites]
  }

  // The index with `done` added to the sites of r.
  ghost function Grown<T>(locs: map<nat, set<T>>, r: nat, done: set<T>): map<nat, set<T>>
  {
    if done == {} then locs else locs[r := Locs(locs, r) + done]
  }

  lemma GrownStep<T>(locs: map<nat, set<T>>, r: nat, done: set<T>, site: T)
    ensures Grown(locs, r, done + {site}) == Grown(locs, r, done)[r := Locs(Grown(locs, r, done), r) + {site}]
  {
    assert done + {site} != {};
    assert Locs(locs, r) + (done + {site}) == Locs(Grown(locs, r, done), r) + {site};
  }

  ghost predicate IndexesPorts(locs: map<nat, set<Name>>, ports: map<Name, Port>, known: set<Name>)
  {
    forall n: nat, name :: name in Locs(locs, n) <==> name in known && OnPort(ports, name, n)
  }

  ghost predicate IndexesCells(locs: map<nat, set<(Name, Pin)>>, cells: map<Name, Cell>)
  {
    forall n: nat, inst, p :: (inst, p) in Locs(locs, n) <==> At(cells, inst, p, n)
  }

  lemma CellIndexMoved(cells: map<Name, Cell>, locs: map<nat, set<(Name, Pin)>>, locs': map<nat, set<(Name, Pin)>>,
                       q: nat, r: nat, done: set<(Name, Pin)>)
    requires q != r && IndexesCells(locs, cells) && done == Locs(locs, q)
    requires locs' == Grown(locs - {q}, r, done)
    ensures Partly(cells, done, q, r) == RewiredCells(cells, q, r)
    ensures IndexesCells(locs', RewiredCells(cells, q, r))
  {
    PartlyAll(cells, done, q, r);
    RewiredAt(cells, q, r);
    forall n: nat, i, p ensures (i, p) in Locs(locs', n) <==> At(RewiredCells(cells, q, r), i, p, n) {
      assert (i, p) in Locs(locs, n) <==> At(cells, i, p, n);
      assert (i, p) in Locs(locs, q) <==> At(cells, i, p, q);
    }
  }

  lemma PortIndexMoved(ports: map<Name, Port>, locs: map<nat, set<Name>>, locs': map<nat, set<Name>>,
                       q: nat, r: nat, keep: set<Name>, known: set<Name>, kept: set<Name>, moved: set<Name>)
    requires q != r && IndexesPorts(locs, ports, known)
    requires kept == Locs(locs, q) * keep && moved == Locs(locs, q) - keep
    requires var base := Entry(locs - {q}, q, kept); locs' == Entry(base, r, if moved == {} then {} else Locs(base, r) + moved)
    ensures MovedPorts(ports, moved, q, r) == RewiredPorts(ports, q, r, keep, known)
    ensures IndexesPorts(locs', RewiredPorts(ports, q, r, keep, known), known)
  {
    assert forall x :: x in Locs(locs, q) <==> x in known && OnPort(ports, x, q);
    MovedAll(ports, moved, q, r, keep, known);
    RewiredOnPort(ports, q, r, keep, known);
    forall n: nat, x
      ensures x in Locs(locs', n) <==> x in known && OnPort(RewiredPorts(ports, q, r, keep, known), x, n)
    {
      assert x in Locs(locs, n) <==> x in known && OnPort(ports, x, n);
    }
  }

  /** Where every net is wired, kept while the module it indexes is edited. */
  class BitIndex {
    var cells: map<Name, Cell>
    var ports: map<Name, Port>
    var cellLocs: map<nat, set<(Name, Pin)>>
    var portLocs: map<nat, set<Name>>
    ghost const known: set<Name>     // the ports present at construction

    ghost predicate Valid()
      reads this
    {
      && known <= ports.Keys
      && IndexesCells(cellLocs, cells)
      && IndexesPorts(portLocs, ports, known)
    }

    constructor (m: Module)
      ensures Valid() && cells == m.cells && ports == m.ports && known == m.ports.Keys
    {
      cells, ports := m.cells, m.ports;
      cellLocs, portLocs := map[], map[];
      known := m.ports.Keys;
      new;
      var todo := cells.Keys;
      while todo != {}
        invariant todo <= cells.Keys && cells == m.cells && ports == m.ports && portLocs == map[]
        invariant forall n: nat, inst, p :: (inst, p) in Locs(cellLocs, n) <==> inst !in todo && At(cells, inst, p, n)
      {
        var inst :| inst in todo;
        IndexCell(inst);
        todo := todo - {inst};
      }
      var left := ports.Keys;
      while left != {}
        invariant left <= ports.Keys && cells == m.cells && ports == m.ports
        invariant forall n: nat, inst, p :: (inst, p) in Locs(cellLocs, n) <==> At(cells, inst, p, n)
        invariant forall n: nat, name :: name in Locs(portLocs, n) <==> name !in left && OnPort(ports, name, n)
      {
        var name :| name in left;
        IndexPort(name);
        left := left - {name};
      }
    }

    // Adds the sites of a cell's pins.
    method IndexCell(inst: Name)
      requires inst in cells
      modifies this`cellLocs
      ensures forall n: nat, i, p :: (i, p) in Locs(cellLocs, n) <==>
                (i, p) in Locs(old(cellLocs), n) || (i == inst && At(cells, inst, p, n))
    {
      var conns := cells[inst].conns;
      var todo := conns.Keys;
      while todo != {}
        invariant todo <= conns.Keys
        invariant forall n: nat, i, p :: (i, p) in Locs(cellLocs, n) <==>
                    (i, p) in Locs(old(cellLocs), n) || (i == inst && p in conns && p !in todo && Net(n) in conns[p])
      {
        var pin :| pin in todo;
        var bits := conns[pin];
        for k := 0 to |bits|
          invariant forall n: nat, i, p :: (i, p) in Locs(cellLocs, n) <==>
                      || (i, p) in Locs(old(cellLocs), n)
                      || (i == inst && p in conns && p !in todo && Net(n) in conns[p])
                      || (i == inst && p == pin && Net(n) in bits[..k])
        {
          ghost var was := cellLocs;
          if bits[k].Net? {
            cellLocs := cellLocs[bits[k].id := Locs(cellLocs, bits[k].id) + {(inst, pin)}];
          }
          assert forall n: nat :: Locs(cellLocs, n) == if bits[k] == Net(n) then Locs(was, n) + {(inst, pin)} else Locs(was, n);
          assert bits[..k + 1] == bits[..k] + [bits[k]];
          assert forall n: nat :: Net(n) in bits[..k + 1] <==> Net(n) in bits[..k] || bits[k] == Net(n);
        }
        assert bits[..|bits|] == bits;
        todo := todo - {pin};
      }
    }

    method IndexPort(name: Name)
      requires name in ports
      modifies this`portLocs
      ensures forall n: nat, x :: x in Locs(portLocs, n) <==>
                x in Locs(old(portLocs), n) || (x == name && OnPort(ports, name, n))
    {
      var bits := ports[name].bits;
      for k := 0 to |bits|
        invariant forall n: nat, x :: x in Locs(portLocs, n) <==>
                    x in Locs(old(portLocs), n) || (x == name && Net(n) in bits[..k])
      {
        ghost var was := portLocs;
        if bits[k].Net? {
          portLocs := portLocs[bits[k].id := Locs(portLocs, bits[k].id) + {name}];
        }
        assert forall n: nat :: Locs(portLocs, n) == if bits[k] == Net(n) then Locs(was, n) + {name} else Locs(was, n);
        assert bits[..k + 1] == bits[..k] + [bits[k]];
        assert forall n: nat :: Net(n) in bits[..k + 1] <==> Net(n) in bits[..k] || bits[k] == Net(n);
      }
      assert bits[..|bits|] == bits;
    }

    // A cell inserted while the view is built.
    method AddCell(inst: Name, c: Cell)
      requires Valid() && inst !in cells
      modifies this`cells, this`cellLocs
      ensures Valid() && cells == old(cells)[inst := c]
    {
      cells := cells[inst := c];
      IndexCell(inst);
    }

    // A port added while the view is built; ports added here are not indexed.
    method AddPort(name: Name, port: Port)
      requires Valid() && name !in ports
      modifies this`ports
      ensures Valid() && ports == old(ports)[name := port]
    {
      ports := ports[name := port];
      assert forall n: nat, x :: x in known ==> (OnPort(ports, x, n) <==> OnPort(old(ports), x, n));
    }

    method RemoveCell(inst: Name)
      requires Valid() && inst in cells
      modifies this`cells, this`cellLocs
      ensures Valid() && cells == old(cells) - {inst}
    {
      var conns := cells[inst].conns;
      var todo := conns.Keys;
      while todo != {}
        invariant todo <= conns.Keys && cells == old(cells)
        invariant forall n: nat, i, p :: (i, p) in Locs(cellLocs, n) <==>
                    At(cells, i, p, n) && (i == inst ==> p in todo)
      {
        var pin :| pin in todo;
        var bits := conns[pin];
        for k := 0 to |bits|
          invariant cells == old(cells)
          invariant forall n: nat, i, p :: (i, p) in Locs(cellLocs, n) <==>
                      At(cells, i, p, n) && (i == inst ==> p in todo) && !(i == inst && p == pin && Net(n) in bits[..k])
        {
          if bits[k].Net? && bits[k].id in cellLocs {
            cellLocs := cellLocs[bits[k].id := cellLocs[bits[k].id] - {(inst, pin)}];
          }
          assert bits[..k + 1] == bits[..k] + [bits[k]];
        }
        assert bits[..|bits|] == bits;
        todo := todo - {pin};
      }
      cells := cells - {inst};
    }

    method ConsumerCount(n: nat) returns (count: nat)
      requires Valid()
      ensures count == |Sites(cells, n)|
    {
      assert Locs(cellLocs, n) == Sites(cells, n) by {
        forall x | x in Sites(cells, n) ensures x in Locs(cellLocs, n) {
          assert At(cells, x.0, x.1, n);
        }
        forall x | x in Locs(cellLocs, n) ensures x in Sites(cells, n) {
          assert (x.0, x.1) == x && At(cells, x.0, x.1, n);
        }
      }
      count := |Locs(cellLocs, n)|;
    }

    // Replaces q by r at every indexed site outside `keep`.
    method Rewire(q: nat, r: nat, keep: set<Name>)
      requires Valid()
      modifies this`cells, this`ports, this`cellLocs, this`portLocs
      ensures Valid()
      ensures q != r ==> cells == RewiredCells(old(cells), q, r)
      ensures q != r ==> ports == RewiredPorts(old(ports), q, r, keep, known)
      ensures q == r ==> cells == old(cells) && ports == old(ports)
    {
      if q == r {
        return;
      }
      RewireCells(q, r);
      RewirePorts(q, r, keep);
    }

    method RewireCells(q: nat, r: nat)
      requires Valid() && q != r
      modifies this`cells, this`cellLocs
      ensures Valid() && cells == RewiredCells(old(cells), q, r)
    {
      ghost var was, locs := cells, cellLocs;
      var todo := Locs(cellLocs, q);
      ghost var done := {};
      cellLocs := cellLocs - {q};
      PartlyNone(was, q, r);
      while todo != {}
        invariant todo !! done && todo + done == Locs(locs, q)
        invariant cells == Partly(was, done, q, r)
        invariant cellLocs == Grown(locs - {q}, r, done)
      {
        var site :| site in todo;
        var (inst, pin) := site;
        assert (inst, pin) in Locs(locs, q);
        PartlyStep(was, done, q, r, inst, pin);
        GrownStep(locs - {q}, r, done, site);
        var c := cells[inst];
        cells := cells[inst := c.(conns := c.conns[pin := SubBits(Nets(c.conns[pin]), q, r)])];
        cellLocs := cellLocs[r := Locs(cellLocs, r) + {site}];
        todo, done := todo - {site}, done + {site};
      }
      CellIndexMoved(was, locs, cellLocs, q, r, done);
    }

    method RewirePorts(q: nat, r: nat, keep: set<Name>)
      requires Valid() && q != r
      modifies this`ports, this`portLocs
      ensures Valid() && ports == RewiredPorts(old(ports), q, r, keep, known)
    {
      ghost var was, locs := ports, portLocs;
      var todo := Locs(portLocs, q);
      var moved: set<Name> := {};
      ghost var all, kept := todo, {};
      portLocs := portLocs - {q};
      while todo != {}
        invariant todo <= all <= was.Keys && moved == all - todo - keep && kept == (all - todo) * keep
        invariant ports == MovedPorts(was, moved, q, r)
        invariant portLocs == Entry(locs - {q}, q, kept)
      {
        var name :| name in todo;
        if name in keep {
          portLocs := portLocs[q := Locs(portLocs, q) + {name}];
          kept := kept + {name};
        } else {
          ports := ports[name := Port(ports[name].dir, SubBits(ports[name].bits, q, r))];
          moved := moved + {name};
        }
        todo := todo - {name};
      }
      if moved != {} {
        portLocs := portLocs[r := Locs(portLocs, r) + moved];
      }
      PortIndexMoved(was, locs, portLocs, q, r, keep, known, kept, moved);
    }
  }
}
