/** Where flattening loses meaning (faultflow/project/assemble.py): one small design
    for each kind of wiring that ComposeExact excludes. */
module ComposeLimits {
  import opened Netlist
  import opened NetlistEval
  import opened Compose
  import opened ScanView

  /* ---- a concrete case ---- */

  const INPUT := Text("a")
  const OUTPUT := Text("y")

  // A block that buffers its input to its output.
  const BUFFER := Block(Text("core"),
                        Module(map[INPUT := Port(Input, [Net(0)]), OUTPUT := Port(Output, [Net(1)])],
                               map[Text("buf") := BufCell(Net(0), 1)]))

  // Glue that ties the input to 1 and brings the output out.
  const GLUE := Module(map[OUTPUT := Port(Output, [Net(0)])],
                       map[Text("core") := Cell(Lib("core"), {Named(OUTPUT)},
                                                map[Named(INPUT) := [Lit(true)], Named(OUTPUT) := [Net(0)]])])

  const RENUMBER: Remap := map[0 := 1, 1 := 0]

  lemma BufferNets(n: nat)
    ensures InBody(BUFFER.body, n) <==> n < 2
  {
    var body := BUFFER.body;
    assert body.ports[INPUT].bits[0] == Net(0) && body.ports[OUTPUT].bits[0] == Net(1);
    if x, p :| x in body.cells && p in body.cells[x].conns && Net(n) in body.cells[x].conns[p] {
      assert body.cells[x] == BufCell(Net(0), 1);
    }
  }

  lemma BufferJoins(n: nat, g: nat, name: Name, i: int)
    ensures Joins(GLUE.cells[BUFFER.inst], BUFFER.body, n, g, name, i) <==> n == 1 && g == 0 && name == OUTPUT && i == 0
  {
    var c, body := GLUE.cells[BUFFER.inst], BUFFER.body;
    assert PortConns(c, INPUT) == [Lit(true)] && PortConns(c, OUTPUT) == [Net(0)];
    assert body.ports[INPUT].bits == [Net(0)] && body.ports[OUTPUT].bits == [Net(1)];
  }

  lemma BufferRemap()
    ensures RemapOk(GLUE.cells[BUFFER.inst], BUFFER.body, RENUMBER, 1, 2)
  {
    var c, body := GLUE.cells[BUFFER.inst], BUFFER.body;
    hide InBody, Joins;
    forall n: nat ensures n in RENUMBER <==> InBody(body, n) {
      BufferNets(n);
    }
    forall n: nat, g: nat, name, i ensures Joins(c, body, n, g, name, i) <==> n == 1 && g == 0 && name == OUTPUT && i == 0 {
      BufferJoins(n, g, name, i);
    }
    assert Joins(c, body, 1, RENUMBER[1], OUTPUT, 0);
  }

  lemma BufferReady()
    ensures SpliceReady(GLUE, BUFFER, [], RENUMBER, 1, 2)
  {
    BufferRemap();
    hide RemapOk;
    assert CellBelow(GLUE.cells[BUFFER.inst], 1);
  }

  lemma FlatSettles(lib: Library, env: Inputs, st: State, u: Valuation)
    requires !u(0) && !u(1)
    ensures Settled(lib, Splice(GLUE, BUFFER, RENUMBER), NoFault, env, st, u)
  {
    hide CellOk, Splice, MapCell, BufCell;
    var flat := Splice(GLUE, BUFFER, RENUMBER);
    forall x | x in flat.cells ensures CellOk(lib, NoFault, flat.cells[x], st(x), u) {
      FlatCell(x);
      BufFlat(lib, st(x), u);
    }
    FlatPorts();
  }

  lemma FlatCell(x: Name)
    requires x in Splice(GLUE, BUFFER, RENUMBER).cells
    ensures Splice(GLUE, BUFFER, RENUMBER).cells[x] == MapCell(BufCell(Net(0), 1), RENUMBER)
  {
    hide MapCell, BufCell;
    assert x !in GLUE.cells || x == BUFFER.inst;
  }

  lemma FlatPorts()
    ensures forall name :: name in Splice(GLUE, BUFFER, RENUMBER).ports ==> Splice(GLUE, BUFFER, RENUMBER).ports[name].dir.Output?
  {
    hide MapCell, SplicedCells;
  }

  /** The tied input is lost: the flat netlist settles with its output at 0, which
      no settled hierarchical design allows. */
  lemma TiedInputLost(lib: Library, env: Inputs, st: State)
    ensures SpliceReady(GLUE, BUFFER, [], RENUMBER, 1, 2)
    ensures Settled(lib, Splice(GLUE, BUFFER, RENUMBER), NoFault, env, st, (n: nat) => false)
    ensures forall v: Valuation, ws: seq<Valuation> :: HierSettled(lib, GLUE, [BUFFER], env, st, v, ws) ==> v(0)
  {
    hide *;
    BufferReady();
    FlatSettles(lib, env, st, (n: nat) => false);
    forall v: Valuation, ws: seq<Valuation> | HierSettled(lib, GLUE, [BUFFER], env, st, v, ws) ensures v(0) {
      HierOutput(lib, env, st, v, ws);
    }
  }

  lemma BufFlat(lib: Library, s: bool, u: Valuation)
    requires !u(0) && !u(1)
    ensures CellOk(lib, NoFault, MapCell(BufCell(Net(0), 1), RENUMBER), s, u)
  {
    BufOk(lib, NoFault, Net(0), 1, s, Inward(u, RENUMBER));
    InwardIs(u, RENUMBER, 0);
    InwardIs(u, RENUMBER, 1);
    CellOkInward(lib, BufCell(Net(0), 1), s, u, RENUMBER);
  }

  lemma HierOutput(lib: Library, env: Inputs, st: State, v: Valuation, ws: seq<Valuation>)
    requires HierSettled(lib, GLUE, [BUFFER], env, st, v, ws)
    ensures v(0)
  {
    var c, body, w := GLUE.cells[BUFFER.inst], BUFFER.body, ws[0];
    assert BlockOk(lib, GLUE, [BUFFER][0], st, v, w);
    assert Wired(c, body, INPUT, 0) && Wired(c, body, OUTPUT, 0);
    assert CellOk(lib, NoFault, body.cells[Text("buf")], InnerState(st, BUFFER.inst)(Text("buf")), w);
    BufOk(lib, NoFault, Net(0), 1, InnerState(st, BUFFER.inst)(Text("buf")), w);
  }

  /* ---- a constant output ---- */

  // A block whose output is tied to 1 inside.
  const TIE_HIGH := Block(Text("core"), Module(map[OUTPUT := Port(Output, [Lit(true)])], map[]))

  // Glue that brings it out.
  const TIE_GLUE := Module(map[OUTPUT := Port(Output, [Net(0)])],
                           map[Text("core") := Cell(Lib("core"), {Named(OUTPUT)}, map[Named(OUTPUT) := [Net(0)]])])

  lemma TieReady()
    ensures SpliceReady(TIE_GLUE, TIE_HIGH, [], map[], 1, 1)
  {
    var c, body := TIE_GLUE.cells[TIE_HIGH.inst], TIE_HIGH.body;
    assert RemapOk(c, body, map[], 1, 1) by {
      assert body.ports[OUTPUT].bits == [Lit(true)];
      assert forall n: nat :: !InBody(body, n);
    }
    hide RemapOk;
    assert CellBelow(c, 1);
  }

  // With no cell and no input any valuation settles.
  lemma TieFlat(lib: Library, env: Inputs, st: State, u: Valuation)
    ensures Settled(lib, Splice(TIE_GLUE, TIE_HIGH, map[]), NoFault, env, st, u)
  {
    assert Splice(TIE_GLUE, TIE_HIGH, map[]).cells == map[];
  }

  lemma TieHier(lib: Library, env: Inputs, st: State, v: Valuation, ws: seq<Valuation>)
    requires HierSettled(lib, TIE_GLUE, [TIE_HIGH], env, st, v, ws)
    ensures v(0)
  {
    assert BlockOk(lib, TIE_GLUE, [TIE_HIGH][0], st, v, ws[0]);
    hide TopOk, BodyOk;
    assert Wired(TIE_GLUE.cells[TIE_HIGH.inst], TIE_HIGH.body, OUTPUT, 0);
  }

  /** The constant is lost: the flat netlist settles with the output at 0, which no
      settled hierarchical design allows. */
  lemma ConstantOutputLost(lib: Library, env: Inputs, st: State)
    ensures SpliceReady(TIE_GLUE, TIE_HIGH, [], map[], 1, 1)
    ensures Settled(lib, Splice(TIE_GLUE, TIE_HIGH, map[]), NoFault, env, st, (n: nat) => false)
    ensures forall v: Valuation, ws: seq<Valuation> :: HierSettled(lib, TIE_GLUE, [TIE_HIGH], env, st, v, ws) ==> v(0)
  {
    hide *;
    TieReady();
    TieFlat(lib, env, st, (n: nat) => false);
    forall v: Valuation, ws: seq<Valuation> | HierSettled(lib, TIE_GLUE, [TIE_HIGH], env, st, v, ws) ensures v(0) {
      TieHier(lib, env, st, v, ws);
    }
  }

  /* ---- a feedthrough ---- */

  // A block that wires its input straight to its output.
  const FEEDTHROUGH := Block(Text("core"), Module(map[INPUT := Port(Input, [Net(0)]), OUTPUT := Port(Output, [Net(0)])], map[]))

  const FEED_GLUE := Module(map[INPUT := Port(Input, [Net(0)]), OUTPUT := Port(Output, [Net(1)])],
                            map[Text("core") := Cell(Lib("core"), {Named(OUTPUT)}, map[Named(INPUT) := [Net(0)], Named(OUTPUT) := [Net(1)]])])

  // The port visited last gives its glue net.
  const FEED_MAP: Remap := map[0 := 1]

  lemma FeedReady()
    ensures SpliceReady(FEED_GLUE, FEEDTHROUGH, [], FEED_MAP, 2, 2)
  {
    var c, body := FEED_GLUE.cells[FEEDTHROUGH.inst], FEEDTHROUGH.body;
    assert PortConns(c, OUTPUT) == [Net(1)] && PortConns(c, INPUT) == [Net(0)];
    assert body.ports[OUTPUT].bits[0] == Net(0);
    assert RemapOk(c, body, FEED_MAP, 2, 2) by {
      assert forall n: nat :: InBody(body, n) <==> n == 0;
      assert Joins(c, body, 0, FEED_MAP[0], OUTPUT, 0);
    }
    assert CellBelow(c, 2);
  }

  // With no cell, only the input is held.
  lemma FeedFlat(lib: Library, env: Inputs, st: State, u: Valuation)
    requires u(0) == env(INPUT, 0)
    ensures Settled(lib, Splice(FEED_GLUE, FEEDTHROUGH, FEED_MAP), NoFault, env, st, u)
  {
    FeedShape();
    hide Splice, CellOk, FEEDTHROUGH;
    var flat := Splice(FEED_GLUE, FEEDTHROUGH, FEED_MAP);
    forall name | name in flat.ports ensures PortOk(NoFault, env, name, flat.ports[name], u) {
      assert name == INPUT || name == OUTPUT;
    }
  }

  lemma FeedShape()
    ensures Splice(FEED_GLUE, FEEDTHROUGH, FEED_MAP).cells == map[]
    ensures Splice(FEED_GLUE, FEEDTHROUGH, FEED_MAP).ports == FEED_GLUE.ports
  {
    hide MapCell;
  }

  lemma FeedHier(lib: Library, env: Inputs, st: State, v: Valuation, ws: seq<Valuation>)
    requires HierSettled(lib, FEED_GLUE, [FEEDTHROUGH], env, st, v, ws)
    ensures v(1) == env(INPUT, 0)
  {
    assert BlockOk(lib, FEED_GLUE, [FEEDTHROUGH][0], st, v, ws[0]);
    assert PortOk(NoFault, env, INPUT, FEED_GLUE.ports[INPUT], v);
    assert FEED_GLUE.ports[INPUT].bits[0] == Net(0);
    hide TopOk, BodyOk;
    var c, body := FEED_GLUE.cells[FEEDTHROUGH.inst], FEEDTHROUGH.body;
    assert Wired(c, body, INPUT, 0) && Wired(c, body, OUTPUT, 0);
  }

  /** The feedthrough is lost: with the input at 1 the flat netlist settles with the
      output at 0, which no settled hierarchical design allows. */
  lemma FeedthroughLost(lib: Library, env: Inputs, st: State)
    requires env(INPUT, 0)
    ensures SpliceReady(FEED_GLUE, FEEDTHROUGH, [], FEED_MAP, 2, 2)
    ensures Settled(lib, Splice(FEED_GLUE, FEEDTHROUGH, FEED_MAP), NoFault, env, st, (n: nat) => n == 0)
    ensures forall v: Valuation, ws: seq<Valuation> :: HierSettled(lib, FEED_GLUE, [FEEDTHROUGH], env, st, v, ws) ==> v(1)
  {
    hide *;
    FeedReady();
    FeedFlat(lib, env, st, (n: nat) => n == 0);
    forall v: Valuation, ws: seq<Valuation> | HierSettled(lib, FEED_GLUE, [FEEDTHROUGH], env, st, v, ws) ensures v(1) {
      FeedHier(lib, env, st, v, ws);
    }
  }
}
