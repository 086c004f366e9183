/** The combinational feedback check (faultflow/rule_check/rules.py): an iterative
    depth-first search for a cycle through the nets of combinational cells. */
module CombCycle {
  import opened Netlist

  // A cell as the rules see it: the nets at its inputs and outputs.
  datatype CellFacts = CellFacts(isFf: bool, inputs: seq<nat>, outputs: seq<nat>)

  type Graph = map<nat, seq<nat>>

  function Succs(adj: Graph, n: nat): seq<nat> { if n in adj then adj[n] else [] }

  ghost predicate Edge(adj: Graph, a: nat, b: nat) { b in Succs(adj, a) }

  // A closed walk along the edges.
  ghost predicate Cycle(adj: Graph, c: seq<nat>)
  {
    |c| >= 2 && c[0] == c[|c| - 1] && forall i :: 0 <= i < |c| - 1 ==> Edge(adj, c[i], c[i + 1])
  }

  /* ---- the net graph ---- */

  ghost predicate Reads(cells: seq<CellFacts>, a: nat, b: nat, i: int)
  {
    0 <= i < |cells| && !cells[i].isFf && a in cells[i].inputs && b in cells[i].outputs
  }

  // A combinational cell takes net a to net b.
  ghost predicate Depends(cells: seq<CellFacts>, a: nat, b: nat) { exists i :: Reads(cells, a, b, i) }

  ghost predicate GraphOf(cells: seq<CellFacts>, adj: Graph)
  {
    forall a, b :: Edge(adj, a, b) <==> Depends(cells, a, b) && a != b
  }

  method AddEdges(before: Graph, c: CellFacts) returns (adj: Graph)
    ensures forall a, b :: Edge(adj, a, b) <==> Edge(before, a, b) || (a in c.inputs && b in c.outputs && a != b)
  {
    adj := before;
    for i := 0 to |c.inputs|
      invariant forall a, b :: Edge(adj, a, b) <==> Edge(before, a, b) || (a in c.inputs[..i] && b in c.outputs && a != b)
    {
      ghost var outer := adj;
      var a := c.inputs[i];
      for j := 0 to |c.outputs|
        invariant forall x, b :: Edge(adj, x, b) <==> Edge(outer, x, b) || (x == a && b in c.outputs[..j] && x != b)
      {
        var b := c.outputs[j];
        assert c.outputs[..j + 1] == c.outputs[..j] + [b];
        if a != b {
          adj := adj[a := Succs(adj, a) + [b]];
        }
      }
      assert c.outputs[..|c.outputs|] == c.outputs && c.inputs[..i + 1] == c.inputs[..i] + [a];
    }
    assert c.inputs[..|c.inputs|] == c.inputs;
  }

  method BuildGraph(cells: seq<CellFacts>) returns (adj: Graph)
    ensures GraphOf(cells, adj)
  {
    adj := map[];
    for i := 0 to |cells|
      invariant forall a, b :: Edge(adj, a, b) <==> Depends(cells[..i], a, b) && a != b
    {
      ghost var before := adj;
      if !cells[i].isFf {
        adj := AddEdges(adj, cells[i]);
      }
      forall a: nat, b: nat
        ensures Depends(cells[..i + 1], a, b) <==> Depends(cells[..i], a, b) || (!cells[i].isFf && a in cells[i].inputs && b in cells[i].outputs)
      {
        DependsMore(cells, i, a, b);
      }
    }
    assert cells[..|cells|] == cells;
  }

  lemma DependsMore(cells: seq<CellFacts>, i: nat, a: nat, b: nat)
    requires i < |cells|
    ensures Depends(cells[..i + 1], a, b) <==> Depends(cells[..i], a, b) || (!cells[i].isFf && a in cells[i].inputs && b in cells[i].outputs)
  {
    var front, all := cells[..i], cells[..i + 1];
    if k :| Reads(all, a, b, k) {
      if k < i {
        assert Reads(front, a, b, k);
      }
    }
    if k :| Reads(front, a, b, k) {
      assert Reads(all, a, b, k);
    }
    if !cells[i].isFf && a in cells[i].inputs && b in cells[i].outputs {
      assert Reads(all, a, b, i);
    }
  }

  /* ---- the search ---- */

  datatype Color = Gray | Black

  type Colors = map<nat, Color>

  predicate IsBlack(color: Colors, n: nat) { n in color && color[n].Black? }

  predicate IsGray(color: Colors, n: nat) { n in color && color[n].Gray? }

  // A frame: a net on the path, and how many of its successors are done.
  datatype Frame = Frame(node: nat, idx: nat)

  // A finished net has finished successors only, each finished before it.
  ghost predicate Finished(adj: Graph, color: Colors, fin: map<nat, nat>, clock: nat)
  {
    forall n :: IsBlack(color, n) ==>
      n in fin && fin[n] < clock && forall m :: Edge(adj, n, m) ==> IsBlack(color, m) && m in fin && fin[m] < fin[n]
  }

  // The frames are the gray nets, each followed by the successor being explored.
  ghost predicate OnStack(adj: Graph, color: Colors, stack: seq<Frame>)
  {
    && (forall i :: 0 <= i < |stack| ==> IsGray(color, stack[i].node) && stack[i].idx <= |Succs(adj, stack[i].node)|)
    && (forall n :: IsGray(color, n) ==> exists i :: 0 <= i < |stack| && stack[i].node == n)
    && (forall i, j :: 0 <= i < j < |stack| ==> stack[i].node != stack[j].node)
    && (forall i :: 0 <= i < |stack| - 1 ==> stack[i].idx > 0 && Succs(adj, stack[i].node)[stack[i].idx - 1] == stack[i + 1].node)
  }

  // Successors already looked at are finished, but for the one being explored.
  ghost predicate Explored(adj: Graph, color: Colors, stack: seq<Frame>)
  {
    forall i, k :: 0 <= i < |stack| && 0 <= k < (if i == |stack| - 1 then stack[i].idx else stack[i].idx - 1) && k < |Succs(adj, stack[i].node)|
      ==> IsBlack(color, Succs(adj, stack[i].node)[k])
  }

  function Path(stack: seq<Frame>): (r: seq<nat>)
    ensures |r| == |stack|
  {
    seq(|stack|, i requires 0 <= i < |stack| => stack[i].node)
  }

  lemma GrayOnPath(adj: Graph, color: Colors, stack: seq<Frame>, n: nat)
    requires OnStack(adj, color, stack) && IsGray(color, n)
    ensures n in Path(stack)
  {
    var i :| 0 <= i < |stack| && stack[i].node == n;
    assert Path(stack)[i] == n;
  }

  lemma PathOne(n: nat)
    ensures Path([Frame(n, 0)]) == [n]
  {}

  // The path follows the stack: unchanged by an advance, longer by a push, shorter by a pop.
  lemma PathMoves(stack: seq<Frame>)
    requires stack != []
    ensures var last := |stack| - 1; var next := stack[last := Frame(stack[last].node, stack[last].idx + 1)];
            && Path(next) == Path(stack) && Path(stack[..last]) == Path(stack)[..last]
            && forall n: nat :: Path(next + [Frame(n, 0)]) == Path(stack) + [n]
  {}

  lemma TopFits(adj: Graph, color: Colors, stack: seq<Frame>)
    requires OnStack(adj, color, stack) && stack != []
    ensures stack[|stack| - 1].idx <= |Succs(adj, stack[|stack| - 1].node)| && stack[|stack| - 1].node in color
  {}

  lemma PathAt(stack: seq<Frame>, i: nat)
    requires i < |stack|
    ensures Path(stack)[i] == stack[i].node
  {}

  lemma NoneGray(adj: Graph, color: Colors)
    requires OnStack(adj, color, [])
    ensures forall n :: !IsGray(color, n)
  {}

  // Meeting a gray net closes a cycle along the path.
  lemma ClosesCycle(adj: Graph, color: Colors, stack: seq<Frame>, at: nat)
    requires OnStack(adj, color, stack) && at < |stack|
    requires Edge(adj, stack[|stack| - 1].node, stack[at].node)
    ensures Cycle(adj, Path(stack)[at..] + [stack[at].node])
  {
    var c := Path(stack)[at..] + [stack[at].node];
    forall i | 0 <= i < |c| - 1 ensures Edge(adj, c[i], c[i + 1]) {
      if i < |c| - 2 {
        var f := stack[at + i];
        assert Succs(adj, f.node)[f.idx - 1] == stack[at + i + 1].node;
      }
    }
  }

  method IndexOf(path: seq<nat>, n: nat) returns (at: nat)
    requires n in path
    ensures at < |path| && path[at] == n
  {
    at := 0;
    while path[at] != n
      invariant at < |path| && n in path[at..]
      decreases |path| - at
    {
      at := at + 1;
    }
  }

  // The stack with one more successor of its top looked at.
  function Advanced(stack: seq<Frame>): (r: seq<Frame>)
    requires stack != []
    ensures |r| == |stack|
  {
    var last := |stack| - 1;
    stack[last := Frame(stack[last].node, stack[last].idx + 1)]
  }

  lemma AdvancedNodes(stack: seq<Frame>, i: nat)
    requires stack != [] && i < |stack|
    ensures Advanced(stack)[i].node == stack[i].node
    ensures Advanced(stack)[i].idx == if i == |stack| - 1 then stack[i].idx + 1 else stack[i].idx
  {}

  lemma AdvanceOn(adj: Graph, color: Colors, stack: seq<Frame>)
    requires OnStack(adj, color, stack) && stack != []
    requires var top := stack[|stack| - 1]; top.idx < |Succs(adj, top.node)|
    ensures OnStack(adj, color, Advanced(stack))
  {
    var next := Advanced(stack);
    forall i | 0 <= i < |stack| ensures next[i].node == stack[i].node && next[i].idx == if i == |stack| - 1 then stack[i].idx + 1 else stack[i].idx {
      AdvancedNodes(stack, i);
    }
    hide Advanced, Succs;
    forall n | IsGray(color, n) ensures exists i :: 0 <= i < |next| && next[i].node == n {
      var i :| 0 <= i < |stack| && stack[i].node == n;
      assert next[i].node == n;
    }
  }

  lemma AdvanceExplored(adj: Graph, color: Colors, stack: seq<Frame>)
    requires Explored(adj, color, stack) && stack != []
    requires var top := stack[|stack| - 1]; top.idx < |Succs(adj, top.node)| && IsBlack(color, Succs(adj, top.node)[top.idx])
    ensures Explored(adj, color, Advanced(stack))
  {
    var next := Advanced(stack);
    forall i, k | 0 <= i < |next| && 0 <= k < (if i == |next| - 1 then next[i].idx else next[i].idx - 1) && k < |Succs(adj, next[i].node)|
      ensures IsBlack(color, Succs(adj, next[i].node)[k])
    {
      AdvancedNodes(stack, i);
      if i < |stack| - 1 || k < stack[i].idx {
        assert IsBlack(color, Succs(adj, stack[i].node)[k]);
      }
    }
  }

  // The stack with the next successor of its top pushed.
  function Pushed(stack: seq<Frame>, n: nat): seq<Frame>
    requires stack != []
  {
    var last := |stack| - 1;
    stack[last := Frame(stack[last].node, stack[last].idx + 1)] + [Frame(n, 0)]
  }

  lemma PushGray(color: Colors, stack: seq<Frame>, n: nat, x: nat)
    requires stack != [] && IsGray(color[n := Gray], x)
    requires IsGray(color, x) ==> exists i :: 0 <= i < |stack| && stack[i].node == x
    ensures exists i :: 0 <= i < |Pushed(stack, n)| && Pushed(stack, n)[i].node == x
  {
    var next := Pushed(stack, n);
    if x == n {
      assert next[|stack|].node == n;
    } else {
      assert IsGray(color, x);
      var i :| 0 <= i < |stack| && stack[i].node == x;
      assert next[i].node == x;
    }
  }

  lemma PushOn(adj: Graph, color: Colors, stack: seq<Frame>, n: nat)
    requires OnStack(adj, color, stack) && stack != [] && n !in color
    requires var top := stack[|stack| - 1]; top.idx < |Succs(adj, top.node)| && Succs(adj, top.node)[top.idx] == n
    ensures OnStack(adj, color[n := Gray], Pushed(stack, n))
  {
    var color', next := color[n := Gray], Pushed(stack, n);
    forall x | IsGray(color', x) ensures exists i :: 0 <= i < |next| && next[i].node == x {
      PushGray(color, stack, n, x);
    }
    forall i | 0 <= i < |stack| ensures next[i].node == stack[i].node && next[i].node != n && IsGray(color', next[i].node) {
      assert IsGray(color, stack[i].node);
    }
    hide Succs;
    forall i | 0 <= i < |next| - 1 ensures next[i].idx > 0 && Succs(adj, next[i].node)[next[i].idx - 1] == next[i + 1].node {
      if i < |stack| - 1 {
        assert next[i] == stack[i] && next[i + 1].node == stack[i + 1].node;
      }
    }
  }

  lemma PushExplored(adj: Graph, color: Colors, stack: seq<Frame>, n: nat)
    requires Explored(adj, color, stack) && stack != [] && n !in color
    ensures Explored(adj, color[n := Gray], Pushed(stack, n))
  {
    var color', next := color[n := Gray], Pushed(stack, n);
    forall i, k | 0 <= i < |next| && 0 <= k < (if i == |next| - 1 then next[i].idx else next[i].idx - 1) && k < |Succs(adj, next[i].node)|
      ensures IsBlack(color', Succs(adj, next[i].node)[k])
    {
      assert i < |stack| && next[i].node == stack[i].node;
      assert IsBlack(color, Succs(adj, stack[i].node)[k]);
    }
  }

  lemma PopOn(adj: Graph, color: Colors, stack: seq<Frame>)
    requires OnStack(adj, color, stack) && stack != []
    ensures OnStack(adj, color[stack[|stack| - 1].node := Black], stack[..|stack| - 1])
  {
    var last := |stack| - 1;
    var top := stack[last];
    var color', next := color[top.node := Black], stack[..last];
    hide Succs;
    forall x | IsGray(color', x) ensures exists i :: 0 <= i < |next| && next[i].node == x {
      assert IsGray(color, x);
      var i :| 0 <= i < |stack| && stack[i].node == x;
      assert next[i].node == x;
    }
    forall i | 0 <= i < |next| ensures IsGray(color', next[i].node) && next[i].idx <= |Succs(adj, next[i].node)| {
      assert IsGray(color, stack[i].node);
    }
  }

  lemma PopExplored(adj: Graph, color: Colors, stack: seq<Frame>)
    requires OnStack(adj, color, stack) && Explored(adj, color, stack) && stack != []
    ensures Explored(adj, color[stack[|stack| - 1].node := Black], stack[..|stack| - 1])
  {
    var last := |stack| - 1;
    var color', next := color[stack[last].node := Black], stack[..last];
    forall i, k | 0 <= i < |next| && 0 <= k < (if i == |next| - 1 then next[i].idx else next[i].idx - 1) && k < |Succs(adj, next[i].node)|
      ensures IsBlack(color', Succs(adj, next[i].node)[k])
    {
      assert next[i] == stack[i];
      if i == last - 1 && k == next[i].idx - 1 {
        assert Succs(adj, stack[i].node)[stack[i].idx - 1] == stack[i + 1].node;
      } else {
        assert IsBlack(color, Succs(adj, stack[i].node)[k]);
      }
    }
  }

  lemma FinishKeeps(adj: Graph, color: Colors, stack: seq<Frame>, fin: map<nat, nat>, clock: nat)
    requires OnStack(adj, color, stack) && Explored(adj, color, stack) && stack != [] && Finished(adj, color, fin, clock)
    requires var top := stack[|stack| - 1]; top.idx == |Succs(adj, top.node)|
    ensures var n := stack[|stack| - 1].node; Finished(adj, color[n := Black], fin[n := clock], clock + 1)
  {
    var last := |stack| - 1;
    var n := stack[last].node;
    forall m | Edge(adj, n, m) ensures IsBlack(color, m) {
      var k :| 0 <= k < |Succs(adj, n)| && Succs(adj, n)[k] == m;
      assert IsBlack(color, Succs(adj, stack[last].node)[k]);
    }
  }

  /* ---- one root ---- */

  // The nets the search can meet.
  function Nets(adj: Graph): (r: set<nat>)
    ensures forall n :: n in adj ==> n in r
    ensures forall n, m :: Edge(adj, n, m) ==> m in r
  {
    adj.Keys + (set n, i | n in adj && 0 <= i < |adj[n]| :: adj[n][i])
  }

  // Search from a root: a cycle, or the root finished with everything below it.
  method Explore(adj: Graph, root: nat, before: Colors, ghost fin0: map<nat, nat>, ghost clock0: nat)
    returns (r: Option<seq<nat>>, color: Colors, ghost fin: map<nat, nat>, ghost clock: nat)
    requires root !in before && root in adj && before.Keys <= Nets(adj)
    requires (forall n :: !IsGray(before, n)) && Finished(adj, before, fin0, clock0)
    ensures r.Some? ==> Cycle(adj, r.value)
    ensures r.None? ==> (forall n :: !IsGray(color, n)) && Finished(adj, color, fin, clock)
    ensures r.None? ==> IsBlack(color, root) && before.Keys <= color.Keys <= Nets(adj)
  {
    hide Finished, Explored, Cycle, OnStack, Path;
    color, fin, clock := before[root := Gray], fin0, clock0;
    var stack, path := [Frame(root, 0)], [root];
    StartKeeps(adj, before, root, fin, clock);
    assert path == Path(stack) by { PathOne(root); }
    while stack != []
      invariant OnStack(adj, color, stack) && Explored(adj, color, stack) && Finished(adj, color, fin, clock)
      invariant path == Path(stack)
      invariant before.Keys <= color.Keys <= Nets(adj) && root in color
      decreases Nets(adj) - color.Keys, |stack|, if stack == [] then 0 else |Succs(adj, stack[|stack| - 1].node)| - stack[|stack| - 1].idx
    {
      var last := |stack| - 1;
      var top := stack[last];
      var succs := Succs(adj, top.node);
      TopFits(adj, color, stack);
      PathMoves(stack);
      if top.idx < |succs| {
        var next := succs[top.idx];
        assert Edge(adj, top.node, next);
        var advanced := stack[last := Frame(top.node, top.idx + 1)];
        if next in color && color[next].Gray? {
          GrayOnPath(adj, color, stack, next);
          var at := IndexOf(path, next);
          PathAt(stack, at);
          ClosesCycle(adj, color, stack, at);
          return Some(path[at..] + [next]), color, fin, clock;
        }
        if next !in color {
          PushOn(adj, color, stack, next);
          PushExplored(adj, color, stack, next);
          FinishedGray(adj, color, fin, clock, next);
          ghost var was := color;
          color := color[next := Gray];
          assert Nets(adj) - color.Keys < Nets(adj) - was.Keys by { assert next in Nets(adj) - was.Keys; }
          stack, path := advanced + [Frame(next, 0)], path + [next];
        } else {
          AdvanceOn(adj, color, stack);
          AdvanceExplored(adj, color, stack);
          stack := advanced;
        }
      } else {
        PopOn(adj, color, stack);
        PopExplored(adj, color, stack);
        FinishKeeps(adj, color, stack, fin, clock);
        ghost var was := color;
        color := color[top.node := Black];
        assert color.Keys == was.Keys;
        fin, clock := fin[top.node := clock], clock + 1;
        stack, path := stack[..last], path[..last];
      }
    }
    NoneGray(adj, color);
    assert !IsGray(color, root);
    r := None;
  }

  lemma StartKeeps(adj: Graph, before: Colors, root: nat, fin: map<nat, nat>, clock: nat)
    requires root !in before && (forall n :: !IsGray(before, n)) && Finished(adj, before, fin, clock)
    ensures var color := before[root := Gray];
            OnStack(adj, color, [Frame(root, 0)]) && Explored(adj, color, [Frame(root, 0)]) && Finished(adj, color, fin, clock)
  {
    var stack := [Frame(root, 0)];
    assert stack[0].node == root;
    FinishedGray(adj, before, fin, clock, root);
    var color := before[root := Gray];
    forall n | IsGray(color, n) ensures n == root {
      assert n != root ==> IsGray(before, n);
    }
  }

  lemma FinishedGray(adj: Graph, color: Colors, fin: map<nat, nat>, clock: nat, n: nat)
    requires n !in color && Finished(adj, color, fin, clock)
    ensures Finished(adj, color[n := Gray], fin, clock)
  {
    var color' := color[n := Gray];
    forall x | IsBlack(color', x)
      ensures x in fin && fin[x] < clock && forall m :: Edge(adj, x, m) ==> IsBlack(color', m) && m in fin && fin[m] < fin[x]
    {
      assert IsBlack(color, x);
    }
  }

  /* ---- all roots ---- */

  // Nets ranked so that every edge goes down: no cycle.
  lemma {:induction false} DownTheEdges(adj: Graph, color: Colors, fin: map<nat, nat>, clock: nat, c: seq<nat>, i: nat)
    requires Finished(adj, color, fin, clock) && (forall n :: n in adj ==> IsBlack(color, n)) && Cycle(adj, c) && 0 < i < |c|
    ensures c[0] in fin && c[i] in fin && fin[c[i]] < fin[c[0]]
    decreases i
  {
    assert Edge(adj, c[i - 1], c[i]);
    assert c[i - 1] in adj && IsBlack(color, c[i - 1]);
    if i > 1 {
      DownTheEdges(adj, color, fin, clock, c, i - 1);
    }
  }

  // A closed walk along dependencies between different nets.
  ghost predicate NetCycle(cells: seq<CellFacts>, c: seq<nat>)
  {
    |c| >= 2 && c[0] == c[|c| - 1] && forall i :: 0 <= i < |c| - 1 ==> Depends(cells, c[i], c[i + 1]) && c[i] != c[i + 1]
  }

  lemma CycleIs(cells: seq<CellFacts>, adj: Graph, c: seq<nat>)
    requires GraphOf(cells, adj)
    ensures Cycle(adj, c) <==> NetCycle(cells, c)
  {
    hide Depends;
    assert forall i :: 0 <= i < |c| - 1 ==> (Edge(adj, c[i], c[i + 1]) <==> Depends(cells, c[i], c[i + 1]) && c[i] != c[i + 1]);
    hide GraphOf, Edge;
  }

  /** A cycle through the nets of combinational cells, self-loops aside, is found
      exactly when there is one. */
  method FindCombCycle(cells: seq<CellFacts>) returns (r: Option<seq<nat>>)
    ensures r.Some? ==> NetCycle(cells, r.value)
    ensures r.None? ==> forall c :: !NetCycle(cells, c)
  {
    hide Finished, GraphOf, Cycle, NetCycle;
    var graph := BuildGraph(cells);
    var color: Colors := map[];
    ghost var fin: map<nat, nat>, clock := map[], 0;
    assert Finished(graph, color, fin, clock) by { NoneFinished(graph); }
    var roots := graph.Keys;
    while roots != {}
      invariant roots <= graph.Keys && color.Keys <= Nets(graph)
      invariant (forall n :: !IsGray(color, n)) && Finished(graph, color, fin, clock)
      invariant forall n :: n in graph && n !in roots ==> n in color
    {
      var root :| root in roots;
      if root !in color {
        var found;
        found, color, fin, clock := Explore(graph, root, color, fin, clock);
        if found.Some? {
          CycleIs(cells, graph, found.value);
          return found;
        }
      }
      roots := roots - {root};
    }
    forall n | n in graph ensures IsBlack(color, n) {
      assert n in color && !IsGray(color, n);
    }
    forall c ensures !NetCycle(cells, c) {
      CycleIs(cells, graph, c);
      if Cycle(graph, c) {
        CycleShape(graph, c);
        DownTheEdges(graph, color, fin, clock, c, |c| - 1);
      }
    }
    r := None;
  }

  lemma NoneFinished(adj: Graph)
    ensures Finished(adj, map[], map[], 0)
  {}

  lemma CycleShape(adj: Graph, c: seq<nat>)
    requires Cycle(adj, c)
    ensures |c| >= 2 && c[0] == c[|c| - 1]
  {}

  /* ---- what leaving self-loops out means ---- */

  // A closed walk along dependencies, self-loops included.
  ghost predicate Feedback(cells: seq<CellFacts>, c: seq<nat>)
  {
    |c| >= 2 && c[0] == c[|c| - 1] && forall i :: 0 <= i < |c| - 1 ==> Depends(cells, c[i], c[i + 1])
  }

  /** There is combinational feedback exactly when the search finds a cycle or some
      cell reads its own output: the search alone misses just the latter. */
  lemma FeedbackIs(cells: seq<CellFacts>)
    ensures (exists c :: Feedback(cells, c)) <==> (exists c :: NetCycle(cells, c)) || (exists a: nat :: Depends(cells, a, a))
  {
    hide Depends;
    if c :| Feedback(cells, c) {
      if i :| 0 <= i < |c| - 1 && c[i] == c[i + 1] {
        assert Depends(cells, c[i], c[i + 1]);
      } else {
        assert NetCycle(cells, c);
      }
    }
    if c :| NetCycle(cells, c) {
      assert Feedback(cells, c);
    }
    if a: nat :| Depends(cells, a, a) {
      var c := [a, a];
      assert Feedback(cells, c);
    }
  }

  /** A buffer that drives its own input is feedback the search does not report. */
  lemma SelfLoopMissed()
    ensures var cells := [CellFacts(false, [0], [0])]; Feedback(cells, [0, 0]) && forall c :: !NetCycle(cells, c)
  {
    var cells := [CellFacts(false, [0], [0])];
    assert cells[0] == CellFacts(false, [0], [0]);
    assert Reads(cells, 0, 0, 0);
    assert Depends(cells, 0, 0);
    forall a: nat, b: nat ensures Depends(cells, a, b) ==> a == b {
      assert forall i :: Reads(cells, a, b, i) ==> a == 0 && b == 0;
    }
    hide Depends;
    forall c ensures !NetCycle(cells, c) {
      assert |c| >= 2 && Depends(cells, c[0], c[1]) ==> c[0] == c[1];
    }
  }
}
