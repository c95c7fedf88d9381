/** Worked computations: concrete graphs built as the program builds them,
    the order `backward()` runs their rules in, and the gradients it leaves;
    and the gradients the derived operations `sub` and `div` pass back. */
module Scenarios {
  import opened Value
  import opened Topo
  import opened Backprop
  import opened Arena

  lemma ReversedFive()
    ensures Reversed([0, 1, 2, 3, 4]) == [4, 3, 2, 1, 0]
  {
  }

  /** `buildTopo` on an unvisited leaf appends it. */
  lemma VisitLeaf(nodes: seq<Node>, v: nat, s: Dfs)
    requires WellFormed(nodes) && v < |nodes| && v !in s.visited && nodes[v].prev == []
    ensures Visit(nodes, v, s) == Dfs(s.visited + {v}, s.topo + [v])
  {
  }

  /** `buildTopo` on an unvisited node with one operand. */
  lemma VisitUnary(nodes: seq<Node>, v: nat, s: Dfs)
    requires WellFormed(nodes) && v < |nodes| && v !in s.visited && |nodes[v].prev| == 1
    ensures nodes[v].prev[0] < v
    ensures var r := Visit(nodes, nodes[v].prev[0], Dfs(s.visited + {v}, s.topo));
      Visit(nodes, v, s) == Dfs(r.visited, r.topo + [v])
  {
    assert Fits(nodes[v], v);
    var cs := nodes[v].prev;
    var m0 := Dfs(s.visited + {v}, s.topo);
    var m1 := Visit(nodes, cs[0], m0);
    assert cs[1..] == [];
    assert VisitAll(nodes, v, cs[1..], m1) == m1;
    assert VisitAll(nodes, v, cs, m0) == m1;
  }

  /** `buildTopo` on an unvisited node with two operands: the first
      operand's traversal, then the second's, then the node itself. */
  lemma VisitBinary(nodes: seq<Node>, v: nat, s: Dfs)
    requires WellFormed(nodes) && v < |nodes| && v !in s.visited && |nodes[v].prev| == 2
    ensures nodes[v].prev[0] < v && nodes[v].prev[1] < v
    ensures var m := Visit(nodes, nodes[v].prev[0], Dfs(s.visited + {v}, s.topo));
      var r := Visit(nodes, nodes[v].prev[1], m);
      Visit(nodes, v, s) == Dfs(r.visited, r.topo + [v])
  {
    assert Fits(nodes[v], v);
    var cs := nodes[v].prev;
    var m0 := Dfs(s.visited + {v}, s.topo);
    var m1 := Visit(nodes, cs[0], m0);
    var m2 := Visit(nodes, cs[1], m1);
    assert cs[1..] == [cs[1]] && cs[1..][1..] == [];
    assert VisitAll(nodes, v, cs[1..][1..], m2) == m2;
    assert VisitAll(nodes, v, cs[1..], m1) == m2;
    assert VisitAll(nodes, v, cs, m0) == m2;
  }

  // x = v(-2), y = v(3), out = x.mul(y).add(x.pow(2))

  function SquareGraph(): seq<Node> {
    [Node(-2.0, [], NoOp), Node(3.0, [], NoOp), Node(-6.0, [0, 1], MulRule),
     Node(4.0, [0], PowRule(2)), Node(-2.0, [2, 3], AddRule)]
  }

  lemma SquareWellFormed()
    ensures WellFormed(SquareGraph())
  {
    var n := SquareGraph();
    assert Fits(n[2], 2) && Fits(n[3], 3) && Fits(n[4], 4);
  }

  /** `buildTopo(out)` goes down `x.mul(y)` first, then `x.pow(2)`, whose
      operand x is already visited. */
  lemma SquareTopo()
    ensures WellFormed(SquareGraph()) && Visit(SquareGraph(), 4, Dfs({}, [])).topo == [0, 1, 2, 3, 4]
  {
    SquareWellFormed();
    var n := SquareGraph();
    var e := Dfs({}, []);
    VisitBinary(n, 4, e);
    var m0 := Dfs({4}, []);
    VisitBinary(n, 2, m0);
    var a0 := Dfs({4, 2}, []);
    VisitLeaf(n, 0, a0);
    var a1 := Visit(n, 0, a0);
    VisitLeaf(n, 1, a1);
    var m1 := Visit(n, 2, m0);
    assert m1.topo == [0, 1, 2] && 0 in m1.visited;
    VisitUnary(n, 3, m1);
    assert Visit(n, 0, Dfs(m1.visited + {3}, m1.topo)) == Dfs(m1.visited + {3}, m1.topo);
  }

  lemma SquareRules()
    ensures WellFormed(SquareGraph())
    ensures ApplyRule(SquareGraph(), [0.0, 0.0, 0.0, 0.0, 1.0], 4) == [0.0, 0.0, 1.0, 1.0, 1.0]
    ensures ApplyRule(SquareGraph(), [0.0, 0.0, 1.0, 1.0, 1.0], 3) == [-4.0, 0.0, 1.0, 1.0, 1.0]
    ensures ApplyRule(SquareGraph(), [-4.0, 0.0, 1.0, 1.0, 1.0], 2) == [-1.0, -2.0, 1.0, 1.0, 1.0]
    ensures ApplyRule(SquareGraph(), [-1.0, -2.0, 1.0, 1.0, 1.0], 1) == [-1.0, -2.0, 1.0, 1.0, 1.0]
    ensures ApplyRule(SquareGraph(), [-1.0, -2.0, 1.0, 1.0, 1.0], 0) == [-1.0, -2.0, 1.0, 1.0, 1.0]
  {
    SquareWellFormed();
    assert Power(-2.0, 1) == -2.0;
  }

  lemma SquarePropagate()
    ensures WellFormed(SquareGraph())
    ensures Propagate(SquareGraph(), [0.0, 0.0, 0.0, 0.0, 1.0], [4, 3, 2, 1, 0])
         == [-1.0, -2.0, 1.0, 1.0, 1.0]
  {
    SquareRules();
    var p3 := [-1.0, -2.0, 1.0, 1.0, 1.0];
    PropagateFive(SquareGraph(), [0.0, 0.0, 0.0, 0.0, 1.0], [4, 3, 2, 1, 0],
           [0.0, 0.0, 1.0, 1.0, 1.0], [-4.0, 0.0, 1.0, 1.0, 1.0], p3, p3, p3);
  }

  /** After `out.backward()` on fresh nodes: `x.grad == -1`, `y.grad == -2`
      (the partial derivatives y + 2x and x of x*y + x^2). */
  lemma SquareBackward(nodes: seq<Node>, g: seq<real>)
    requires nodes == SquareGraph() && g == Zeros(5)
    ensures WellFormed(nodes) && |g| == |nodes|
    ensures BackwardGrads(nodes, g, 4)[0] == -1.0 && BackwardGrads(nodes, g, 4)[1] == -2.0
  {
    SquareTopo();
    ReversedFive();
    SquarePropagate();
    assert Zeros(5)[4 := 1.0] == [0.0, 0.0, 0.0, 0.0, 1.0];
  }

  /** `x = v(-2)`, `y = v(3)`, `out = x.mul(y).add(x.pow(2))` on a fresh
      arena. */
  method BuildSquare(mathExp: real -> real) returns (graph: Graph, x: nat, y: nat, out: nat)
    requires (forall t :: mathExp(t) > 0.0) && mathExp(0.0) == 1.0
    ensures fresh(graph) && graph.Valid()
    ensures graph.nodes == SquareGraph() && graph.grad == Zeros(5)
    ensures x == 0 && y == 1 && out == 4
  {
    graph := new Graph(mathExp);
    x := graph.Leaf(-2.0);
    y := graph.Leaf(3.0);
    var xy := graph.Mul(x, y);
    var xx := graph.Pow(x, 2);
    assert NatPow(-2.0, 2) == 4.0;
    out := graph.Add(xy, xx);
  }

  method SquareExample(mathExp: real -> real) returns (outData: real, xGrad: real, yGrad: real)
    requires (forall t :: mathExp(t) > 0.0) && mathExp(0.0) == 1.0
    ensures outData == -2.0 && xGrad == -1.0 && yGrad == -2.0
  {
    var graph, x, y, out := BuildSquare(mathExp);
    outData := graph.nodes[out].data;
    SquareBackward(graph.nodes, graph.grad);
    graph.Backward(out);
    xGrad, yGrad := graph.grad[x], graph.grad[y];
  }

  // w = v(2), out = w.mul(w).add(w.mul(v(3)))

  function WeightGraph(): seq<Node> {
    [Node(2.0, [], NoOp), Node(4.0, [0, 0], MulRule), Node(3.0, [], NoOp),
     Node(6.0, [0, 2], MulRule), Node(10.0, [1, 3], AddRule)]
  }

  lemma WeightWellFormed()
    ensures WellFormed(WeightGraph())
  {
    var n := WeightGraph();
    assert Fits(n[1], 1) && Fits(n[3], 3) && Fits(n[4], 4);
  }

  /** `buildTopo(out)` meets w twice under `w.mul(w)` and once more under
      `w.mul(v(3))`, and appends it once. */
  lemma WeightTopo()
    ensures WellFormed(WeightGraph()) && Visit(WeightGraph(), 4, Dfs({}, [])).topo == [0, 1, 2, 3, 4]
  {
    WeightWellFormed();
    var n := WeightGraph();
    VisitBinary(n, 4, Dfs({}, []));
    var m0 := Dfs({4}, []);
    VisitBinary(n, 1, m0);
    var a0 := Dfs({4, 1}, []);
    VisitLeaf(n, 0, a0);
    var a1 := Visit(n, 0, a0);
    assert Visit(n, 0, a1) == a1;
    var m1 := Visit(n, 1, m0);
    assert m1.topo == [0, 1] && 0 in m1.visited;
    VisitBinary(n, 3, m1);
    var b0 := Dfs(m1.visited + {3}, m1.topo);
    assert Visit(n, 0, b0) == b0;
    VisitLeaf(n, 2, b0);
  }

  lemma WeightRules()
    ensures WellFormed(WeightGraph())
    ensures ApplyRule(WeightGraph(), [0.0, 0.0, 0.0, 0.0, 1.0], 4) == [0.0, 1.0, 0.0, 1.0, 1.0]
    ensures ApplyRule(WeightGraph(), [0.0, 1.0, 0.0, 1.0, 1.0], 3) == [3.0, 1.0, 2.0, 1.0, 1.0]
    ensures ApplyRule(WeightGraph(), [3.0, 1.0, 2.0, 1.0, 1.0], 2) == [3.0, 1.0, 2.0, 1.0, 1.0]
    ensures ApplyRule(WeightGraph(), [3.0, 1.0, 2.0, 1.0, 1.0], 1) == [7.0, 1.0, 2.0, 1.0, 1.0]
    ensures ApplyRule(WeightGraph(), [7.0, 1.0, 2.0, 1.0, 1.0], 0) == [7.0, 1.0, 2.0, 1.0, 1.0]
  {
    WeightWellFormed();
  }

  lemma WeightPropagate()
    ensures WellFormed(WeightGraph())
    ensures Propagate(WeightGraph(), [0.0, 0.0, 0.0, 0.0, 1.0], [4, 3, 2, 1, 0])
         == [7.0, 1.0, 2.0, 1.0, 1.0]
  {
    WeightRules();
    PropagateFive(WeightGraph(), [0.0, 0.0, 0.0, 0.0, 1.0], [4, 3, 2, 1, 0],
           [0.0, 1.0, 0.0, 1.0, 1.0],
           [3.0, 1.0, 2.0, 1.0, 1.0],
           [3.0, 1.0, 2.0, 1.0, 1.0],
           [7.0, 1.0, 2.0, 1.0, 1.0],
           [7.0, 1.0, 2.0, 1.0, 1.0]);
  }

  /** A weight used three times collects every contribution:
      `w.grad == 2w + 3 == 7`. */
  lemma WeightBackward(nodes: seq<Node>, g: seq<real>)
    requires nodes == WeightGraph() && g == Zeros(5)
    ensures WellFormed(nodes) && |g| == |nodes|
    ensures BackwardGrads(nodes, g, 4)[0] == 7.0
  {
    WeightTopo();
    ReversedFive();
    WeightPropagate();
    assert Zeros(5)[4 := 1.0] == [0.0, 0.0, 0.0, 0.0, 1.0];
  }

  /** `w = v(2)`, `out = w.mul(w).add(w.mul(v(3)))` on a fresh arena. */
  method BuildWeight(mathExp: real -> real) returns (graph: Graph, w: nat, out: nat)
    requires (forall t :: mathExp(t) > 0.0) && mathExp(0.0) == 1.0
    ensures fresh(graph) && graph.Valid()
    ensures graph.nodes == WeightGraph() && graph.grad == Zeros(5)
    ensures w == 0 && out == 4
  {
    graph := new Graph(mathExp);
    w := graph.Leaf(2.0);
    var ww := graph.Mul(w, w);
    var three := graph.Leaf(3.0);
    var w3 := graph.Mul(w, three);
    out := graph.Add(ww, w3);
  }

  method WeightExample(mathExp: real -> real) returns (outData: real, wGrad: real)
    requires (forall t :: mathExp(t) > 0.0) && mathExp(0.0) == 1.0
    ensures outData == 10.0 && wGrad == 7.0
  {
    var graph, w, out := BuildWeight(mathExp);
    outData := graph.nodes[out].data;
    WeightBackward(graph.nodes, graph.grad);
    graph.Backward(out);
    wGrad := graph.grad[w];
  }

  // x = v(t), out = x.exp().add(x), with e = Math.exp(t)

  function ExpGraph(t: real, e: real): seq<Node> {
    [Node(t, [], NoOp), Node(e, [0], ExpRule), Node(e + t, [1, 0], AddRule)]
  }

  lemma ExpWellFormed(t: real, e: real)
    ensures WellFormed(ExpGraph(t, e))
  {
    var n := ExpGraph(t, e);
    assert Fits(n[1], 1) && Fits(n[2], 2);
  }

  lemma ExpTopo(t: real, e: real)
    ensures WellFormed(ExpGraph(t, e)) && Visit(ExpGraph(t, e), 2, Dfs({}, [])).topo == [0, 1, 2]
  {
    ExpWellFormed(t, e);
    var n := ExpGraph(t, e);
    VisitBinary(n, 2, Dfs({}, []));
    var m0 := Dfs({2}, []);
    VisitUnary(n, 1, m0);
    VisitLeaf(n, 0, Dfs({2, 1}, []));
    var m1 := Visit(n, 1, m0);
    assert m1.topo == [0, 1] && 0 in m1.visited;
    assert Visit(n, 0, m1) == m1;
  }

  lemma ExpOrder(t: real, e: real)
    ensures WellFormed(ExpGraph(t, e)) && BackwardOrder(ExpGraph(t, e), 2) == [2, 1, 0]
  {
    ExpTopo(t, e);
    assert Reversed([0, 1, 2]) == [2, 1, 0];
  }

  /** The exp rule overwrites: x first receives 1 from the addition, then
      the exp node replaces that with e, so `x.grad == e` where the chain
      rule asks for e + 1. The chain-rule equation of `BackwardChainRule`
      therefore fails on graphs with exp nodes. */
  lemma ExpLosesEarlierGradient(t: real, e: real)
    ensures WellFormed(ExpGraph(t, e))
    ensures var grads := BackwardGrads(ExpGraph(t, e), Zeros(3), 2);
      && grads[0] == e
      && Inflow(ExpGraph(t, e), BackwardOrder(ExpGraph(t, e), 2), 0, grads) == e + 1.0
      && grads[0] != Zeros(3)[2 := 1.0][0] + Inflow(ExpGraph(t, e), BackwardOrder(ExpGraph(t, e), 2), 0, grads)
  {
    var n, grads := ExpGraph(t, e), [e, 1.0, 1.0];
    ExpOrder(t, e);
    ExpPropagate(t, e);
    assert Zeros(3)[2 := 1.0] == [0.0, 0.0, 1.0];
    assert BackwardGrads(n, Zeros(3), 2) == grads;
    ExpInflow(t, e);
  }

  lemma ExpPropagate(t: real, e: real)
    ensures WellFormed(ExpGraph(t, e))
    ensures Propagate(ExpGraph(t, e), [0.0, 0.0, 1.0], [2, 1, 0]) == [e, 1.0, 1.0]
  {
    ExpWellFormed(t, e);
    var n := ExpGraph(t, e);
    var g := [0.0, 0.0, 1.0];
    PropagateThree(n, g, 2, 1, 0);
    assert ApplyRule(n, g, 2) == [1.0, 1.0, 1.0];
    assert ApplyRule(n, [1.0, 1.0, 1.0], 1) == [e, 1.0, 1.0];
    assert ApplyRule(n, [e, 1.0, 1.0], 0) == [e, 1.0, 1.0];
  }

  /** What the chain rule owes x: 1 through the addition, e through exp. */
  lemma ExpInflow(t: real, e: real)
    ensures WellFormed(ExpGraph(t, e))
    ensures Inflow(ExpGraph(t, e), [2, 1, 0], 0, [e, 1.0, 1.0]) == e + 1.0
  {
    ExpWellFormed(t, e);
    var n, grads := ExpGraph(t, e), [e, 1.0, 1.0];
    assert [2, 1, 0][..2] == [2, 1] && [2, 1][..1] == [2] && [2][..0] == [];
    assert LocalDerivative(n, 2, 1) == 1.0;
    assert LocalDerivative(n, 1, 0) == e;
    assert Contrib(n, 2, 0, 1.0) == 1.0;
    assert Contrib(n, 1, 0, 1.0) == e;
    assert Contrib(n, 0, 0, e) == 0.0;
    assert Inflow(n, [2], 0, grads) == 1.0;
    assert Inflow(n, [2, 1], 0, grads) == 1.0 + e;
  }

  /** `x = v(t)`, `out = x.exp().add(x)` on a fresh arena. */
  method BuildExp(mathExp: real -> real, t: real) returns (graph: Graph, x: nat, out: nat)
    requires (forall u :: mathExp(u) > 0.0) && mathExp(0.0) == 1.0
    ensures fresh(graph) && graph.Valid()
    ensures graph.nodes == ExpGraph(t, mathExp(t)) && graph.grad == Zeros(3)
    ensures x == 0 && out == 2
  {
    graph := new Graph(mathExp);
    x := graph.Leaf(t);
    var ex := graph.Exp(x);
    out := graph.Add(ex, x);
  }

  /** After `out.backward()`, `x.grad` is `Math.exp(t)` alone: the 1 that
      `add` passed down is lost. */
  method ExpExample(mathExp: real -> real, t: real) returns (xGrad: real)
    requires (forall u :: mathExp(u) > 0.0) && mathExp(0.0) == 1.0
    ensures xGrad == mathExp(t)
  {
    var graph, x, out := BuildExp(mathExp, t);
    ExpLosesEarlierGradient(t, mathExp(t));
    graph.Backward(out);
    xGrad := graph.grad[x];
  }

  // x = v(0), out = x.tanh()

  function TanhGraph(): seq<Node> {
    [Node(0.0, [], NoOp), Node(0.0, [0], TanhRule)]
  }

  lemma TanhWellFormed()
    ensures WellFormed(TanhGraph())
  {
    var n := TanhGraph();
    assert Fits(n[1], 1);
  }

  lemma TanhTopo()
    ensures WellFormed(TanhGraph()) && Visit(TanhGraph(), 1, Dfs({}, [])).topo == [0, 1]
  {
    TanhWellFormed();
    var n := TanhGraph();
    VisitUnary(n, 1, Dfs({}, []));
    VisitLeaf(n, 0, Dfs({1}, []));
  }

  lemma TanhOrder()
    ensures WellFormed(TanhGraph()) && BackwardOrder(TanhGraph(), 1) == [1, 0]
  {
    TanhTopo();
    BackwardOrderIsVisit(TanhGraph(), 1);
    assert Reversed([0, 1]) == [1, 0];
  }

  lemma TanhPropagate()
    ensures WellFormed(TanhGraph())
    ensures Propagate(TanhGraph(), [0.0, 1.0], [1, 0]) == [1.0, 1.0]
  {
    TanhWellFormed();
    var n := TanhGraph();
    PropagateTwo(n, [0.0, 1.0], 1, 0);
    assert ApplyRule(n, [0.0, 1.0], 1) == [1.0, 1.0];
    assert ApplyRule(n, [1.0, 1.0], 0) == [1.0, 1.0];
  }

  /** At 0, `tanh` passes the output's gradient through unchanged: its
      local derivative `1 - t^2` is 1 there. */
  lemma TanhAtZeroBackward()
    ensures WellFormed(TanhGraph())
    ensures BackwardGrads(TanhGraph(), Zeros(2), 1) == [1.0, 1.0]
  {
    TanhOrder();
    TanhPropagate();
    assert Zeros(2)[1 := 1.0] == [0.0, 1.0];
  }

  /** `x = v(0)`, `out = x.tanh()` on a fresh arena. */
  method BuildTanh(mathExp: real -> real) returns (graph: Graph, x: nat, out: nat)
    requires (forall t :: mathExp(t) > 0.0) && mathExp(0.0) == 1.0
    ensures fresh(graph) && graph.Valid()
    ensures graph.nodes == TanhGraph() && graph.grad == Zeros(2)
    ensures x == 0 && out == 1
  {
    graph := new Graph(mathExp);
    x := graph.Leaf(0.0);
    assert 2.0 * 0.0 == 0.0;
    out := graph.Tanh(x);
  }

  /** `tanh(0)` is 0, and `backward()` from it gives the input a gradient
      of 1. */
  method TanhExample(mathExp: real -> real) returns (outData: real, xGrad: real)
    requires (forall t :: mathExp(t) > 0.0) && mathExp(0.0) == 1.0
    ensures outData == 0.0 && xGrad == 1.0
  {
    var graph, x, out := BuildTanh(mathExp);
    outData := graph.nodes[out].data;
    TanhAtZeroBackward();
    graph.Backward(out);
    xGrad := graph.grad[x];
  }

  // x = v(2), y = v(3), out = x.mul(y).add(v(1)), backward() twice

  function StaleGraph(): seq<Node> {
    [Node(2.0, [], NoOp), Node(3.0, [], NoOp), Node(6.0, [0, 1], MulRule),
     Node(1.0, [], NoOp), Node(7.0, [2, 3], AddRule)]
  }

  lemma StaleWellFormed()
    ensures WellFormed(StaleGraph())
  {
    var n := StaleGraph();
    assert Fits(n[2], 2) && Fits(n[4], 4);
  }

  lemma StaleTopo()
    ensures WellFormed(StaleGraph()) && Visit(StaleGraph(), 4, Dfs({}, [])).topo == [0, 1, 2, 3, 4]
  {
    StaleWellFormed();
    var n := StaleGraph();
    VisitBinary(n, 4, Dfs({}, []));
    var m0 := Dfs({4}, []);
    VisitBinary(n, 2, m0);
    var a0 := Dfs({4, 2}, []);
    VisitLeaf(n, 0, a0);
    VisitLeaf(n, 1, Visit(n, 0, a0));
    var m1 := Visit(n, 2, m0);
    assert m1.topo == [0, 1, 2] && 3 !in m1.visited;
    VisitLeaf(n, 3, m1);
  }

  /** The five rule closures of the first `backward()`, one node at a time. */
  lemma StaleFirstRules()
    ensures WellFormed(StaleGraph())
    ensures ApplyRule(StaleGraph(), [0.0, 0.0, 0.0, 0.0, 1.0], 4) == [0.0, 0.0, 1.0, 1.0, 1.0]
    ensures ApplyRule(StaleGraph(), [0.0, 0.0, 1.0, 1.0, 1.0], 3) == [0.0, 0.0, 1.0, 1.0, 1.0]
    ensures ApplyRule(StaleGraph(), [0.0, 0.0, 1.0, 1.0, 1.0], 2) == [3.0, 2.0, 1.0, 1.0, 1.0]
    ensures ApplyRule(StaleGraph(), [3.0, 2.0, 1.0, 1.0, 1.0], 1) == [3.0, 2.0, 1.0, 1.0, 1.0]
    ensures ApplyRule(StaleGraph(), [3.0, 2.0, 1.0, 1.0, 1.0], 0) == [3.0, 2.0, 1.0, 1.0, 1.0]
  {
    StaleWellFormed();
  }

  /** The first `backward()` from fresh gradients. */
  lemma StaleFirstPropagate()
    ensures WellFormed(StaleGraph())
    ensures Propagate(StaleGraph(), [0.0, 0.0, 0.0, 0.0, 1.0], [4, 3, 2, 1, 0])
         == [3.0, 2.0, 1.0, 1.0, 1.0]
  {
    StaleFirstRules();
    PropagateFive(StaleGraph(), [0.0, 0.0, 0.0, 0.0, 1.0], [4, 3, 2, 1, 0],
           [0.0, 0.0, 1.0, 1.0, 1.0],
           [0.0, 0.0, 1.0, 1.0, 1.0],
           [3.0, 2.0, 1.0, 1.0, 1.0],
           [3.0, 2.0, 1.0, 1.0, 1.0],
           [3.0, 2.0, 1.0, 1.0, 1.0]);
  }

  /** The five rule closures of the second `backward()`. */
  lemma StaleSecondRules()
    ensures WellFormed(StaleGraph())
    ensures ApplyRule(StaleGraph(), [3.0, 2.0, 1.0, 1.0, 1.0], 4) == [3.0, 2.0, 2.0, 2.0, 1.0]
    ensures ApplyRule(StaleGraph(), [3.0, 2.0, 2.0, 2.0, 1.0], 3) == [3.0, 2.0, 2.0, 2.0, 1.0]
    ensures ApplyRule(StaleGraph(), [3.0, 2.0, 2.0, 2.0, 1.0], 2) == [9.0, 6.0, 2.0, 2.0, 1.0]
    ensures ApplyRule(StaleGraph(), [9.0, 6.0, 2.0, 2.0, 1.0], 1) == [9.0, 6.0, 2.0, 2.0, 1.0]
    ensures ApplyRule(StaleGraph(), [9.0, 6.0, 2.0, 2.0, 1.0], 0) == [9.0, 6.0, 2.0, 2.0, 1.0]
  {
    StaleWellFormed();
  }

  /** The second `backward()`, over the gradients the first one left: out's
      1 reaches the product on top of the product's stale 1. */
  lemma StaleSecondPropagate()
    ensures WellFormed(StaleGraph())
    ensures Propagate(StaleGraph(), [3.0, 2.0, 1.0, 1.0, 1.0], [4, 3, 2, 1, 0])
         == [9.0, 6.0, 2.0, 2.0, 1.0]
  {
    StaleSecondRules();
    PropagateFive(StaleGraph(), [3.0, 2.0, 1.0, 1.0, 1.0], [4, 3, 2, 1, 0],
           [3.0, 2.0, 2.0, 2.0, 1.0],
           [3.0, 2.0, 2.0, 2.0, 1.0],
           [9.0, 6.0, 2.0, 2.0, 1.0],
           [9.0, 6.0, 2.0, 2.0, 1.0],
           [9.0, 6.0, 2.0, 2.0, 1.0]);
  }

  /** Gradients are never zeroed between calls: the first `backward()`
      leaves `x.grad == y == 3` and a gradient of 1 on the interior nodes,
      so a second one gives `x.grad == 3 * y == 9`, not twice the first
      result. */
  lemma StaleSecondBackward()
    ensures WellFormed(StaleGraph())
    ensures BackwardGrads(StaleGraph(), Zeros(5), 4) == [3.0, 2.0, 1.0, 1.0, 1.0]
    ensures BackwardGrads(StaleGraph(), [3.0, 2.0, 1.0, 1.0, 1.0], 4) == [9.0, 6.0, 2.0, 2.0, 1.0]
  {
    StaleTopo();
    ReversedFive();
    assert Zeros(5)[4 := 1.0] == [0.0, 0.0, 0.0, 0.0, 1.0];
    StaleFirstPropagate();
    StaleSecondPropagate();
    assert [3.0, 2.0, 1.0, 1.0, 1.0][4 := 1.0] == [3.0, 2.0, 1.0, 1.0, 1.0];
  }

  /** The add rule, one operand slot at a time. */
  lemma AddStep(nodes: seq<Node>, g: seq<real>, i: nat, x: nat)
    requires WellFormed(nodes) && |g| == |nodes| && i < |nodes| && x < |g|
    requires nodes[i].rule == AddRule
    ensures |nodes[i].prev| == 2
    ensures ApplyRule(nodes, g, i)[x]
      == g[x] + (if x == nodes[i].prev[0] then g[i] else 0.0) + (if x == nodes[i].prev[1] then g[i] else 0.0)
  {
    assert Fits(nodes[i], i);
    RuleAccumulates(nodes, g, i, x);
  }

  /** The mul rule, one operand slot at a time: each operand gains the
      other's data times the node's gradient. */
  lemma MulStep(nodes: seq<Node>, g: seq<real>, i: nat, x: nat)
    requires WellFormed(nodes) && |g| == |nodes| && i < |nodes| && x < |g|
    requires nodes[i].rule == MulRule
    ensures |nodes[i].prev| == 2
    ensures ApplyRule(nodes, g, i)[x]
      == g[x] + (if x == nodes[i].prev[0] then nodes[nodes[i].prev[1]].data * g[i] else 0.0)
              + (if x == nodes[i].prev[1] then nodes[nodes[i].prev[0]].data * g[i] else 0.0)
  {
    assert Fits(nodes[i], i);
    RuleAccumulates(nodes, g, i, x);
  }

  /** The pow rule: the operand gains `k * x^(k-1)` times the node's
      gradient. */
  lemma PowStep(nodes: seq<Node>, g: seq<real>, i: nat, x: nat, k: int)
    requires WellFormed(nodes) && |g| == |nodes| && i < |nodes| && x < |g|
    requires nodes[i].rule == PowRule(k)
    ensures |nodes[i].prev| == 1
    ensures ApplyRule(nodes, g, i)[x]
      == g[x] + (if x == nodes[i].prev[0] then (k as real) * Power(nodes[nodes[i].prev[0]].data, k - 1) * g[i] else 0.0)
  {
    assert Fits(nodes[i], i);
    RuleAccumulates(nodes, g, i, x);
  }

  /** The three rules `a.sub(b)` creates, run from its output down: a gains
      the output's gradient and b loses it (both, if a and b are the same
      node). */
  lemma SubGradients(nodes: seq<Node>, g: seq<real>, m: nat, a: nat, b: nat)
    requires WellFormed(nodes) && |g| == |nodes| && |nodes| == m + 3 && a < m && b < m
    requires nodes[m] == Node(-1.0, [], NoOp)
    requires nodes[m + 1].prev == [b, m] && nodes[m + 1].rule == MulRule
    requires nodes[m + 2].prev == [a, m + 1] && nodes[m + 2].rule == AddRule
    requires g[m + 1] == 0.0
    ensures var r := ApplyRule(nodes, ApplyRule(nodes, ApplyRule(nodes, g, m + 2), m + 1), m);
      forall x :: 0 <= x < m ==>
        r[x] == g[x] + (if x == a then g[m + 2] else 0.0) - (if x == b then g[m + 2] else 0.0)
  {
    var p2 := ApplyRule(nodes, ApplyRule(nodes, g, m + 2), m + 1);
    assert ApplyRule(nodes, p2, m) == p2;
    forall x | 0 <= x < m
      ensures p2[x] == g[x] + (if x == a then g[m + 2] else 0.0) - (if x == b then g[m + 2] else 0.0)
    {
      SubAt(nodes, g, m, a, b, x);
    }
  }

  /** The first two of those rules at one older node x. */
  lemma SubAt(nodes: seq<Node>, g: seq<real>, m: nat, a: nat, b: nat, x: nat)
    requires WellFormed(nodes) && |g| == |nodes| && |nodes| == m + 3 && a < m && b < m && x < m
    requires nodes[m] == Node(-1.0, [], NoOp)
    requires nodes[m + 1].prev == [b, m] && nodes[m + 1].rule == MulRule
    requires nodes[m + 2].prev == [a, m + 1] && nodes[m + 2].rule == AddRule
    requires g[m + 1] == 0.0
    ensures ApplyRule(nodes, ApplyRule(nodes, g, m + 2), m + 1)[x]
      == g[x] + (if x == a then g[m + 2] else 0.0) - (if x == b then g[m + 2] else 0.0)
  {
    var p1 := ApplyRule(nodes, g, m + 2);
    AddStep(nodes, g, m + 2, x);
    AddStep(nodes, g, m + 2, m + 1);
    assert p1[m + 1] == g[m + 2];
    MulStep(nodes, p1, m + 1, x);
  }

  /** The mul rule of `a.div(b)`, at one older node x and at `b ** -1`. */
  lemma DivMulAt(nodes: seq<Node>, g: seq<real>, m: nat, a: nat, b: nat, x: nat)
    requires WellFormed(nodes) && |g| == |nodes| && |nodes| == m + 2 && a < m && b < m && x < m
    requires nodes[m].data == Power(nodes[b].data, -1)
    requires nodes[m + 1].prev == [a, m] && nodes[m + 1].rule == MulRule
    requires g[m] == 0.0
    ensures ApplyRule(nodes, g, m + 1)[x] == g[x] + (if x == a then Power(nodes[b].data, -1) * g[m + 1] else 0.0)
    ensures ApplyRule(nodes, g, m + 1)[m] == nodes[a].data * g[m + 1]
  {
    MulStep(nodes, g, m + 1, x);
    MulStep(nodes, g, m + 1, m);
  }

  /** The two rules `a.div(b)` creates, at one older node x. */
  lemma DivAt(nodes: seq<Node>, g: seq<real>, m: nat, a: nat, b: nat, x: nat)
    requires WellFormed(nodes) && |g| == |nodes| && |nodes| == m + 2 && a < m && b < m && x < m
    requires nodes[m] == Node(Power(nodes[b].data, -1), [b], PowRule(-1))
    requires nodes[m + 1].prev == [a, m] && nodes[m + 1].rule == MulRule
    requires g[m] == 0.0
    ensures ApplyRule(nodes, ApplyRule(nodes, g, m + 1), m)[x]
      == g[x] + (if x == a then Power(nodes[b].data, -1) * g[m + 1] else 0.0)
              - (if x == b then Power(nodes[b].data, -2) * nodes[a].data * g[m + 1] else 0.0)
  {
    var p1 := ApplyRule(nodes, g, m + 1);
    DivMulAt(nodes, g, m, a, b, x);
    PowStep(nodes, p1, m, x, -1);
    var q := Power(nodes[b].data, -2);
    assert ApplyRule(nodes, p1, m)[x] == p1[x] + (if x == b then (-1 as real) * q * p1[m] else 0.0);
    assert (-1 as real) * q * (nodes[a].data * g[m + 1]) == -(q * nodes[a].data * g[m + 1]);
  }

  /** The two rules `a.div(b)` creates, run from its output down: the
      quotient rule, a gaining `g / b` and b losing `a * g / b^2` (see
      `InverseSquare` for `b ** -2`). */
  lemma DivGradients(nodes: seq<Node>, g: seq<real>, m: nat, a: nat, b: nat)
    requires WellFormed(nodes) && |g| == |nodes| && |nodes| == m + 2 && a < m && b < m
    requires nodes[m] == Node(Power(nodes[b].data, -1), [b], PowRule(-1))
    requires nodes[m + 1].prev == [a, m] && nodes[m + 1].rule == MulRule
    requires g[m] == 0.0
    ensures var r := ApplyRule(nodes, ApplyRule(nodes, g, m + 1), m);
      forall x :: 0 <= x < m ==>
        r[x] == g[x] + (if x == a then Power(nodes[b].data, -1) * g[m + 1] else 0.0)
                     - (if x == b then Power(nodes[b].data, -2) * nodes[a].data * g[m + 1] else 0.0)
  {
    forall x | 0 <= x < m
      ensures ApplyRule(nodes, ApplyRule(nodes, g, m + 1), m)[x]
        == g[x] + (if x == a then Power(nodes[b].data, -1) * g[m + 1] else 0.0)
                - (if x == b then Power(nodes[b].data, -2) * nodes[a].data * g[m + 1] else 0.0)
    {
      DivAt(nodes, g, m, a, b, x);
    }
  }

  /** `b ** -2` is `1 / b^2` for a nonzero b. */
  lemma InverseSquare(y: real)
    requires y != 0.0
    ensures Power(y, -2) * (y * y) == 1.0
  {
    assert NatPow(y, 1) == y;
    assert NatPow(y, 2) == y * y;
  }
}
