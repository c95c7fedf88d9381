/** Scalar nodes of a computation graph (the `Value` class), held in an arena.
    Node i names its operands by index, and every operand index is smaller
    than i, so the operand relation is acyclic by construction. */
module Value {

  /** The local gradient rule a node is created with (its `_backward` closure). */
  datatype LocalRule = NoOp | AddRule | MulRule | PowRule(k: int) | TanhRule | ExpRule

  /** One node: its forward value, its ordered operands (`_prev`) and its rule. */
  datatype Node = Node(data: real, prev: seq<nat>, rule: LocalRule)

  /** How many operands a node with this rule has. */
  function Arity(rule: LocalRule): nat {
    match rule
    case NoOp => 0
    case AddRule => 2
    case MulRule => 2
    case PowRule(_) => 1
    case TanhRule => 1
    case ExpRule => 1
  }

  /** Node `n` may be appended to an arena of `size` nodes. */
  ghost predicate Fits(n: Node, size: nat) {
    |n.prev| == Arity(n.rule) && forall j :: 0 <= j < |n.prev| ==> n.prev[j] < size
  }

  ghost predicate WellFormed(nodes: seq<Node>) {
    forall i :: 0 <= i < |nodes| ==> Fits(nodes[i], i)
  }

  ghost predicate Below(cs: seq<nat>, bound: nat) {
    forall j :: 0 <= j < |cs| ==> cs[j] < bound
  }

  ghost predicate InArena(nodes: seq<Node>, order: seq<nat>) {
    forall k :: 0 <= k < |order| ==> order[k] < |nodes|
  }

  /** `x ** n` for a natural exponent. */
  function NatPow(x: real, n: nat): (r: real)
    ensures x != 0.0 ==> r != 0.0
  {
    if n == 0 then 1.0 else x * NatPow(x, n - 1)
  }

  /** `x ** k` for an integer exponent; a zero base with a negative exponent,
      which JavaScript evaluates to Infinity, gives 0 here. */
  function Power(x: real, k: int): (r: real)
    ensures k >= 0 ==> r == NatPow(x, k)
    ensures k < 0 && x != 0.0 ==> r * NatPow(x, -k) == 1.0
  {
    if k >= 0 then NatPow(x, k)
    else if x == 0.0 then 0.0
    else 1.0 / NatPow(x, -k)
  }

  /** The forward value of `tanh` from `e = Math.exp(2 * x)`. */
  function TanhFromExp(e: real): (t: real)
    requires e > 0.0
    ensures -1.0 < t < 1.0
    ensures t == 0.0 <==> e == 1.0
  {
    var t := (e - 1.0) / (e + 1.0);
    assert t * (e + 1.0) == e - 1.0;
    assert (t + 1.0) * (e + 1.0) == 2.0 * e;
    assert (1.0 - t) * (e + 1.0) == 2.0;
    t
  }

  /** The partial derivative of node i with respect to its j-th operand, as
      the chain rule defines it for each operation. */
  function LocalDerivative(nodes: seq<Node>, i: nat, j: nat): (d: real)
    requires WellFormed(nodes) && i < |nodes| && j < |nodes[i].prev|
    ensures nodes[i].rule == TanhRule && -1.0 < nodes[i].data < 1.0 ==> 0.0 < d <= 1.0
    ensures nodes[i].rule == ExpRule && nodes[i].data > 0.0 ==> d > 0.0
  {
    assert Fits(nodes[i], i);
    var n := nodes[i];
    match n.rule
    case NoOp => 0.0
    case AddRule => 1.0
    case MulRule => nodes[n.prev[1 - j]].data
    case PowRule(k) => (k as real) * Power(nodes[n.prev[0]].data, k - 1)
    case TanhRule => 1.0 - n.data * n.data
    case ExpRule => n.data
  }

  /** What node i, holding gradient `gi`, owes operand x by the chain rule:
      the sum over every operand slot that holds x. */
  function Contrib(nodes: seq<Node>, i: nat, x: nat, gi: real): real
    requires WellFormed(nodes) && i < |nodes|
  {
    var p := nodes[i].prev;
    (if |p| > 0 && p[0] == x then LocalDerivative(nodes, i, 0) * gi else 0.0)
    + (if |p| > 1 && p[1] == x then LocalDerivative(nodes, i, 1) * gi else 0.0)
  }

  /** Runs node i's `_backward` closure on the gradient vector `g`. Every rule
      but exp adds the chain-rule contribution into each operand, so a shared
      operand receives all of its contributions; the exp rule assigns instead,
      discarding what the operand had gathered before. */
  function ApplyRule(nodes: seq<Node>, g: seq<real>, i: nat): (r: seq<real>)
    requires WellFormed(nodes) && |g| == |nodes| && i < |nodes|
    ensures |r| == |g|
    ensures forall x :: 0 <= x < |g| && x !in nodes[i].prev ==> r[x] == g[x]
  {
    assert Fits(nodes[i], i);
    var n := nodes[i];
    match n.rule
    case NoOp => g
    case AddRule =>
      var a, b := n.prev[0], n.prev[1];
      var g1 := g[a := g[a] + g[i]];
      g1[b := g1[b] + g1[i]]
    case MulRule =>
      var a, b := n.prev[0], n.prev[1];
      var g1 := g[a := g[a] + nodes[b].data * g[i]];
      g1[b := g1[b] + nodes[a].data * g1[i]]
    case PowRule(k) =>
      var a := n.prev[0];
      g[a := g[a] + (k as real) * Power(nodes[a].data, k - 1) * g[i]]
    case TanhRule =>
      var a := n.prev[0];
      g[a := g[a] + (1.0 - n.data * n.data) * g[i]]
    case ExpRule =>
      var a := n.prev[0];
      g[a := n.data * g[i]]
  }

  /** Every rule but exp adds into operand x exactly what the chain rule
      says node i owes it, summed over the slots that hold x. */
  lemma RuleAccumulates(nodes: seq<Node>, g: seq<real>, i: nat, x: nat)
    requires WellFormed(nodes) && |g| == |nodes| && i < |nodes| && x < |g|
    requires nodes[i].rule != ExpRule
    ensures ApplyRule(nodes, g, i)[x] == g[x] + Contrib(nodes, i, x, g[i])
  {
    assert Fits(nodes[i], i);
    match nodes[i].rule
    case NoOp =>
    case AddRule =>
    case MulRule => MulAccumulates(nodes, g, i, x);
    case PowRule(k) => PowAccumulates(nodes, g, i, x, k);
    case TanhRule =>
  }

  lemma MulAccumulates(nodes: seq<Node>, g: seq<real>, i: nat, x: nat)
    requires WellFormed(nodes) && |g| == |nodes| && i < |nodes| && x < |g|
    requires nodes[i].rule == MulRule
    ensures ApplyRule(nodes, g, i)[x] == g[x] + Contrib(nodes, i, x, g[i])
  {
    assert Fits(nodes[i], i);
    var a, b := nodes[i].prev[0], nodes[i].prev[1];
    assert LocalDerivative(nodes, i, 0) == nodes[b].data;
    assert LocalDerivative(nodes, i, 1) == nodes[a].data;
  }

  lemma PowAccumulates(nodes: seq<Node>, g: seq<real>, i: nat, x: nat, k: int)
    requires WellFormed(nodes) && |g| == |nodes| && i < |nodes| && x < |g|
    requires nodes[i].rule == PowRule(k)
    ensures ApplyRule(nodes, g, i)[x] == g[x] + Contrib(nodes, i, x, g[i])
  {
    assert Fits(nodes[i], i);
    var a := nodes[i].prev[0];
    var c := (k as real) * Power(nodes[a].data, k - 1);
    assert LocalDerivative(nodes, i, 0) == c;
  }

  /** `x.mul(x)`: both operand slots hold x, so x receives both
      contributions, twice its own data times the node's gradient. */
  lemma MulSharedOperand(nodes: seq<Node>, g: seq<real>, i: nat)
    requires WellFormed(nodes) && |g| == |nodes| && i < |nodes|
    requires nodes[i].rule == MulRule && nodes[i].prev[0] == nodes[i].prev[1]
    ensures var x := nodes[i].prev[0];
      ApplyRule(nodes, g, i)[x] == g[x] + 2.0 * nodes[x].data * g[i]
  {
    assert Fits(nodes[i], i);
    var x := nodes[i].prev[0];
    MulAccumulates(nodes, g, i, x);
  }

  /** The exp rule sets its operand to the chain-rule contribution alone:
      whatever the operand held before is lost. */
  lemma ExpRuleOverwrites(nodes: seq<Node>, g: seq<real>, i: nat)
    requires WellFormed(nodes) && |g| == |nodes| && i < |nodes|
    requires nodes[i].rule == ExpRule
    ensures ApplyRule(nodes, g, i)[nodes[i].prev[0]] == Contrib(nodes, i, nodes[i].prev[0], g[i])
  {
    assert Fits(nodes[i], i);
  }

  /** The nodes reachable from v along operand edges, v included. */
  function Reach(nodes: seq<Node>, v: nat): (r: set<nat>)
    requires WellFormed(nodes) && v < |nodes|
    ensures v in r
    ensures forall j :: 0 <= j < |nodes[v].prev| ==> nodes[v].prev[j] in r
    decreases v, 1, 0
  {
    assert Fits(nodes[v], v);
    {v} + ReachAll(nodes, v, nodes[v].prev)
  }

  /** The nodes reachable from any of `cs`, all of which lie below `bound`. */
  function ReachAll(nodes: seq<Node>, bound: nat, cs: seq<nat>): (r: set<nat>)
    requires WellFormed(nodes) && bound <= |nodes|
    requires Below(cs, bound)
    ensures forall j :: 0 <= j < |cs| ==> cs[j] in r
    decreases bound, 0, |cs|
  {
    if cs == [] then {} else Reach(nodes, cs[0]) + ReachAll(nodes, bound, cs[1..])
  }

  /** Every node reachable from v has an index no larger than v. */
  lemma {:induction false} ReachBelow(nodes: seq<Node>, v: nat)
    requires WellFormed(nodes) && v < |nodes|
    ensures forall x :: x in Reach(nodes, v) ==> x <= v
    decreases v, 1, 0
  {
    assert Fits(nodes[v], v);
    ReachAllBelow(nodes, v, nodes[v].prev);
  }

  lemma {:induction false} ReachAllBelow(nodes: seq<Node>, bound: nat, cs: seq<nat>)
    requires WellFormed(nodes) && bound <= |nodes|
    requires Below(cs, bound)
    ensures forall x :: x in ReachAll(nodes, bound, cs) ==> x < bound
    decreases bound, 0, |cs|
  {
    if cs != [] {
      ReachBelow(nodes, cs[0]);
      ReachAllBelow(nodes, bound, cs[1..]);
    }
  }
}
