/** Reverse-mode propagation: `backward()` seeds the root's gradient with 1,
    reverses the `buildTopo` list and runs every node's rule in that order. */
module Backprop {
  import opened Value
  import opened Topo

  function Reversed(s: seq<nat>): (r: seq<nat>)
    ensures |r| == |s|
    ensures forall k :: 0 <= k < |s| ==> r[k] == s[|s| - 1 - k]
  {
    if s == [] then [] else [s[|s| - 1]] + Reversed(s[..|s| - 1])
  }

  /** Every operand of a node in `order` appears later in `order`. */
  ghost predicate OperandsLater(nodes: seq<Node>, order: seq<nat>)
    requires InArena(nodes, order)
  {
    forall k, j :: 0 <= k < |order| && 0 <= j < |nodes[order[k]].prev| ==>
      nodes[order[k]].prev[j] in order[k + 1..]
  }

  lemma ReversedOperandsLater(nodes: seq<Node>, t: seq<nat>)
    requires InArena(nodes, t) && OperandsFirst(nodes, t) && NoDup(t)
    ensures InArena(nodes, Reversed(t)) && NoDup(Reversed(t))
    ensures OperandsLater(nodes, Reversed(t))
  {
    var r, n := Reversed(t), |t|;
    forall k, j | 0 <= k < n && 0 <= j < |nodes[r[k]].prev|
      ensures nodes[r[k]].prev[j] in r[k + 1..]
    {
      var c := nodes[r[k]].prev[j];
      assert c in t[..n - 1 - k];
      var p :| 0 <= p < n - 1 - k && t[p] == c;
      assert r[k + 1..][n - 2 - k - p] == c;
    }
  }

  /** The order in which `backward()` runs the rules: the `buildTopo` list
      after `topo.reverse()`. It holds every node reachable from the root
      once, the root first and every node before all of its operands. */
  function BackwardOrder(nodes: seq<Node>, root: nat): (order: seq<nat>)
    requires WellFormed(nodes) && root < |nodes|
    ensures |order| > 0 && order[0] == root
    ensures NoDup(order) && InArena(nodes, order) && OperandsLater(nodes, order)
    ensures forall x :: x in order <==> x in Reach(nodes, root)
  {
    var t := TopoOrder(nodes, root);
    ReversedOperandsLater(nodes, t);
    assert forall x :: x in Reversed(t) <==> x in t by {
      forall x | x in t ensures x in Reversed(t) {
        var p :| 0 <= p < |t| && t[p] == x;
        assert Reversed(t)[|t| - 1 - p] == x;
      }
    }
    Reversed(t)
  }

  /** The gradient vector after running the rules of `order`, one after the
      other, on `g`. */
  function Propagate(nodes: seq<Node>, g: seq<real>, order: seq<nat>): (r: seq<real>)
    requires WellFormed(nodes) && |g| == |nodes| && InArena(nodes, order)
    ensures |r| == |g|
  {
    if order == [] then g
    else ApplyRule(nodes, Propagate(nodes, g, order[..|order| - 1]), order[|order| - 1])
  }

  /** The order `backward()` runs is the reversed list of the depth-first
      visit from the root. */
  lemma BackwardOrderIsVisit(nodes: seq<Node>, root: nat)
    requires WellFormed(nodes) && root < |nodes|
    ensures BackwardOrder(nodes, root) == Reversed(Visit(nodes, root, Dfs({}, [])).topo)
  {
  }

  /** Running one more rule after `order`. */
  lemma PropagateStep(nodes: seq<Node>, g: seq<real>, order: seq<nat>, i: nat)
    requires WellFormed(nodes) && |g| == |nodes| && InArena(nodes, order) && i < |nodes|
    ensures InArena(nodes, order + [i])
    ensures Propagate(nodes, g, order + [i]) == ApplyRule(nodes, Propagate(nodes, g, order), i)
  {
    assert (order + [i])[..|order|] == order;
  }

  /** Running the first k + 1 rules of `order` is running the first k, then
      the rule of `order[k]`. */
  lemma PropagateNext(nodes: seq<Node>, g: seq<real>, order: seq<nat>, k: nat)
    requires WellFormed(nodes) && |g| == |nodes| && InArena(nodes, order) && k < |order|
    ensures Propagate(nodes, g, order[..k + 1]) == ApplyRule(nodes, Propagate(nodes, g, order[..k]), order[k])
  {
    assert order[..k + 1][..k] == order[..k];
  }

  /** Two rules run one after the other. */
  lemma PropagateTwo(nodes: seq<Node>, g: seq<real>, i: nat, j: nat)
    requires WellFormed(nodes) && |g| == |nodes| && i < |nodes| && j < |nodes|
    ensures InArena(nodes, [i, j])
    ensures Propagate(nodes, g, [i, j]) == ApplyRule(nodes, ApplyRule(nodes, g, i), j)
  {
    PropagateStep(nodes, g, [], i);
    assert [] + [i] == [i];
    PropagateStep(nodes, g, [i], j);
    assert [i] + [j] == [i, j];
  }

  /** Three rules run one after the other. */
  lemma PropagateThree(nodes: seq<Node>, g: seq<real>, i: nat, j: nat, k: nat)
    requires WellFormed(nodes) && |g| == |nodes| && i < |nodes| && j < |nodes| && k < |nodes|
    ensures InArena(nodes, [i, j, k])
    ensures Propagate(nodes, g, [i, j, k]) == ApplyRule(nodes, ApplyRule(nodes, ApplyRule(nodes, g, i), j), k)
  {
    PropagateTwo(nodes, g, i, j);
    PropagateStep(nodes, g, [i, j], k);
    assert [i, j] + [k] == [i, j, k];
  }

  /** Five rules run one after the other, each step given. */
  lemma PropagateFive(nodes: seq<Node>, g: seq<real>, o: seq<nat>,
               p1: seq<real>, p2: seq<real>, p3: seq<real>, p4: seq<real>, p5: seq<real>)
    requires WellFormed(nodes) && |g| == |nodes| && |o| == 5 && InArena(nodes, o)
    requires ApplyRule(nodes, g, o[0]) == p1 && ApplyRule(nodes, p1, o[1]) == p2
    requires ApplyRule(nodes, p2, o[2]) == p3 && ApplyRule(nodes, p3, o[3]) == p4
    requires ApplyRule(nodes, p4, o[4]) == p5
    ensures Propagate(nodes, g, o) == p5
  {
    assert o[..0] == [] && o[..5] == o;
    PropagateNext(nodes, g, o, 0);
    PropagateNext(nodes, g, o, 1);
    PropagateNext(nodes, g, o, 2);
    PropagateNext(nodes, g, o, 3);
    PropagateNext(nodes, g, o, 4);
  }

  /** The gradients `root.backward()` leaves behind, starting from `g`. */
  function BackwardGrads(nodes: seq<Node>, g: seq<real>, root: nat): (r: seq<real>)
    requires WellFormed(nodes) && |g| == |nodes| && root < |nodes|
    ensures |r| == |g|
  {
    Propagate(nodes, g[root := 1.0], BackwardOrder(nodes, root))
  }

  lemma {:induction false} PropagateAppend(nodes: seq<Node>, g: seq<real>, a: seq<nat>, b: seq<nat>)
    requires WellFormed(nodes) && |g| == |nodes| && InArena(nodes, a) && InArena(nodes, b)
    ensures InArena(nodes, a + b)
    ensures Propagate(nodes, g, a + b) == Propagate(nodes, Propagate(nodes, g, a), b)
    decreases |b|
  {
    if b == [] {
      assert a + b == a;
    } else {
      assert (a + b)[..|a + b| - 1] == a + b[..|b| - 1];
      PropagateAppend(nodes, g, a, b[..|b| - 1]);
    }
  }

  /** Running rules none of which names x as an operand leaves x's gradient
      alone. */
  lemma {:induction false} PropagateUntouched(nodes: seq<Node>, g: seq<real>, order: seq<nat>, x: nat)
    requires WellFormed(nodes) && |g| == |nodes| && InArena(nodes, order) && x < |g|
    requires forall k :: 0 <= k < |order| ==> x !in nodes[order[k]].prev
    ensures Propagate(nodes, g, order)[x] == g[x]
    decreases |order|
  {
    if order != [] {
      PropagateUntouched(nodes, g, order[..|order| - 1], x);
    }
  }

  /** By the time `backward()` runs the rule of the k-th node of its order,
      that node's gradient is final: every node that uses it has already run,
      and nothing run later writes to it. */
  lemma GradSettled(nodes: seq<Node>, g: seq<real>, root: nat, k: nat)
    requires WellFormed(nodes) && |g| == |nodes| && root < |nodes|
    requires k < |BackwardOrder(nodes, root)|
    ensures var order := BackwardOrder(nodes, root);
      Propagate(nodes, g, order[..k])[order[k]] == Propagate(nodes, g, order)[order[k]]
  {
    var order := BackwardOrder(nodes, root);
    var pre, rest := order[..k], order[k..];
    assert order == pre + rest;
    PropagateAppend(nodes, g, pre, rest);
    RestDoesNotUse(nodes, order, k);
    PropagateUntouched(nodes, Propagate(nodes, g, pre), rest, order[k]);
  }

  /** No node from position k on uses the node at position k. */
  lemma RestDoesNotUse(nodes: seq<Node>, order: seq<nat>, k: nat)
    requires WellFormed(nodes) && InArena(nodes, order) && NoDup(order) && OperandsLater(nodes, order)
    requires k < |order|
    ensures forall m :: 0 <= m < |order[k..]| ==> order[k] !in nodes[order[k..][m]].prev
  {
    forall m | 0 <= m < |order[k..]| ensures order[k] !in nodes[order[k..][m]].prev {
      assert order[k..][m] == order[k + m];
      if m > 0 {
        NotUsedLater(nodes, order, k, k + m);
      } else {
        assert Fits(nodes[order[k]], order[k]);
      }
    }
  }

  /** `backward()` leaves the root's gradient at 1: no rule it runs writes to
      the root. */
  lemma BackwardRootIsOne(nodes: seq<Node>, g: seq<real>, root: nat)
    requires WellFormed(nodes) && |g| == |nodes| && root < |nodes|
    ensures BackwardGrads(nodes, g, root)[root] == 1.0
  {
    var order := BackwardOrder(nodes, root);
    GradSettled(nodes, g[root := 1.0], root, 0);
    assert order[..0] == [];
  }

  /** `backward()` changes no gradient outside the part of the graph the root
      reaches. */
  lemma BackwardFrame(nodes: seq<Node>, g: seq<real>, root: nat, x: nat)
    requires WellFormed(nodes) && |g| == |nodes| && root < |nodes| && x < |nodes|
    requires x !in Reach(nodes, root)
    ensures BackwardGrads(nodes, g, root)[x] == g[x]
  {
    var order := BackwardOrder(nodes, root);
    var seeded := g[root := 1.0];
    assert x !in order;
    assert x != root;
    assert seeded[x] == g[x];
    PropagateOutside(nodes, seeded, order, x);
    assert BackwardGrads(nodes, g, root)[x] == Propagate(nodes, seeded, order)[x];
  }

  /** Running an order whose operands come later leaves the gradient of a
      node outside it alone: none of the order's nodes uses it. */
  lemma PropagateOutside(nodes: seq<Node>, g: seq<real>, order: seq<nat>, x: nat)
    requires WellFormed(nodes) && |g| == |nodes| && x < |g|
    requires InArena(nodes, order) && OperandsLater(nodes, order) && x !in order
    ensures Propagate(nodes, g, order)[x] == g[x]
  {
    forall k | 0 <= k < |order| ensures x !in nodes[order[k]].prev {
      forall c | c in nodes[order[k]].prev ensures c in order {
        OperandInOrder(nodes, order, k, c);
      }
    }
    PropagateUntouched(nodes, g, order, x);
  }

  lemma OperandInOrder(nodes: seq<Node>, order: seq<nat>, k: nat, c: nat)
    requires InArena(nodes, order) && OperandsLater(nodes, order)
    requires k < |order| && c in nodes[order[k]].prev
    ensures c in order
  {
    var j :| 0 <= j < |nodes[order[k]].prev| && nodes[order[k]].prev[j] == c;
    assert c in order[k + 1..];
    var p :| 0 <= p < |order[k + 1..]| && order[k + 1..][p] == c;
    assert order[k + 1 + p] == c;
  }

  /** In an order where operands come later and nothing repeats, no node
      after position k uses the node at position k. */
  lemma NotUsedLater(nodes: seq<Node>, order: seq<nat>, k: nat, m: nat)
    requires InArena(nodes, order) && NoDup(order) && OperandsLater(nodes, order)
    requires k < m < |order|
    ensures order[k] !in nodes[order[m]].prev
  {
    if order[k] in nodes[order[m]].prev {
      assert false;
    }
  }

  /** No node of `order` is an exp node, whose rule would overwrite. */
  ghost predicate NoExpIn(nodes: seq<Node>, order: seq<nat>)
    requires InArena(nodes, order)
  {
    forall k :: 0 <= k < |order| ==> nodes[order[k]].rule != ExpRule
  }

  /** The sum, over the nodes of `order`, of what each owes x by the chain
      rule when its own gradient is read from `grads`. */
  function Inflow(nodes: seq<Node>, order: seq<nat>, x: nat, grads: seq<real>): real
    requires WellFormed(nodes) && InArena(nodes, order) && |grads| == |nodes|
  {
    if order == [] then 0.0
    else
      var i := order[|order| - 1];
      Inflow(nodes, order[..|order| - 1], x, grads) + Contrib(nodes, i, x, grads[i])
  }

  /** The same sum, but with each node's gradient as it stood when its rule
      ran. */
  ghost function Received(nodes: seq<Node>, g: seq<real>, order: seq<nat>, x: nat): real
    requires WellFormed(nodes) && |g| == |nodes| && InArena(nodes, order)
  {
    if order == [] then 0.0
    else
      var pre := order[..|order| - 1];
      var i := order[|order| - 1];
      Received(nodes, g, pre, x) + Contrib(nodes, i, x, Propagate(nodes, g, pre)[i])
  }

  lemma {:induction false} PropagateReceives(nodes: seq<Node>, g: seq<real>, order: seq<nat>, x: nat)
    requires WellFormed(nodes) && |g| == |nodes| && InArena(nodes, order) && x < |g|
    requires NoExpIn(nodes, order)
    ensures Propagate(nodes, g, order)[x] == g[x] + Received(nodes, g, order, x)
    decreases |order|
  {
    if order != [] {
      var pre := order[..|order| - 1];
      assert NoExpIn(nodes, pre);
      PropagateReceives(nodes, g, pre, x);
      RuleAccumulates(nodes, Propagate(nodes, g, pre), order[|order| - 1], x);
    }
  }

  lemma {:induction false} ReceivedIsInflow(nodes: seq<Node>, g: seq<real>, root: nat, x: nat, m: nat)
    requires WellFormed(nodes) && |g| == |nodes| && root < |nodes|
    requires m <= |BackwardOrder(nodes, root)|
    ensures var order := BackwardOrder(nodes, root);
      Received(nodes, g, order[..m], x) == Inflow(nodes, order[..m], x, Propagate(nodes, g, order))
  {
    if m > 0 {
      var order := BackwardOrder(nodes, root);
      assert order[..m][..m - 1] == order[..m - 1];
      ReceivedIsInflow(nodes, g, root, x, m - 1);
      GradSettled(nodes, g, root, m - 1);
    }
  }

  /** The chain rule, with accumulation across shared operands: after
      `backward()` from a root that reaches no exp node, every node's
      gradient is its seed plus, summed over every node the root reaches
      that uses it (once per operand slot), that node's local derivative
      times that node's final gradient. A user the root does not reach
      contributes nothing. */
  lemma BackwardChainRule(nodes: seq<Node>, g: seq<real>, root: nat, x: nat)
    requires WellFormed(nodes) && |g| == |nodes| && root < |nodes| && x < |nodes|
    requires forall i :: 0 <= i < |nodes| && i in Reach(nodes, root) ==> nodes[i].rule != ExpRule
    ensures var grads := BackwardGrads(nodes, g, root);
      grads[x] == g[root := 1.0][x] + Inflow(nodes, BackwardOrder(nodes, root), x, grads)
  {
    var order := BackwardOrder(nodes, root);
    assert NoExpIn(nodes, order);
    PropagateReceives(nodes, g[root := 1.0], order, x);
    ReceivedIsInflow(nodes, g[root := 1.0], root, x, |order|);
    assert order[..|order|] == order;
  }

  function Zeros(n: nat): (z: seq<real>)
    ensures |z| == n && forall k :: 0 <= k < n ==> z[k] == 0.0
  {
    seq(n, _ => 0.0)
  }

  function Plus(a: seq<real>, b: seq<real>): (r: seq<real>)
    requires |a| == |b|
    ensures |r| == |a| && forall k :: 0 <= k < |a| ==> r[k] == a[k] + b[k]
  {
    seq(|a|, k requires 0 <= k < |a| => a[k] + b[k])
  }

  /** Among the nodes of `order`, only leaves hold a nonzero entry of `h`. */
  ghost predicate OnLeavesOnly(nodes: seq<Node>, h: seq<real>, order: seq<nat>)
    requires |h| == |nodes| && InArena(nodes, order)
  {
    forall k :: 0 <= k < |order| && nodes[order[k]].rule != NoOp ==> h[order[k]] == 0.0
  }

  /** Gradient left on the leaves of `order` passes through its rules
      unchanged, on top of what the rules add, when none of them is exp. */
  lemma {:induction false} PropagateShift(nodes: seq<Node>, g: seq<real>, h: seq<real>, order: seq<nat>)
    requires WellFormed(nodes) && |g| == |nodes| && |h| == |nodes|
    requires InArena(nodes, order) && NoExpIn(nodes, order) && OnLeavesOnly(nodes, h, order)
    ensures forall x :: 0 <= x < |g| ==>
      Propagate(nodes, Plus(g, h), order)[x] == Propagate(nodes, g, order)[x] + h[x]
    decreases |order|
  {
    if order != [] {
      var pre, i := order[..|order| - 1], order[|order| - 1];
      assert NoExpIn(nodes, pre) && OnLeavesOnly(nodes, h, pre);
      PropagateShift(nodes, g, h, pre);
      var p, q := Propagate(nodes, g, pre), Propagate(nodes, Plus(g, h), pre);
      assert Fits(nodes[i], i);
      forall x | 0 <= x < |g|
        ensures ApplyRule(nodes, q, i)[x] == ApplyRule(nodes, p, i)[x] + h[x]
      {
        RuleAccumulates(nodes, q, i, x);
        RuleAccumulates(nodes, p, i, x);
        if nodes[i].rule != NoOp {
          assert q[i] == p[i];
        }
      }
    }
  }

  /** Gradients are never reset: when, among the nodes the root reaches,
      stale gradients sit only on leaves and on the root (which is reseeded
      with 1), and none of those nodes is exp, `backward()` ends with the
      fresh gradients plus the stale ones. Nodes the root does not reach may
      hold anything: they keep it (`BackwardFrame`). */
  lemma StaleLeafGradsCarryOver(nodes: seq<Node>, g: seq<real>, root: nat, x: nat)
    requires WellFormed(nodes) && |g| == |nodes| && root < |nodes| && x < |nodes|
    requires forall i :: 0 <= i < |nodes| && i in Reach(nodes, root) ==> nodes[i].rule != ExpRule
    requires forall i :: 0 <= i < |nodes| && i in Reach(nodes, root) && i != root && nodes[i].rule != NoOp ==> g[i] == 0.0
    requires x != root
    ensures BackwardGrads(nodes, g, root)[x]
         == BackwardGrads(nodes, Zeros(|nodes|), root)[x] + g[x]
  {
    var z := Zeros(|nodes|);
    var h := g[root := 0.0];
    var order := BackwardOrder(nodes, root);
    assert g[root := 1.0] == Plus(z[root := 1.0], h);
    assert NoExpIn(nodes, order) && OnLeavesOnly(nodes, h, order);
    PropagateShift(nodes, z[root := 1.0], h, order);
  }
}
