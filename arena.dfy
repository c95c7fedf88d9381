/** The `Value` objects of one computation, as an arena: every operation
    appends a fresh node and changes no existing one; `backward()` updates
    the `grad` fields in place. */
module Arena {
  import opened Value
  import opened Topo
  import opened Backprop

  class Graph {
    /** `Math.exp`, which the forward values of `tanh` and `exp` call:
        positive everywhere, and 1 at 0. */
    const MathExp: real -> real
    /** The `data`, `_prev` and rule of every `Value` created so far. */
    var nodes: seq<Node>
    /** The `grad` field of every `Value`. */
    var grad: seq<real>

    ghost predicate Valid()
      reads this
    {
      WellFormed(nodes) && |grad| == |nodes| && (forall x :: MathExp(x) > 0.0) && MathExp(0.0) == 1.0
    }

    constructor (mathExp: real -> real)
      requires (forall x :: mathExp(x) > 0.0) && mathExp(0.0) == 1.0
      ensures Valid() && MathExp == mathExp
      ensures nodes == [] && grad == []
    {
      MathExp := mathExp;
      nodes := [];
      grad := [];
    }

    /** The `Value` constructor: a fresh node with the given data, operands
        and rule, whose `grad` starts at 0. */
    method Push(n: Node) returns (out: nat)
      requires Valid() && Fits(n, |nodes|)
      modifies this
      ensures Valid() && out == old(|nodes|)
      ensures nodes == old(nodes) + [n] && grad == old(grad) + [0.0]
    {
      nodes := nodes + [n];
      grad := grad + [0.0];
      out := |nodes| - 1;
    }

    /** `v(num)`: a leaf with no operands and the no-op rule. */
    method Leaf(x: real) returns (out: nat)
      requires Valid()
      modifies this
      ensures Valid() && out == old(|nodes|)
      ensures nodes == old(nodes) + [Node(x, [], NoOp)] && grad == old(grad) + [0.0]
    {
      out := Push(Node(x, [], NoOp));
    }

    method Add(a: nat, b: nat) returns (out: nat)
      requires Valid() && a < |nodes| && b < |nodes|
      modifies this
      ensures Valid() && out == old(|nodes|)
      ensures nodes == old(nodes) + [Node(old(nodes[a].data) + old(nodes[b].data), [a, b], AddRule)]
      ensures grad == old(grad) + [0.0]
    {
      out := Push(Node(nodes[a].data + nodes[b].data, [a, b], AddRule));
    }

    method Mul(a: nat, b: nat) returns (out: nat)
      requires Valid() && a < |nodes| && b < |nodes|
      modifies this
      ensures Valid() && out == old(|nodes|)
      ensures nodes == old(nodes) + [Node(old(nodes[a].data) * old(nodes[b].data), [a, b], MulRule)]
      ensures grad == old(grad) + [0.0]
    {
      out := Push(Node(nodes[a].data * nodes[b].data, [a, b], MulRule));
    }

    method Pow(a: nat, k: int) returns (out: nat)
      requires Valid() && a < |nodes|
      modifies this
      ensures Valid() && out == old(|nodes|)
      ensures nodes == old(nodes) + [Node(Power(old(nodes[a].data), k), [a], PowRule(k))]
      ensures grad == old(grad) + [0.0]
    {
      out := Push(Node(Power(nodes[a].data, k), [a], PowRule(k)));
    }

    /** `tanh()`: the forward value is computed from `Math.exp(2 * x)` and
        lies strictly between -1 and 1. */
    method Tanh(a: nat) returns (out: nat)
      requires Valid() && a < |nodes|
      modifies this
      ensures Valid() && out == old(|nodes|)
      ensures nodes == old(nodes) + [Node(TanhFromExp(MathExp(2.0 * old(nodes[a].data))), [a], TanhRule)]
      ensures grad == old(grad) + [0.0]
      ensures -1.0 < nodes[out].data < 1.0
    {
      var t := TanhFromExp(MathExp(2.0 * nodes[a].data));
      out := Push(Node(t, [a], TanhRule));
    }

    method Exp(a: nat) returns (out: nat)
      requires Valid() && a < |nodes|
      modifies this
      ensures Valid() && out == old(|nodes|)
      ensures nodes == old(nodes) + [Node(MathExp(old(nodes[a].data)), [a], ExpRule)]
      ensures grad == old(grad) + [0.0]
    {
      out := Push(Node(MathExp(nodes[a].data), [a], ExpRule));
    }

    /** `neg()`: multiplication by a fresh leaf holding -1. */
    method Neg(a: nat) returns (out: nat)
      requires Valid() && a < |nodes|
      modifies this
      ensures Valid() && out == old(|nodes|) + 1
      ensures nodes == old(nodes) + [Node(-1.0, [], NoOp),
                                     Node(old(nodes[a].data) * -1.0, [a, out - 1], MulRule)]
      ensures grad == old(grad) + [0.0, 0.0]
      ensures nodes[out].data == -old(nodes[a].data)
    {
      var c := Leaf(-1.0);
      out := Mul(a, c);
    }

    /** `sub(other)`: `this.add(other.neg())`. */
    method Sub(a: nat, b: nat) returns (out: nat)
      requires Valid() && a < |nodes| && b < |nodes|
      modifies this
      ensures Valid() && out == old(|nodes|) + 2
      ensures nodes == old(nodes) + [Node(-1.0, [], NoOp),
                                     Node(old(nodes[b].data) * -1.0, [b, out - 2], MulRule),
                                     Node(old(nodes[a].data) + old(nodes[b].data) * -1.0, [a, out - 1], AddRule)]
      ensures grad == old(grad) + [0.0, 0.0, 0.0]
      ensures nodes[out].data == old(nodes[a].data) - old(nodes[b].data)
    {
      var n := Neg(b);
      out := Add(a, n);
    }

    /** `div(other)`: `this.mul(other.pow(-1))`. */
    method Div(a: nat, b: nat) returns (out: nat)
      requires Valid() && a < |nodes| && b < |nodes|
      modifies this
      ensures Valid() && out == old(|nodes|) + 1
      ensures |nodes| == out + 1 && nodes[..out] == old(nodes) + [Node(Power(old(nodes[b].data), -1), [b], PowRule(-1))]
      ensures nodes[out] == Node(old(nodes[a].data) * Power(old(nodes[b].data), -1), [a, out - 1], MulRule)
      ensures grad == old(grad) + [0.0, 0.0]
      ensures old(nodes[b].data) != 0.0 ==> nodes[out].data * old(nodes[b].data) == old(nodes[a].data)
    {
      var p := Pow(b, -1);
      out := Mul(a, p);
      assert NatPow(old(nodes[b].data), 1) == old(nodes[b].data);
    }

    /** `node._backward()`: the node's rule, updating the operands' `grad`
        fields in place. */
    method RunRule(i: nat)
      requires Valid() && i < |nodes|
      modifies this
      ensures Valid() && nodes == old(nodes)
      ensures grad == ApplyRule(nodes, old(grad), i)
    {
      assert Fits(nodes[i], i);
      match nodes[i].rule {
        case NoOp =>
        case AddRule => AddBackward(i);
        case MulRule => MulBackward(i);
        case PowRule(k) => PowBackward(i, k);
        case TanhRule => TanhBackward(i);
        case ExpRule => ExpBackward(i);
      }
    }

    /** The closure `add` installs: both operands gain the output's gradient. */
    method AddBackward(i: nat)
      requires Valid() && i < |nodes| && nodes[i].rule == AddRule
      modifies this
      ensures Valid() && nodes == old(nodes)
      ensures grad == ApplyRule(nodes, old(grad), i)
    {
      assert Fits(nodes[i], i);
      ghost var g0 := grad;
      var a, b := nodes[i].prev[0], nodes[i].prev[1];
      grad := grad[a := grad[a] + grad[i]];
      grad := grad[b := grad[b] + grad[i]];
      forall x | 0 <= x < |grad| ensures grad[x] == ApplyRule(nodes, g0, i)[x] {
      }
    }

    /** The closure `mul` installs: each operand gains the other's data
        times the output's gradient. */
    method MulBackward(i: nat)
      requires Valid() && i < |nodes| && nodes[i].rule == MulRule
      modifies this
      ensures Valid() && nodes == old(nodes)
      ensures grad == ApplyRule(nodes, old(grad), i)
    {
      assert Fits(nodes[i], i);
      ghost var g0 := grad;
      var a, b := nodes[i].prev[0], nodes[i].prev[1];
      grad := grad[a := grad[a] + nodes[b].data * grad[i]];
      grad := grad[b := grad[b] + nodes[a].data * grad[i]];
      forall x | 0 <= x < |grad| ensures grad[x] == ApplyRule(nodes, g0, i)[x] {
      }
    }

    /** The closure `pow` installs: the base gains `k * x^(k-1)` times the
        output's gradient. */
    method PowBackward(i: nat, k: int)
      requires Valid() && i < |nodes| && nodes[i].rule == PowRule(k)
      modifies this
      ensures Valid() && nodes == old(nodes)
      ensures grad == ApplyRule(nodes, old(grad), i)
    {
      assert Fits(nodes[i], i);
      ghost var g0 := grad;
      var a := nodes[i].prev[0];
      grad := grad[a := grad[a] + (k as real) * Power(nodes[a].data, k - 1) * grad[i]];
      forall x | 0 <= x < |grad| ensures grad[x] == ApplyRule(nodes, g0, i)[x] {
      }
    }

    /** The closure `tanh` installs: the operand gains `1 - t^2` times the
        output's gradient, t being the output's data. */
    method TanhBackward(i: nat)
      requires Valid() && i < |nodes| && nodes[i].rule == TanhRule
      modifies this
      ensures Valid() && nodes == old(nodes)
      ensures grad == ApplyRule(nodes, old(grad), i)
    {
      assert Fits(nodes[i], i);
      ghost var g0 := grad;
      var a := nodes[i].prev[0];
      var t := nodes[i].data;
      grad := grad[a := grad[a] + (1.0 - t * t) * grad[i]];
      forall x | 0 <= x < |grad| ensures grad[x] == ApplyRule(nodes, g0, i)[x] {
      }
    }

    /** The closure `exp` installs: the operand's gradient is set to the
        output's data times the output's gradient. */
    method ExpBackward(i: nat)
      requires Valid() && i < |nodes| && nodes[i].rule == ExpRule
      modifies this
      ensures Valid() && nodes == old(nodes)
      ensures grad == ApplyRule(nodes, old(grad), i)
    {
      assert Fits(nodes[i], i);
      ghost var g0 := grad;
      var a := nodes[i].prev[0];
      grad := grad[a := nodes[i].data * grad[i]];
      forall x | 0 <= x < |grad| ensures grad[x] == ApplyRule(nodes, g0, i)[x] {
      }
    }

    /** `root.backward()`: build the topological list, seed the root's
        gradient with 1, reverse the list and run every rule in that order.
        Other gradients are not reset first. */
    method Backward(root: nat)
      requires Valid() && root < |nodes|
      modifies this
      ensures Valid() && nodes == old(nodes)
      ensures grad == BackwardGrads(nodes, old(grad), root)
    {
      var visited, topo := BuildTopo(nodes, root, {}, []);
      var order := Reversed(topo);
      BackwardOrderIsVisit(nodes, root);
      grad := grad[root := 1.0];
      ghost var seeded := grad;
      for k := 0 to |order|
        invariant Valid() && nodes == old(nodes)
        invariant grad == Propagate(nodes, seeded, order[..k])
      {
        PropagateNext(nodes, seeded, order, k);
        RunRule(order[k]);
      }
      assert order[..|order|] == order;
    }
  }
}
