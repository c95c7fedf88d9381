/** The depth-first traversal `buildTopo` that `backward()` runs from the root:
    a node is marked visited, its operands are visited in order, and only
    then is the node appended to `topo`. */
module Topo {
  import opened Value

  /** The two variables `buildTopo` closes over: the `visited` set and the
      `topo` list. */
  datatype Dfs = Dfs(visited: set<nat>, topo: seq<nat>)

  /** The state after `buildTopo(v)` starting from state `s`. */
  function Visit(nodes: seq<Node>, v: nat, s: Dfs): Dfs
    requires WellFormed(nodes) && v < |nodes|
    decreases v, 1, 0
  {
    if v in s.visited then s
    else
      assert Fits(nodes[v], v);
      var s' := VisitAll(nodes, v, nodes[v].prev, Dfs(s.visited + {v}, s.topo));
      Dfs(s'.visited, s'.topo + [v])
  }

  /** The state after the loop `for (const child of cs) buildTopo(child)`. */
  function VisitAll(nodes: seq<Node>, bound: nat, cs: seq<nat>, s: Dfs): Dfs
    requires WellFormed(nodes) && bound <= |nodes| && Below(cs, bound)
    decreases bound, 0, |cs|
  {
    if cs == [] then s else VisitAll(nodes, bound, cs[1..], Visit(nodes, cs[0], s))
  }

  /** A node not yet visited ends up last in `topo`. */
  lemma VisitFreshEnds(nodes: seq<Node>, v: nat, s: Dfs)
    requires WellFormed(nodes) && v < |nodes| && v !in s.visited
    ensures |Visit(nodes, v, s).topo| > 0 && Visit(nodes, v, s).topo[|Visit(nodes, v, s).topo| - 1] == v
  {
  }

  /** `buildTopo` itself: the recursive traversal with its loop over the
      operands, proved to compute `Visit`. */
  method BuildTopo(nodes: seq<Node>, v: nat, visited0: set<nat>, topo0: seq<nat>)
    returns (visited: set<nat>, topo: seq<nat>)
    requires WellFormed(nodes) && v < |nodes|
    ensures Dfs(visited, topo) == Visit(nodes, v, Dfs(visited0, topo0))
    decreases v
  {
    visited, topo := visited0, topo0;
    if v !in visited {
      visited := visited + {v};
      assert Fits(nodes[v], v);
      var children := nodes[v].prev;
      for j := 0 to |children|
        invariant VisitAll(nodes, v, children, Dfs(visited0 + {v}, topo0))
               == VisitAll(nodes, v, children[j..], Dfs(visited, topo))
      {
        assert children[j..][1..] == children[j + 1..];
        visited, topo := BuildTopo(nodes, children[j], visited, topo);
      }
      assert children[|children|..] == [];
      topo := topo + [v];
    }
  }

  ghost predicate NoDup(s: seq<nat>) {
    forall p, q :: 0 <= p < q < |s| ==> s[p] != s[q]
  }

  /** Every node of `topo` comes after all of its operands. */
  ghost predicate OperandsFirst(nodes: seq<Node>, topo: seq<nat>)
    requires InArena(nodes, topo)
  {
    forall k, j :: 0 <= k < |topo| && 0 <= j < |nodes[topo[k]].prev| ==>
      nodes[topo[k]].prev[j] in topo[..k]
  }

  /** What holds of the traversal state between calls: `topo` lists visited
      nodes, once each, operands first. */
  ghost predicate DfsInv(nodes: seq<Node>, s: Dfs) {
    && (forall x :: x in s.visited ==> x < |nodes|)
    && (forall k :: 0 <= k < |s.topo| ==> s.topo[k] in s.visited)
    && NoDup(s.topo)
    && InArena(nodes, s.topo)
    && OperandsFirst(nodes, s.topo)
  }

  /** A node that is visited but not yet in `topo` is still on the call
      stack, so it lies at or above `bound`. */
  ghost predicate PendingAbove(s: Dfs, bound: nat) {
    forall x :: x in s.visited && x !in s.topo ==> bound <= x
  }

  /** How the state grows from `s` to `r`: `topo` is extended, nothing new
      is left pending, and the appended nodes are drawn from `reach`. */
  ghost predicate Grows(s: Dfs, r: Dfs, reach: set<nat>) {
    && |s.topo| <= |r.topo|
    && r.topo[..|s.topo|] == s.topo
    && s.visited <= r.visited
    && (forall x :: x in r.visited && x !in r.topo ==> x in s.visited && x !in s.topo)
    && (forall k :: |s.topo| <= k < |r.topo| ==> r.topo[k] in reach)
  }

  /** Marking v visited keeps the invariant. */
  lemma MarkSound(nodes: seq<Node>, v: nat, s: Dfs)
    requires v < |nodes| && DfsInv(nodes, s)
    ensures DfsInv(nodes, Dfs(s.visited + {v}, s.topo))
  {
  }

  /** Appending v, once its operands are all in `topo`, keeps the invariant. */
  lemma PushSound(nodes: seq<Node>, v: nat, s: Dfs)
    requires WellFormed(nodes) && v < |nodes| && DfsInv(nodes, s)
    requires v in s.visited && v !in s.topo
    requires forall j :: 0 <= j < |nodes[v].prev| ==> nodes[v].prev[j] in s.topo
    ensures DfsInv(nodes, Dfs(s.visited, s.topo + [v]))
  {
    var t := s.topo + [v];
    assert t[..|s.topo|] == s.topo;
    forall k, j | 0 <= k < |t| && 0 <= j < |nodes[t[k]].prev|
      ensures nodes[t[k]].prev[j] in t[..k]
    {
      if k < |s.topo| {
        assert t[..k] == s.topo[..k];
      } else {
        assert t[..k] == s.topo;
      }
    }
  }

  /** Growth composes. */
  lemma GrowsTrans(s: Dfs, m: Dfs, r: Dfs, reach1: set<nat>, reach2: set<nat>, reach: set<nat>)
    requires Grows(s, m, reach1) && Grows(m, r, reach2)
    requires reach1 <= reach && reach2 <= reach
    ensures Grows(s, r, reach)
  {
    assert r.topo[..|s.topo|] == m.topo[..|s.topo|];
    forall k | |s.topo| <= k < |r.topo| ensures r.topo[k] in reach {
      if k < |m.topo| {
        assert r.topo[k] == m.topo[k];
      }
    }
  }

  lemma {:induction false} VisitSound(nodes: seq<Node>, v: nat, s: Dfs)
    requires WellFormed(nodes) && v < |nodes|
    requires DfsInv(nodes, s) && PendingAbove(s, v + 1)
    ensures DfsInv(nodes, Visit(nodes, v, s))
    ensures Grows(s, Visit(nodes, v, s), Reach(nodes, v))
    ensures v in Visit(nodes, v, s).topo
    decreases v, 1, 0
  {
    if v !in s.visited {
      assert Fits(nodes[v], v);
      var cs := nodes[v].prev;
      var s1 := Dfs(s.visited + {v}, s.topo);
      MarkSound(nodes, v, s);
      VisitAllSound(nodes, v, cs, s1);
      var s2 := VisitAll(nodes, v, cs, s1);
      ReachAllBelow(nodes, v, cs);
      assert v !in s2.topo by {
        forall k | 0 <= k < |s2.topo| ensures s2.topo[k] != v {
          if k < |s.topo| {
            assert s2.topo[k] == s.topo[k];
          }
        }
      }
      PushSound(nodes, v, s2);
      var r := Dfs(s2.visited, s2.topo + [v]);
      assert r == Visit(nodes, v, s);
      assert Grows(s2, r, {v}) by {
        assert r.topo[..|s2.topo|] == s2.topo;
      }
      assert Reach(nodes, v) == {v} + ReachAll(nodes, v, cs);
      GrowsTrans(s1, s2, r, ReachAll(nodes, v, cs), {v}, Reach(nodes, v));
      UnmarkGrows(s, v, r, Reach(nodes, v));
    }
  }

  /** A traversal that started by marking v and ended with v in `topo` grew
      from the state before the mark. */
  lemma UnmarkGrows(s: Dfs, v: nat, r: Dfs, reach: set<nat>)
    requires Grows(Dfs(s.visited + {v}, s.topo), r, reach) && v in r.topo
    ensures Grows(s, r, reach)
  {
  }

  lemma {:induction false} VisitAllSound(nodes: seq<Node>, bound: nat, cs: seq<nat>, s: Dfs)
    requires WellFormed(nodes) && bound <= |nodes| && Below(cs, bound)
    requires DfsInv(nodes, s) && PendingAbove(s, bound)
    ensures DfsInv(nodes, VisitAll(nodes, bound, cs, s))
    ensures Grows(s, VisitAll(nodes, bound, cs, s), ReachAll(nodes, bound, cs))
    ensures forall j :: 0 <= j < |cs| ==> cs[j] in VisitAll(nodes, bound, cs, s).topo
    decreases bound, 0, |cs|
  {
    if cs == [] {
      assert s.topo[..|s.topo|] == s.topo;
    } else {
      var s1 := Visit(nodes, cs[0], s);
      VisitSound(nodes, cs[0], s);
      assert PendingAbove(s1, bound);
      VisitAllSound(nodes, bound, cs[1..], s1);
      var r := VisitAll(nodes, bound, cs[1..], s1);
      assert r == VisitAll(nodes, bound, cs, s);
      GrowsTrans(s, s1, r, Reach(nodes, cs[0]), ReachAll(nodes, bound, cs[1..]), ReachAll(nodes, bound, cs));
      HeadAndTailIn(cs, s1.topo, r.topo);
    }
  }

  /** The first operand is in the list after its own visit, the others after
      theirs; a list that only grows keeps them all. */
  lemma HeadAndTailIn(cs: seq<nat>, t1: seq<nat>, t: seq<nat>)
    requires |cs| > 0 && |t1| <= |t| && t[..|t1|] == t1 && cs[0] in t1
    requires forall j :: 0 <= j < |cs[1..]| ==> cs[1..][j] in t
    ensures forall j :: 0 <= j < |cs| ==> cs[j] in t
  {
    assert cs[0] in t by {
      var p :| 0 <= p < |t1| && t1[p] == cs[0];
      assert t[p] == t1[p];
    }
    forall j | 0 <= j < |cs| ensures cs[j] in t {
      if j > 0 { assert cs[j] == cs[1..][j - 1]; }
    }
  }

  /** When `topo` lists every node after its operands, it contains
      everything reachable from any node it contains. */
  lemma {:induction false} ClosedHoldsReach(nodes: seq<Node>, topo: seq<nat>, v: nat)
    requires WellFormed(nodes) && v < |nodes| && InArena(nodes, topo)
    requires OperandsFirst(nodes, topo) && v in topo
    ensures forall x :: x in Reach(nodes, v) ==> x in topo
    decreases v, 1, 0
  {
    assert Fits(nodes[v], v);
    var k :| 0 <= k < |topo| && topo[k] == v;
    ClosedHoldsReachAll(nodes, topo, v, nodes[v].prev);
  }

  lemma {:induction false} ClosedHoldsReachAll(nodes: seq<Node>, topo: seq<nat>, bound: nat, cs: seq<nat>)
    requires WellFormed(nodes) && bound <= |nodes| && Below(cs, bound) && InArena(nodes, topo)
    requires OperandsFirst(nodes, topo) && forall j :: 0 <= j < |cs| ==> cs[j] in topo
    ensures forall x :: x in ReachAll(nodes, bound, cs) ==> x in topo
    decreases bound, 0, |cs|
  {
    if cs != [] {
      ClosedHoldsReach(nodes, topo, cs[0]);
      ClosedHoldsReachAll(nodes, topo, bound, cs[1..]);
    }
  }

  /** The list `buildTopo(root)` leaves in `topo`: every node reachable from
      the root exactly once, each after all of its operands, the root last. */
  function TopoOrder(nodes: seq<Node>, root: nat): (t: seq<nat>)
    requires WellFormed(nodes) && root < |nodes|
    ensures |t| > 0 && t[|t| - 1] == root
    ensures NoDup(t) && InArena(nodes, t) && OperandsFirst(nodes, t)
    ensures forall x :: x in t <==> x in Reach(nodes, root)
  {
    var s0 := Dfs({}, []);
    assert DfsInv(nodes, s0) && PendingAbove(s0, root + 1);
    VisitSound(nodes, root, s0);
    VisitFreshEnds(nodes, root, s0);
    var t := Visit(nodes, root, s0).topo;
    assert forall x :: x in t ==> x in Reach(nodes, root) by {
      forall x | x in t ensures x in Reach(nodes, root) {
        var k :| 0 <= k < |t| && t[k] == x;
      }
    }
    ClosedHoldsReach(nodes, t, root);
    t
  }
}
