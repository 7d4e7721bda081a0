/** Finite directed graphs: walks, cycles, and the facts about acyclic graphs
    that the workflow validator and the workflow engine rely on. */
module Graph {

  type Key = string
  type Edges = set<(Key, Key)>

  ghost predicate Linked(g: Edges, p: seq<Key>, i: nat)
    requires 1 <= i < |p|
  {
    (p[i - 1], p[i]) in g
  }

  /** `p` follows edges of `g`; a single vertex is a walk of no edges. */
  ghost predicate IsWalk(g: Edges, p: seq<Key>) {
    && |p| >= 1
    && forall i {:trigger Linked(g, p, i)} :: 1 <= i < |p| ==> Linked(g, p, i)
  }

  lemma WalkSlice(g: Edges, p: seq<Key>, lo: nat, hi: nat)
    requires IsWalk(g, p) && lo < hi <= |p|
    ensures IsWalk(g, p[lo..hi])
  {
    forall i | 1 <= i < hi - lo ensures Linked(g, p[lo..hi], i) {
      assert Linked(g, p, lo + i);
    }
  }

  lemma WalkExtend(g: Edges, p: seq<Key>, k: Key)
    requires IsWalk(g, p) && (p[|p| - 1], k) in g
    ensures IsWalk(g, p + [k])
  {
    forall i | 1 <= i < |p| + 1 ensures Linked(g, p + [k], i) {
      if i < |p| {
        assert Linked(g, p, i);
      }
    }
  }

  ghost predicate IsCycle(g: Edges, p: seq<Key>) {
    IsWalk(g, p) && |p| >= 2 && p[0] == p[|p| - 1]
  }

  ghost predicate Acyclic(g: Edges) {
    forall p :: !IsCycle(g, p)
  }

  function Reverse(g: Edges): Edges {
    set e | e in g :: (e.1, e.0)
  }

  /** Every edge leads from a later finish position to an earlier one. */
  ghost predicate FinishOrder(g: Edges, pos: map<Key, nat>) {
    forall e :: e in g ==> e.0 in pos && e.1 in pos && pos[e.1] < pos[e.0]
  }

  lemma {:induction false} FinishOrderFallsAlongWalk(g: Edges, pos: map<Key, nat>, p: seq<Key>)
    requires FinishOrder(g, pos) && IsWalk(g, p) && |p| >= 2
    ensures p[0] in pos && p[|p| - 1] in pos && pos[p[|p| - 1]] < pos[p[0]]
  {
    var q := p[0..|p| - 1];
    assert Linked(g, p, |p| - 1);
    WalkSlice(g, p, 0, |p| - 1);
    if |q| >= 2 {
      FinishOrderFallsAlongWalk(g, pos, q);
    }
  }

  /** A finish order is a certificate of acyclicity. */
  lemma FinishOrderAcyclic(g: Edges, pos: map<Key, nat>)
    requires FinishOrder(g, pos)
    ensures Acyclic(g)
  {
    forall p | IsCycle(g, p) ensures false {
      FinishOrderFallsAlongWalk(g, pos, p);
    }
  }

  lemma SubgraphAcyclic(g: Edges, h: Edges)
    requires Acyclic(h) && g <= h
    ensures Acyclic(g)
  {
    forall p | IsCycle(g, p) ensures false {
      forall i | 1 <= i < |p| ensures Linked(h, p, i) {
        assert Linked(g, p, i);
      }
      assert IsCycle(h, p);
    }
  }

  /** Turning every edge round neither makes nor breaks a cycle. */
  lemma ReverseAcyclic(g: Edges)
    requires Acyclic(g)
    ensures Acyclic(Reverse(g))
  {
    forall p | IsCycle(Reverse(g), p) ensures false {
      var q := seq(|p|, i requires 0 <= i < |p| => p[|p| - 1 - i]);
      forall i | 1 <= i < |q| ensures Linked(g, q, i) {
        assert Linked(Reverse(g), p, |p| - i);
      }
      assert IsCycle(g, q);
    }
  }

  /** A sequence longer than the set it draws from repeats an element. */
  lemma {:induction false} Pigeonhole(s: set<Key>, p: seq<Key>) returns (i: nat, j: nat)
    requires |p| > |s|
    requires forall k :: 0 <= k < |p| ==> p[k] in s
    ensures i < j < |p| && p[i] == p[j]
  {
    var last := p[|p| - 1];
    if k :| 0 <= k < |p| - 1 && p[k] == last {
      i, j := k, |p| - 1;
    } else {
      i, j := Pigeonhole(s - {last}, p[..|p| - 1]);
    }
  }

  ghost predicate HasPredecessorIn(g: Edges, s: set<Key>, k: Key) {
    exists u :: u in s && (u, k) in g
  }

  /** Where every member of `s` has a predecessor in `s`, one can walk backwards for ever. */
  lemma {:induction false} BackwardWalk(g: Edges, s: set<Key>, n: nat) returns (p: seq<Key>)
    requires s != {}
    requires forall k {:trigger HasPredecessorIn(g, s, k)} :: k in s ==> HasPredecessorIn(g, s, k)
    ensures IsWalk(g, p) && |p| == n + 1
    ensures forall k :: 0 <= k < |p| ==> p[k] in s
  {
    if n == 0 {
      var k :| k in s;
      p := [k];
    } else {
      var q := BackwardWalk(g, s, n - 1);
      assert HasPredecessorIn(g, s, q[0]);
      var u :| u in s && (u, q[0]) in g;
      p := [u] + q;
      forall i | 1 <= i < |p| ensures Linked(g, p, i) {
        assert i > 1 ==> Linked(g, q, i - 1);
      }
    }
  }

  /** In an acyclic graph every finite nonempty set has a member with no predecessor in the set. */
  lemma AcyclicHasSource(g: Edges, s: set<Key>) returns (k: Key)
    requires Acyclic(g) && s != {}
    ensures k in s && !HasPredecessorIn(g, s, k)
  {
    if c :| c in s && !HasPredecessorIn(g, s, c) {
      k := c;
    } else {
      k :| k in s;
      var p := BackwardWalk(g, s, |s|);
      var i, j := Pigeonhole(s, p);
      WalkSlice(g, p, i, j + 1);
      assert IsCycle(g, p[i..j + 1]);
      assert false;
    }
  }
}
