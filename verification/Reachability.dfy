/** Reachability in a finite labelled graph, by number of edges. */
module Reachability {
  import opened Ir

  type Edges = map<Label, seq<Label>>

  /** l is reached from root along exactly n edges. */
  ghost predicate Reach(edges: Edges, root: Label, l: Label, n: nat)
    decreases n
  {
    if n == 0 then l == root
    else exists k :: Reach(edges, root, k, n - 1) && k in edges && l in edges[k]
  }

  ghost predicate Reachable(edges: Edges, root: Label, l: Label) {
    exists n: nat :: Reach(edges, root, l, n)
  }

  /** d is the length of a shortest path from root to l. */
  ghost predicate IsDistance(edges: Edges, root: Label, l: Label, d: nat) {
    Reach(edges, root, l, d) && forall n: nat :: n < d ==> !Reach(edges, root, l, n)
  }

  lemma ReachStep(edges: Edges, root: Label, k: Label, l: Label, n: nat)
    requires Reach(edges, root, k, n) && k in edges && l in edges[k]
    ensures Reach(edges, root, l, n + 1)
  {
  }

  lemma ReachableStep(edges: Edges, root: Label, k: Label, l: Label)
    requires Reachable(edges, root, k) && k in edges && l in edges[k]
    ensures Reachable(edges, root, l)
  {
    var n: nat :| Reach(edges, root, k, n);
    ReachStep(edges, root, k, l, n);
  }

  lemma RootReachable(edges: Edges, root: Label)
    ensures Reachable(edges, root, root)
  {
    assert Reach(edges, root, root, 0);
  }

  /** Whatever holds the root and is closed under edges holds everything reachable. */
  lemma {:induction false} ReachInClosed(edges: Edges, root: Label, l: Label, n: nat, closed: set<Label>)
    requires Reach(edges, root, l, n) && root in closed
    requires forall k, v :: k in closed && k in edges && v in edges[k] ==> v in closed
    ensures l in closed
    decreases n
  {
    if n > 0 {
      var k :| Reach(edges, root, k, n - 1) && k in edges && l in edges[k];
      ReachInClosed(edges, root, k, n - 1, closed);
    }
  }

  /** Every edge of g is an edge of h. */
  ghost predicate SubGraph(g: Edges, h: Edges) {
    forall k: Label, v: Label :: k in g && v in g[k] ==> k in h && v in h[k]
  }

  lemma {:induction false} ReachInLarger(g: Edges, h: Edges, root: Label, l: Label, n: nat)
    requires SubGraph(g, h) && Reach(g, root, l, n)
    ensures Reach(h, root, l, n)
    decreases n
  {
    if n > 0 {
      var k :| Reach(g, root, k, n - 1) && k in g && l in g[k];
      ReachInLarger(g, h, root, k, n - 1);
    }
  }
}
