/** The order blocks are printed in: breadth first from the entry, along the recorded successors. */
module BreadthFirst {
  import opened Ir
  import opened Reachability
  import opened Cfg
  import opened BlockGraph

  ghost function EdgesOf(g: map<Label, Block>): Edges
    reads g.Values
  {
    map l | l in g :: Labels(g[l].succs)
  }

  /** Every block is under its own label, and so are its successors. */
  ghost predicate Closed(g: map<Label, Block>)
    reads g.Values
  {
    forall l <- g :: g[l].lbl == l && OwnsAll(g, g[l].succs)
  }

  /** Labels in the order of their distance from the root. */
  ghost predicate ByDistance(edges: Edges, root: Label, seen: seq<Label>, dist: seq<nat>) {
    && |dist| == |seen| && NoDup(seen)
    && (forall i :: 0 <= i < |seen| ==> IsDistance(edges, root, seen[i], dist[i]))
    && (forall i, j :: 0 <= i <= j < |dist| ==> dist[i] <= dist[j])
  }

  ghost predicate Visited(edges: Edges, seen: seq<Label>, k: nat) {
    k <= |seen| && forall i :: 0 <= i < k ==> seen[i] in edges && forall v <- edges[seen[i]] :: v in seen
  }

  /** Everything as near as the k-th label has been seen, and nothing farther than one edge beyond it. */
  ghost predicate Frontier(edges: Edges, root: Label, seen: seq<Label>, dist: seq<nat>, k: nat) {
    && k < |dist|
    && (forall v: Label, n: nat :: Reach(edges, root, v, n) && n <= dist[k] ==> v in seen)
    && (forall j :: 0 <= j < |dist| ==> dist[j] <= dist[k] + 1)
  }

  lemma StartFrontier(edges: Edges, root: Label)
    ensures ByDistance(edges, root, [root], [0]) && Frontier(edges, root, [root], [0], 0)
  {
    assert IsDistance(edges, root, root, 0);
  }

  /** A successor of the k-th label not seen so far is one edge farther than it. */
  lemma SeeOne(edges: Edges, root: Label, seen: seq<Label>, dist: seq<nat>, k: nat, v: Label)
    requires ByDistance(edges, root, seen, dist) && Frontier(edges, root, seen, dist, k)
    requires seen[k] in edges && v in edges[seen[k]] && v !in seen
    ensures ByDistance(edges, root, seen + [v], dist + [dist[k] + 1])
    ensures Frontier(edges, root, seen + [v], dist + [dist[k] + 1], k)
  {
    ReachStep(edges, root, seen[k], v, dist[k]);
    assert IsDistance(edges, root, v, dist[k] + 1);
  }

  /** Once the successors of the k-th label have been seen, the next label takes its place. */
  lemma NextFrontier(edges: Edges, root: Label, seen: seq<Label>, dist: seq<nat>, k: nat)
    requires ByDistance(edges, root, seen, dist) && Frontier(edges, root, seen, dist, k)
    requires Visited(edges, seen, k + 1) && k + 1 < |seen|
    ensures Frontier(edges, root, seen, dist, k + 1)
  {
    forall v: Label, n: nat | Reach(edges, root, v, n) && n <= dist[k + 1] ensures v in seen {
      if n > dist[k] {
        var u :| Reach(edges, root, u, n - 1) && u in edges && v in edges[u];
        assert u in seen;
        var i :| 0 <= i < |seen| && seen[i] == u;
        assert IsDistance(edges, root, u, dist[i]);
        assert dist[i] <= n - 1;
      }
    }
  }

  /** When every label seen has been visited, all that is reachable has been seen. */
  lemma AllSeen(edges: Edges, root: Label, seen: seq<Label>, dist: seq<nat>)
    requires ByDistance(edges, root, seen, dist) && Visited(edges, seen, |seen|) && root in seen
    ensures forall l: Label :: Reachable(edges, root, l) <==> l in seen
  {
    var closed := set l | l in seen;
    forall l: Label | Reachable(edges, root, l) ensures l in seen {
      var n: nat :| Reach(edges, root, l, n);
      ReachInClosed(edges, root, l, n, closed);
    }
    forall l: Label | l in seen ensures Reachable(edges, root, l) {
      var i :| 0 <= i < |seen| && seen[i] == l;
      assert IsDistance(edges, root, l, dist[i]);
    }
  }

  lemma {:induction false} NoDupFits(s: seq<Label>, all: set<Label>)
    requires NoDup(s) && forall l <- s :: l in all
    ensures |s| <= |all|
    decreases s
  {
    if s != [] {
      var rest := s[1..];
      assert forall i :: 0 <= i < |rest| ==> rest[i] == s[i + 1];
      assert s[0] !in rest;
      NoDupFits(rest, all - {s[0]});
    }
  }

  /** The blocks reachable through the recorded edges, each once, in the order of their distance from the root. */
  ghost predicate InOrder(edges: Edges, root: Label, order: seq<Label>) {
    && NoDup(order)
    && (forall l: Label :: Reachable(edges, root, l) <==> l in order)
    && (forall i, j, m: nat, n: nat ::
          0 <= i <= j < |order| && IsDistance(edges, root, order[i], m) && IsDistance(edges, root, order[j], n)
          ==> m <= n)
  }

  lemma OrderedInOrder(edges: Edges, root: Label, seen: seq<Label>, dist: seq<nat>)
    requires ByDistance(edges, root, seen, dist) && forall l: Label :: Reachable(edges, root, l) <==> l in seen
    ensures InOrder(edges, root, seen)
  {
    forall i, j, m: nat, n: nat |
      0 <= i <= j < |seen| && IsDistance(edges, root, seen[i], m) && IsDistance(edges, root, seen[j], n)
      ensures m <= n
    {
      DistanceUnique(edges, root, seen[i], m, dist[i]);
      DistanceUnique(edges, root, seen[j], n, dist[j]);
    }
  }

  lemma DistanceUnique(edges: Edges, root: Label, l: Label, m: nat, n: nat)
    requires IsDistance(edges, root, l, m) && IsDistance(edges, root, l, n)
    ensures m == n
  {
  }

  lemma LabelsDistinguish(g: map<Label, Block>, bs: seq<Block>, b: Block)
    requires OwnsAll(g, bs) && Owns(g, b)
    ensures b in bs <==> b.lbl in Labels(bs)
  {
    if b.lbl in Labels(bs) {
      var i :| 0 <= i < |bs| && Labels(bs)[i] == b.lbl;
      assert bs[i] in bs;
    }
    if b in bs {
      var i :| 0 <= i < |bs| && bs[i] == b;
      assert Labels(bs)[i] == b.lbl;
    }
  }

  // ----- The order among blocks at the same distance -----

  /** The i-th block is first met as the q-th successor of the p-th. */
  ghost predicate FirstMet(order: seq<Block>, i: int, p: int, q: int)
    reads order
  {
    && 0 <= i < |order| && 0 <= p < |order| && 0 <= q < |order[p].succs| && order[p].succs[q] == order[i]
    && (forall o :: 0 <= o < p ==> order[i] !in order[o].succs)
    && (forall o :: 0 <= o < q ==> order[p].succs[o] != order[i])
  }

  predicate Earlier(p: int, q: int, r: int, s: int) { p < r || (p == r && q < s) }

  /** Blocks come in the order they are first met in, the successors of each block from left to right. */
  ghost predicate LeftToRight(order: seq<Block>)
    reads order
  {
    forall i, j, p, q, r, s ::
      0 < i < j < |order| && FirstMet(order, i, p, q) && FirstMet(order, j, r, s) ==> Earlier(p, q, r, s)
  }

  /** Part way, at the j-th successor of the k-th block: where each block seen was met. */
  ghost predicate Met(seen: seq<Block>, at: seq<(nat, nat)>, k: nat, j: nat)
    reads seen
  {
    && |at| == |seen| && k <= |seen|
    && (forall p, q :: 0 <= p < k && 0 <= q < |seen[p].succs| ==> seen[p].succs[q] in seen)
    && (k < |seen| ==> forall q :: 0 <= q < j && q < |seen[k].succs| ==> seen[k].succs[q] in seen)
    && (forall i :: 0 < i < |seen| ==> FirstMet(seen, i, at[i].0, at[i].1) && Earlier(at[i].0, at[i].1, k, j))
    && (forall i, o :: 0 < i < o < |seen| ==> Earlier(at[i].0, at[i].1, at[o].0, at[o].1))
  }

  lemma MetStart(root: Block)
    ensures Met([root], [(0, 0)], 0, 0)
  {
  }

  lemma MetSeen(seen: seq<Block>, at: seq<(nat, nat)>, k: nat, j: nat)
    requires Met(seen, at, k, j) && k < |seen| && j < |seen[k].succs| && seen[k].succs[j] in seen
    ensures Met(seen, at, k, j + 1)
  {
  }

  lemma MetNew(seen: seq<Block>, at: seq<(nat, nat)>, k: nat, j: nat)
    requires Met(seen, at, k, j) && k < |seen| && j < |seen[k].succs| && seen[k].succs[j] !in seen
    ensures Met(seen + [seen[k].succs[j]], at + [(k, j)], k, j + 1)
  {
    var block := seen[k].succs[j];
    var more, at' := seen + [block], at + [(k, j)];
    forall i | 0 < i < |more| ensures FirstMet(more, i, at'[i].0, at'[i].1) {
      if i < |seen| {
        assert FirstMet(seen, i, at[i].0, at[i].1);
        assert more[at[i].0] == seen[at[i].0];
      } else {
        assert forall o :: 0 <= o < k ==> more[o] == seen[o] && block !in seen[o].succs;
      }
    }
  }

  lemma MetNext(seen: seq<Block>, at: seq<(nat, nat)>, k: nat)
    requires k < |seen| && Met(seen, at, k, |seen[k].succs|)
    ensures Met(seen, at, k + 1, 0)
  {
  }

  lemma MetLeftToRight(order: seq<Block>, at: seq<(nat, nat)>, k: nat)
    requires Met(order, at, k, 0)
    ensures LeftToRight(order)
  {
    forall i, j, p, q, r, s | 0 < i < j < |order| && FirstMet(order, i, p, q) && FirstMet(order, j, r, s)
      ensures Earlier(p, q, r, s)
    {
      MetOnce(order, i, p, q, at[i].0, at[i].1);
      MetOnce(order, j, r, s, at[j].0, at[j].1);
    }
  }

  lemma MetOnce(order: seq<Block>, i: int, p: int, q: int, r: int, s: int)
    requires FirstMet(order, i, p, q) && FirstMet(order, i, r, s)
    ensures p == r && q == s
  {
    assert order[i] in order[p].succs && order[i] in order[r].succs;
  }

  // ----- The queue -----

  method InOrderBlocks(root: Block, ghost g: map<Label, Block>) returns (out: seq<Block>)
    requires Closed(g) && Owns(g, root)
    ensures OwnsAll(g, out) && InOrder(EdgesOf(g), root.lbl, Labels(out))
    ensures out != [] && out[0] == root && LeftToRight(out)
  {
    hide Labels, IsDistance, Reach, NoDup, InOrder, Met, LeftToRight;
    ghost var at: seq<(nat, nat)> := [(0, 0)];
    MetStart(root);
    ghost var edges := EdgesOf(g);
    out := [];
    var queue := [root];
    var allSeen := queue;
    ghost var dist: seq<nat> := [0];
    StartFrontier(edges, root.lbl);
    LabelsOneTwo(root, root);
    while true
      invariant |out| < |allSeen| && out == allSeen[..|out|] && queue == allSeen[|out|..]
      invariant OwnsAll(g, allSeen) && root in allSeen
      invariant ByDistance(edges, root.lbl, Labels(allSeen), dist)
          && Frontier(edges, root.lbl, Labels(allSeen), dist, |out|)
      invariant Visited(edges, Labels(allSeen), |out|)
      invariant allSeen[0] == root && Met(allSeen, at, |out|, 0)
      decreases |g| - |out|
    {
      ghost var k := |out|;
      var curr := queue[0];
      out := out + [curr];
      SeenFits(g, edges, root.lbl, allSeen, dist);
      queue, allSeen, dist, at := VisitSuccs(curr, queue, allSeen, g, edges, root.lbl, dist, at, k);
      assert out == allSeen[..|out|];
      if |queue| == 1 { break; }
      queue := queue[1..];
      NextFrontier(edges, root.lbl, Labels(allSeen), dist, k);
    }
    assert out == allSeen;
    MetLeftToRight(allSeen, at, |out|);
    LabelsDistinguish(g, allSeen, root);
    AllSeen(edges, root.lbl, Labels(allSeen), dist);
    OrderedInOrder(edges, root.lbl, Labels(allSeen), dist);
  }

  lemma SeenFits(g: map<Label, Block>, edges: Edges, root: Label, seen: seq<Block>, dist: seq<nat>)
    requires OwnsAll(g, seen) && ByDistance(edges, root, Labels(seen), dist)
    ensures |seen| <= |g|
  {
    forall l <- Labels(seen) ensures l in g.Keys {
      var i :| 0 <= i < |seen| && Labels(seen)[i] == l;
      assert seen[i] in seen;
    }
    NoDupFits(Labels(seen), g.Keys);
  }

  /** Queues the successors of a block that have not been seen. */
  method VisitSuccs(curr: Block, queue0: seq<Block>, allSeen0: seq<Block>, ghost g: map<Label, Block>,
                    ghost edges: Edges, ghost root: Label, ghost dist0: seq<nat>, ghost at0: seq<(nat, nat)>,
                    ghost k: nat)
    returns (queue: seq<Block>, allSeen: seq<Block>, ghost dist: seq<nat>, ghost at: seq<(nat, nat)>)
    requires Closed(g) && edges == EdgesOf(g) && OwnsAll(g, allSeen0) && k < |allSeen0| && curr == allSeen0[k]
    requires queue0 == allSeen0[k..]
    requires ByDistance(edges, root, Labels(allSeen0), dist0) && Frontier(edges, root, Labels(allSeen0), dist0, k)
    requires Visited(edges, Labels(allSeen0), k) && Met(allSeen0, at0, k, 0)
    ensures Met(allSeen, at, k + 1, 0)
    ensures OwnsAll(g, allSeen) && allSeen0 <= allSeen && queue == allSeen[k..]
    ensures ByDistance(edges, root, Labels(allSeen), dist) && Frontier(edges, root, Labels(allSeen), dist, k)
    ensures Visited(edges, Labels(allSeen), k + 1)
  {
    hide Labels, IsDistance, Reach, NoDup, InOrder, ByDistance, Frontier, Met;
    queue, allSeen, dist, at := queue0, allSeen0, dist0, at0;
    assert curr in allSeen0;
    for j := 0 to |curr.succs|
      invariant allSeen0 <= allSeen && queue == allSeen[k..] && OwnsAll(g, allSeen)
      invariant ByDistance(edges, root, Labels(allSeen), dist) && Frontier(edges, root, Labels(allSeen), dist, k)
      invariant Visited(edges, Labels(allSeen), k)
      invariant forall i :: 0 <= i < j ==> curr.succs[i] in allSeen
      invariant Met(allSeen, at, k, j)
    {
      var block := curr.succs[j];
      assert block in curr.succs;
      var unseen := true;
      for i := 0 to |allSeen|
        invariant unseen && block !in allSeen[..i]
      {
        if allSeen[i] == block {
          unseen := false;
          break;
        }
      }
      if unseen {
        SuccSeen(g, edges, root, allSeen, dist, k, block);
        MetNew(allSeen, at, k, j);
        at := at + [(k, j)];
        dist := dist + [dist[k] + 1];
        queue := queue + [block];
        allSeen := allSeen + [block];
      } else {
        MetSeen(allSeen, at, k, j);
      }
    }
    MetNext(allSeen, at, k);
    SuccsVisited(g, edges, allSeen, curr, k);
  }

  lemma SuccSeen(g: map<Label, Block>, edges: Edges, root: Label, seen: seq<Block>, dist: seq<nat>, k: nat,
                 block: Block)
    requires Closed(g) && edges == EdgesOf(g) && OwnsAll(g, seen) && k < |seen| && block in seen[k].succs
    requires block !in seen
    requires ByDistance(edges, root, Labels(seen), dist) && Frontier(edges, root, Labels(seen), dist, k)
    requires Visited(edges, Labels(seen), k)
    ensures k < |dist| && Owns(g, block)
    ensures ByDistance(edges, root, Labels(seen + [block]), dist + [dist[k] + 1])
    ensures Frontier(edges, root, Labels(seen + [block]), dist + [dist[k] + 1], k)
    ensures Visited(edges, Labels(seen + [block]), k)
  {
    hide ByDistance, Visited, NoDup, Labels, EdgesOf;
    SuccLabel(g, edges, seen, k, block);
    LabelsOneTwo(block, block);
    LabelsAppend(seen, [block]);
    SeeOne(edges, root, Labels(seen), dist, k, block.lbl);
    VisitedMore(edges, Labels(seen), k, block.lbl);
  }

  lemma SuccLabel(g: map<Label, Block>, edges: Edges, seen: seq<Block>, k: nat, block: Block)
    requires Closed(g) && edges == EdgesOf(g) && OwnsAll(g, seen) && k < |seen| && block in seen[k].succs
    requires block !in seen
    ensures var u := Labels(seen)[k];
      u in edges && block.lbl in edges[u] && block.lbl !in Labels(seen) && Owns(g, block)
  {
    hide Labels;
    var u := seen[k];
    assert u in seen;
    assert OwnsAll(g, g[u.lbl].succs);
    LabelsDistinguish(g, u.succs, block);
    LabelsDistinguish(g, seen, block);
  }

  lemma VisitedMore(edges: Edges, seen: seq<Label>, k: nat, v: Label)
    requires Visited(edges, seen, k)
    ensures Visited(edges, seen + [v], k)
  {
  }

  lemma SuccsVisited(g: map<Label, Block>, edges: Edges, seen: seq<Block>, curr: Block, k: nat)
    requires Closed(g) && edges == EdgesOf(g) && OwnsAll(g, seen) && k < |seen| && seen[k] == curr
    requires Visited(edges, Labels(seen), k) && forall i :: 0 <= i < |curr.succs| ==> curr.succs[i] in seen
    ensures Visited(edges, Labels(seen), k + 1)
  {
    hide Labels;
    assert curr in seen;
    assert Labels(seen)[k] == curr.lbl;
    SuccLabelsSeen(g, edges, seen, curr);
  }

  lemma SuccLabelsSeen(g: map<Label, Block>, edges: Edges, seen: seq<Block>, curr: Block)
    requires edges == EdgesOf(g) && OwnsAll(g, seen) && Owns(g, curr)
    requires forall i :: 0 <= i < |curr.succs| ==> curr.succs[i] in seen
    ensures curr.lbl in edges && forall v <- edges[curr.lbl] :: v in Labels(seen)
  {
    hide Labels;
    forall v <- edges[curr.lbl] ensures v in Labels(seen) {
      var i :| 0 <= i < |curr.succs| && Labels(curr.succs)[i] == v;
      LabelsDistinguish(g, seen, curr.succs[i]);
    }
  }
}
