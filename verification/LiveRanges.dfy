/** Live ranges over the super-block: every block in printing order, a loop exit followed by copies of the loop's
    blocks. */
module LiveRanges {
  import opened Words
  import opened Ir
  import opened LinearScan
  import opened Reachability
  import opened Cfg
  import opened BlockGraph
  import opened BreadthFirst

  // ----- Exact ranges -----

  /** The variables each instruction mentions. */
  function Mentions(ins: seq<Instr>): (ms: seq<seq<Entry>>)
    ensures |ms| == |ins| && forall i :: 0 <= i < |ins| ==> ms[i] == ins[i].Vars()
  {
    seq(|ins|, i requires 0 <= i < |ins| => ins[i].Vars())
  }

  ghost predicate FirstMention(ms: seq<seq<Entry>>, v: Entry, f: int) {
    0 <= f < |ms| && v in ms[f] && forall i :: 0 <= i < f ==> v !in ms[i]
  }

  ghost predicate LastMention(ms: seq<seq<Entry>>, v: Entry, l: int) {
    0 <= l < |ms| && v in ms[l] && forall i :: l < i < |ms| ==> v !in ms[i]
  }

  /** From the first mention to one before the last, or to the first when that is the only one. */
  ghost predicate ExactRange(ms: seq<seq<Entry>>, v: Entry, start: int, end: int) {
    exists l :: FirstMention(ms, v, start) && LastMention(ms, v, l) &&
                end == if start == l && multiset(ms[l])[v] == 1 then l else l - 1
  }

  ghost predicate Exact(ms: seq<seq<Entry>>, rg: Ranges) {
    && rg.start.Keys == rg.end.Keys
    && (forall v :: v in rg.start <==> Mentioned(ms, v))
    && (forall v <- rg.start :: ExactRange(ms, v, rg.start[v], rg.end[v]))
  }

  /** One more mention at the end of the last list. */
  function Mention(rg: Ranges, v: Entry, i: int): Ranges {
    if v !in rg.start then Ranges(rg.start[v := i], rg.end[v := i]) else Ranges(rg.start, rg.end[v := i - 1])
  }

  lemma MentionRange(ms: seq<seq<Entry>>, last: seq<Entry>, v: Entry, w: Entry, start: int, end: int)
    requires ExactRange(ms + [last], w, start, end)
    ensures ExactRange(ms + [last + [v]], w, start, if w == v then |ms| - 1 else end)
  {
    var a, b := ms + [last], ms + [last + [v]];
    var l :| FirstMention(a, w, start) && LastMention(a, w, l) && end == if start == l && multiset(a[l])[w] == 1 then l
        else l - 1;
    assert forall i :: 0 <= i < |ms| ==> a[i] == b[i];
    assert multiset(last + [v])[w] == multiset(last)[w] + multiset([v])[w];
    assert b[|ms|] == last + [v] && a[|ms|] == last && (w in last + [v] <==> w in last || w == v);
    assert FirstMention(b, w, start);
    assert LastMention(b, w, if w == v then |ms| else l);
  }

  lemma MentionKeepsExact(ms: seq<seq<Entry>>, last: seq<Entry>, v: Entry, rg: Ranges)
    requires Exact(ms + [last], rg)
    ensures Exact(ms + [last + [v]], Mention(rg, v, |ms|))
  {
    hide ExactRange;
    var a, b := ms + [last], ms + [last + [v]];
    var rg' := Mention(rg, v, |ms|);
    MoreMentioned(ms, last, v);
    forall w ensures w in rg'.start <==> Mentioned(b, w) {}
    forall w | w in rg'.start ensures ExactRange(b, w, rg'.start[w], rg'.end[w]) {
      if w in rg.start {
        MentionRange(ms, last, v, w, rg.start[w], rg.end[w]);
      } else {
        assert w == v && !Mentioned(a, v);
        NewMentionRange(ms, last, v);
      }
    }
  }

  ghost predicate Mentioned(ms: seq<seq<Entry>>, v: Entry) {
    exists i :: 0 <= i < |ms| && v in ms[i]
  }

  lemma MoreMentioned(ms: seq<seq<Entry>>, last: seq<Entry>, v: Entry)
    ensures forall w :: Mentioned(ms + [last + [v]], w) <==> Mentioned(ms + [last], w) || w == v
  {
    var a, b := ms + [last], ms + [last + [v]];
    assert forall i :: 0 <= i < |ms| ==> a[i] == b[i];
    assert a[|ms|] == last && b[|ms|] == last + [v];
    forall w ensures Mentioned(b, w) <==> Mentioned(a, w) || w == v {
      if w == v { assert w in b[|ms|]; }
    }
  }

  lemma NewMentionRange(ms: seq<seq<Entry>>, last: seq<Entry>, v: Entry)
    requires !Mentioned(ms + [last], v)
    ensures ExactRange(ms + [last + [v]], v, |ms|, |ms|)
  {
    var a, b := ms + [last], ms + [last + [v]];
    assert forall i :: 0 <= i < |ms| ==> a[i] == b[i];
    assert a[|ms|] == last && b[|ms|] == last + [v];
    assert multiset(last + [v])[v] == multiset(last)[v] + multiset([v])[v];
    assert FirstMention(b, v, |ms|) && LastMention(b, v, |ms|);
  }

  lemma EmptyListKeepsExact(ms: seq<seq<Entry>>, rg: Ranges)
    requires Exact(ms, rg)
    ensures Exact(ms + [[]], rg)
  {
    var b := ms + [[]];
    assert forall i :: 0 <= i < |ms| ==> b[i] == ms[i];
    forall w ensures w in rg.start <==> Mentioned(b, w) {
      if w in rg.start { var i :| 0 <= i < |ms| && w in ms[i]; assert w in b[i]; }
    }
    forall w <- rg.start ensures ExactRange(b, w, rg.start[w], rg.end[w]) {
      var l :| FirstMention(ms, w, rg.start[w]) && LastMention(ms, w, l) &&
               rg.end[w] == if rg.start[w] == l && multiset(ms[l])[w] == 1 then l else l - 1;
      assert FirstMention(b, w, rg.start[w]) && LastMention(b, w, l);
    }
  }

  /** The pass over the super-block that records first and last mentions. */
  method RangesOf(superBlock: seq<Instr>) returns (startpoint: map<Entry, int>, endpoint: map<Entry, int>)
    ensures Exact(Mentions(superBlock), Ranges(startpoint, endpoint))
  {
    hide Exact, Instr.Vars;
    ghost var ms := Mentions(superBlock);
    startpoint, endpoint := map[], map[];
    assert Exact([], Ranges(map[], map[])) by { NothingExact(); }
    for i := 0 to |superBlock|
      invariant Exact(ms[..i], Ranges(startpoint, endpoint))
    {
      var vars := superBlock[i].Vars();
      EmptyListKeepsExact(ms[..i], Ranges(startpoint, endpoint));
      for j := 0 to |vars|
        invariant Exact(ms[..i] + [vars[..j]], Ranges(startpoint, endpoint))
      {
        var v := vars[j];
        MentionKeepsExact(ms[..i], vars[..j], v, Ranges(startpoint, endpoint));
        assert vars[..j + 1] == vars[..j] + [v];
        if v !in startpoint {
          startpoint := startpoint[v := i];
          endpoint := endpoint[v := i];
        } else {
          endpoint := endpoint[v := i - 1];
        }
      }
      assert vars[..|vars|] == vars == ms[i];
      assert ms[..i] + [vars[..|vars|]] == ms[..i + 1];
    }
    assert ms[..|ms|] == ms;
  }

  lemma NothingExact()
    ensures Exact([], Ranges(map[], map[]))
  {
  }

  /** A variable mentioned at two points has a range from the first or before up to just before the second or later. */
  lemma RangeSpans(ms: seq<seq<Entry>>, rg: Ranges, v: Entry, a: int, b: int)
    requires Exact(ms, rg) && 0 <= a < b < |ms| && v in ms[a] && v in ms[b]
    ensures v in rg.start && rg.start[v] <= a && b - 1 <= rg.end[v]
  {
    assert ExactRange(ms, v, rg.start[v], rg.end[v]);
  }

  // ----- The super-block -----

  /** A block's own instructions, and the copies that follow them. */
  datatype Segment = Segment(own: seq<Instr>, copies: seq<Instr>)

  function Flatten(segs: seq<Segment>): seq<Instr> {
    if segs == [] then [] else Flatten(segs[..|segs| - 1]) + segs[|segs| - 1].own + segs[|segs| - 1].copies
  }

  function Offset(segs: seq<Segment>, j: nat): nat
    requires j <= |segs|
  {
    |Flatten(segs[..j])|
  }

  lemma {:induction false} FlattenFits(segs: seq<Segment>, j: nat)
    requires j < |segs|
    ensures Offset(segs, j) + |segs[j].own| + |segs[j].copies| == Offset(segs, j + 1) <= |Flatten(segs)|
    ensures Flatten(segs)[Offset(segs, j)..Offset(segs, j + 1)] == segs[j].own + segs[j].copies
    decreases |segs|
  {
    var front := segs[..|segs| - 1];
    assert segs[..j + 1][..j] == segs[..j];
    if j == |segs| - 1 {
      assert segs[..j + 1] == segs;
    } else {
      FlattenFits(front, j);
      assert front[..j] == segs[..j] && front[..j + 1] == segs[..j + 1];
      assert Flatten(segs)[..|Flatten(front)|] == Flatten(front);
    }
  }

  /** The instructions of a segment, its own and the copies, are where its offset says. */
  lemma OwnAt(segs: seq<Segment>, j: nat, p: nat)
    requires j < |segs| && p < |segs[j].own|
    ensures Offset(segs, j) + p < Offset(segs, j + 1) <= |Flatten(segs)|
    ensures Mentions(Flatten(segs))[Offset(segs, j) + p] == segs[j].own[p].Vars()
  {
    hide Flatten, Offset, Instr.Vars;
    FlattenFits(segs, j);
    var lo, hi := Offset(segs, j), Offset(segs, j + 1);
    assert Flatten(segs)[lo + p] == Flatten(segs)[lo..hi][p];
  }

  lemma CopyAt(segs: seq<Segment>, j: nat, q: nat)
    requires j < |segs| && q < |segs[j].copies|
    ensures Offset(segs, j) + |segs[j].own| + q < Offset(segs, j + 1) <= |Flatten(segs)|
    ensures Mentions(Flatten(segs))[Offset(segs, j) + |segs[j].own| + q] == segs[j].copies[q].Vars()
  {
    hide Flatten, Offset, Instr.Vars;
    FlattenFits(segs, j);
    var lo, hi, k := Offset(segs, j), Offset(segs, j + 1), |segs[j].own| + q;
    assert Flatten(segs)[lo + k] == Flatten(segs)[lo..hi][k];
  }

  lemma {:induction false} OffsetsGrow(segs: seq<Segment>, i: nat, j: nat)
    requires i <= j <= |segs|
    ensures Offset(segs, i) <= Offset(segs, j)
    decreases j
  {
    if i < j {
      FlattenFits(segs, j - 1);
      OffsetsGrow(segs, i, j - 1);
    }
  }

  /** A variable of a block that is copied after a later block is live throughout that block's own instructions. */
  lemma LoopExtends(segs: seq<Segment>, rg: Ranges, i: nat, j: nat, p: nat, q: nat, v: Entry)
    requires Exact(Mentions(Flatten(segs)), rg) && i < j < |segs|
    requires p < |segs[i].own| && v in segs[i].own[p].Vars()
    requires q < |segs[j].copies| && v in segs[j].copies[q].Vars()
    ensures v in rg.start && rg.start[v] < Offset(segs, j)
    ensures Offset(segs, j) + |segs[j].own| - 1 <= rg.end[v]
  {
    hide Exact, Offset, Flatten, Mentions, Instr.Vars;
    OwnAt(segs, i, p);
    CopyAt(segs, j, q);
    OffsetsGrow(segs, i + 1, j);
    RangeSpans(Mentions(Flatten(segs)), rg, v, Offset(segs, i) + p, Offset(segs, j) + |segs[j].own| + q);
  }

  ghost function Flat(bs: seq<Block>): seq<Instr>
    reads bs
  {
    if bs == [] then [] else Flat(bs[..|bs| - 1]) + bs[|bs| - 1].instrs
  }

  lemma {:induction false} FlatHas(bs: seq<Block>, block: Block, p: nat) returns (q: nat)
    requires block in bs && p < |block.instrs|
    ensures q < |Flat(bs)| && Flat(bs)[q] == block.instrs[p]
    decreases |bs|
  {
    var front := bs[..|bs| - 1];
    if bs[|bs| - 1] == block {
      q := |Flat(front)| + p;
    } else {
      assert bs == front + [bs[|bs| - 1]];
      q := FlatHas(front, block, p);
    }
  }

  ghost function SegmentsOf(order: seq<Block>): (segs: seq<Segment>)
    reads order, Copied(order)
    ensures |segs| == |order|
    ensures forall i :: 0 <= i < |order| ==> segs[i] == Segment(order[i].instrs, Flat(order[i].allBlocksInLoop))
  {
    if order == [] then []
    else
      var last := order[|order| - 1];
      SegmentsOf(order[..|order| - 1]) + [Segment(last.instrs, Flat(last.allBlocksInLoop))]
  }

  ghost function Copied(order: seq<Block>): (bs: set<Block>)
    reads order
  {
    if order == [] then {}
    else
      var copied := order[|order| - 1].allBlocksInLoop;
      Copied(order[..|order| - 1]) + set c | c in copied
  }

  // ----- The calculation -----

  /** Those of the blocks whose loop ends at x, in order, given where the loop of each ends. */
  function InLoop(order: seq<Block>, exits: seq<Block?>, x: Block): seq<Block>
    requires |order| == |exits|
  {
    if order == [] then []
    else
      var n := |order| - 1;
      InLoop(order[..n], exits[..n], x) + if exits[n] == x then [order[n]] else []
  }

  lemma {:induction false} InLoopHas(order: seq<Block>, exits: seq<Block?>, x: Block, i: nat)
    requires |order| == |exits| && i < |order| && exits[i] == x
    ensures order[i] in InLoop(order, exits, x)
    decreases |order|
  {
    if i < |order| - 1 { InLoopHas(order[..|order| - 1], exits[..|order| - 1], x, i); }
  }

  lemma {:induction false} InLoopOnly(order: seq<Block>, exits: seq<Block?>, x: Block, k: nat) returns (i: nat)
    requires |order| == |exits| && k < |InLoop(order, exits, x)|
    ensures i < |order| && order[i] == InLoop(order, exits, x)[k] && exits[i] == x
    decreases |order|
  {
    var n := |order| - 1;
    var front := InLoop(order[..n], exits[..n], x);
    if k < |front| { i := InLoopOnly(order[..n], exits[..n], x, k); } else { i := n; }
  }

  function ExitsOf(order: seq<Block>): (exits: seq<Block?>)
    reads order
    ensures |exits| == |order| && forall i :: 0 <= i < |order| ==> exits[i] == order[i].toForExit
  {
    if order == [] then [] else ExitsOf(order[..|order| - 1]) + [order[|order| - 1].toForExit]
  }

  /** Every block of a loop is listed at the exit of the loop, in order. */
  method ListLoopBlocks(order: seq<Block>, ghost g: map<Label, Block>)
    requires OwnsAll(g, order) && forall l <- g :: g[l].lbl == l && Owns(g, g[l].toForExit)
    modifies g.Values
    ensures forall l <- g ::
      g[l].instrs == old(g[l].instrs) && g[l].succs == old(g[l].succs) && g[l].preds == old(g[l].preds)
          && g[l].toForExit == old(g[l].toForExit)
    ensures forall l <- g ::
      g[l].allBlocksInLoop == old(g[l].allBlocksInLoop) + InLoop(order, old(ExitsOf(order)), g[l])
  {
    ghost var exits := ExitsOf(order);
    hide ExitsOf;
    for i := 0 to |order|
      invariant forall l <- g ::
        g[l].instrs == old(g[l].instrs) && g[l].succs == old(g[l].succs) && g[l].preds == old(g[l].preds)
            && g[l].toForExit == old(g[l].toForExit)
      invariant forall l <- g ::
        g[l].allBlocksInLoop == old(g[l].allBlocksInLoop) + InLoop(order[..i], exits[..i], g[l])
    {
      var block := order[i];
      assert block in order && Owns(g, block) && Owns(g, block.toForExit) && exits[i] == block.toForExit;
      assert order[..i + 1][..i] == order[..i] && exits[..i + 1][..i] == exits[..i];
      if block.toForExit != null {
        block.toForExit.allBlocksInLoop := block.toForExit.allBlocksInLoop + [block];
      }
    }
    assert order[..|order|] == order && exits[..|order|] == exits;
  }

  lemma Exits(g: map<Label, Block>)
    requires WellLinked(g)
    ensures forall l <- g :: g[l].lbl == l && Owns(g, g[l].toForExit)
  {
  }

  method SuperBlock(order: seq<Block>) returns (superBlock: seq<Instr>)
    ensures superBlock == Flatten(SegmentsOf(order))
  {
    superBlock := [];
    ghost var segs := SegmentsOf(order);
    for i := 0 to |order|
      invariant superBlock == Flatten(segs[..i])
    {
      var block := order[i];
      superBlock := superBlock + block.instrs;
      ghost var before := superBlock;
      var inLoop := block.allBlocksInLoop;
      for j := 0 to |inLoop|
        invariant superBlock == before + Flat(inLoop[..j])
      {
        assert inLoop[..j + 1][..j] == inLoop[..j];
        superBlock := superBlock + inLoop[j].instrs;
      }
      assert inLoop[..|inLoop|] == inLoop;
      assert segs[..i + 1][..i] == segs[..i];
    }
    assert segs[..|order|] == segs;
  }

  /** First and last mentions over the super-block of the function whose blocks are g, entered at entry. */
  method CalculateLiveRanges(entry: Block, ghost g: map<Label, Block>)
    returns (startpoint: map<Entry, int>, endpoint: map<Entry, int>, ghost order: seq<Block>)
    requires WellLinked(g) && Owns(g, entry)
    modifies g.Values
    ensures forall l <- g ::
      g[l].instrs == old(g[l].instrs) && g[l].succs == old(g[l].succs) && g[l].preds == old(g[l].preds)
          && g[l].toForExit == old(g[l].toForExit)
    ensures OwnsAll(g, order) && InOrder(EdgesOf(g), entry.lbl, Labels(order))
    ensures Exact(Mentions(Flatten(SegmentsOf(order))), Ranges(startpoint, endpoint))
    ensures forall b <- order :: b.toForExit != null ==> b in b.toForExit.allBlocksInLoop
    ensures forall l, k :: l in g && 0 <= k < |g[l].allBlocksInLoop| ==>
      g[l].allBlocksInLoop[k] in old(g[l].allBlocksInLoop) || g[l].allBlocksInLoop[k].toForExit == g[l]
  {
    hide Exact, InOrder, Labels, NoDup, EdgesOf, InLoop, Instr.Vars, Mentions, Flatten, SegmentsOf, Copied, Flat,
        WellLinked, Sound;
    LinkedIsClosed(g);
    ghost var edges := EdgesOf(g);
    EdgesAre(g, edges);
    var first := InOrderBlocks(entry, g);
    ghost var exits := ExitsOf(first);
    ListLoopBlocks(first, g);
    EdgesSame(g, edges);
    var again := InOrderBlocks(entry, g);
    order := again;
    SameBlocks(g, edges, entry.lbl, first, again);
    assert forall i :: 0 <= i < |first| ==> exits[i] == first[i].toForExit;
    AllListed(g, first, exits, again);
    forall l, k | l in g && 0 <= k < |g[l].allBlocksInLoop|
      ensures g[l].allBlocksInLoop[k] in old(g[l].allBlocksInLoop) || g[l].allBlocksInLoop[k].toForExit == g[l]
    {
      var before := |old(g[l].allBlocksInLoop)|;
      if k >= before { var i := InLoopOnly(first, exits, g[l], k - before); }
    }
    startpoint, endpoint := RangesInOrder(again);
  }

  method RangesInOrder(order: seq<Block>) returns (startpoint: map<Entry, int>, endpoint: map<Entry, int>)
    ensures Exact(Mentions(Flatten(SegmentsOf(order))), Ranges(startpoint, endpoint))
  {
    hide Exact, Instr.Vars;
    var superBlock := SuperBlock(order);
    ghost var segs := SegmentsOf(order);
    startpoint, endpoint := RangesOf(superBlock);
    assert superBlock == Flatten(segs);
    assert SegmentsOf(order) == segs;
  }

  lemma AllListed(g: map<Label, Block>, first: seq<Block>, exits: seq<Block?>, again: seq<Block>)
    requires OwnsAll(g, first) && OwnsAll(g, again) && (forall x <- again :: x in first) && forall l <- g ::
        Owns(g, g[l].toForExit)
    requires |exits| == |first| && forall i :: 0 <= i < |first| ==> exits[i] == first[i].toForExit
    requires forall l <- g, x <- InLoop(first, exits, g[l]) :: x in g[l].allBlocksInLoop
    ensures forall b <- again :: b.toForExit != null ==> b in b.toForExit.allBlocksInLoop
  {
    hide InLoop;
    forall b <- again | b.toForExit != null ensures b in b.toForExit.allBlocksInLoop {
      var i :| 0 <= i < |first| && first[i] == b;
      assert Owns(g, b) && Owns(g, b.toForExit);
      InLoopHas(first, exits, b.toForExit, i);
    }
  }

  lemma LinkedIsClosed(g: map<Label, Block>)
    requires WellLinked(g)
    ensures Closed(g) && forall l <- g :: g[l].lbl == l && Owns(g, g[l].toForExit)
  {
  }

  lemma EdgesAre(g: map<Label, Block>, edges: Edges)
    requires edges == EdgesOf(g)
    ensures edges.Keys == g.Keys && forall l <- g :: edges[l] == Labels(g[l].succs)
  {
  }

  lemma EdgesSame(g: map<Label, Block>, edges: Edges)
    requires edges.Keys == g.Keys && forall l <- g :: edges[l] == Labels(g[l].succs)
    ensures edges == EdgesOf(g)
  {
    hide Labels;
  }

  lemma SameBlocks(g: map<Label, Block>, edges: Edges, root: Label, a: seq<Block>, b: seq<Block>)
    requires OwnsAll(g, a) && OwnsAll(g, b) && InOrder(edges, root, Labels(a)) && InOrder(edges, root, Labels(b))
    ensures forall x <- b :: x in a
  {
    hide Labels, NoDup, Reachable;
    forall x <- b ensures x in a {
      assert Owns(g, x);
      LabelsDistinguish(g, b, x);
      LabelsDistinguish(g, a, x);
    }
  }

  /** A variable mentioned in a block of a loop whose exit comes later in the order is live throughout the exit's own
      instructions, so that nothing there can share its register. */
  lemma LoopVariablesReachPastExit(order: seq<Block>, rg: Ranges, i: nat, j: nat, p: nat, v: Entry)
    requires Exact(Mentions(Flatten(SegmentsOf(order))), rg)
    requires i < j < |order| && order[i].toForExit == order[j] && order[i] in order[j].allBlocksInLoop
    requires p < |order[i].instrs| && v in order[i].instrs[p].Vars()
    ensures v in rg.start && rg.start[v] < Offset(SegmentsOf(order), j)
    ensures Offset(SegmentsOf(order), j) + |order[j].instrs| - 1 <= rg.end[v]
  {
    hide Exact, Flatten, Offset, Instr.Vars;
    var q := FlatHas(order[j].allBlocksInLoop, order[i], p);
    LoopExtends(SegmentsOf(order), rg, i, j, p, q, v);
  }
}
