/** What removing dead blocks may and may not change, whatever order blocks are removed in. */
module DeadCode {
  import opened Words
  import opened Events
  import opened Ir
  import opened IrSemantics
  import opened Translation
  import opened Reachability
  import opened Flow
  import opened Shape

  // ----- Emission without optimisation -----

  /** Recorded edges reach every block of a well-shaped graph. */
  lemma {:induction false} EveryBlockListed(b: Build, dom: Doms, root: Label, l: Label)
    requires Shaped(b, dom, root) && l in b.code
    ensures Reachable(b.succs, root, l)
    decreases l
  {
    if l == root {
      RootReachable(b.succs, root);
    } else {
      assert HasOlderPred(b.succs, l);
      var k: Label :| Recorded(b.succs, k, l) && k < l;
      EveryBlockListed(b, dom, root, k);
      ReachableStep(b.succs, root, k, l);
    }
  }

  /** Recorded edges reach nothing outside the graph. */
  lemma OnlyBlocksListed(b: Build, dom: Doms, root: Label, l: Label)
    requires Shaped(b, dom, root) && Reachable(b.succs, root, l)
    ensures l in b.code
  {
    var n: nat :| Reach(b.succs, root, l, n);
    forall k, v | k in b.succs.Keys && k in b.succs && v in b.succs[k] ensures v in b.succs.Keys {
      assert Recorded(b.succs, k, v);
    }
    ReachInClosed(b.succs, root, l, n, b.succs.Keys);
  }

  /** Every branch target is a block of the graph. */
  lemma TargetsAreBlocks(b: Build, dom: Doms, root: Label, u: Label, v: Label)
    requires Shaped(b, dom, root) && u in b.code && v in AllTargets(b.code[u])
    ensures v in b.code
  {
    assert EdgeCovered(b.succs, dom, u, v);
  }

  // ----- Liveness -----

  lemma {:induction false} TargetIn(ins: seq<Instr>, i: nat, v: Label)
    requires i < |ins| && v in ins[i].Targets()
    ensures v in AllTargets(ins)
  {
    if i > 0 { TargetIn(ins[1..], i - 1, v); }
  }

  lemma ExitsAreTargets(ins: seq<Instr>, v: Label)
    requires v in Exits(ins)
    ensures v in AllTargets(ins)
  {
    TargetIn(ins, FirstExit(ins), v);
  }

  lemma LiveIsBlock(b: Build, dom: Doms, root: Label, l: Label)
    requires Shaped(b, dom, root) && Live(b.code, root, l)
    ensures l in b.code
  {
    var g := FlowGraph(b.code);
    var n: nat :| Reach(g, root, l, n);
    if n > 0 {
      var k :| Reach(g, root, k, n - 1) && k in g && l in g[k];
      ExitsAreTargets(b.code[k], l);
      TargetsAreBlocks(b, dom, root, k, l);
    }
  }

  /** The labels one round keeps: the entry, the targets of conditional branches, and the targets of
      branches from another block, over the blocks still registered. */
  ghost predicate Seen(code: Code, registered: set<Label>, root: Label, v: Label) {
    v == root || exists u, i :: u in registered && u in code && 0 <= i < |code[u]| && Sees(u, code[u][i], v)
  }

  predicate Sees(u: Label, i: Instr, v: Label) {
    match i
    case Br(l) => v == l && l != u
    case BrCond(_, t, f, _) => v == t || v == f
    case _ => false
  }

  /** A shortest way into a block does not come from the block itself. */
  lemma {:induction false} ShortestPred(edges: Edges, root: Label, l: Label, n: nat) returns (k: Label)
    requires Reach(edges, root, l, n) && l != root
    ensures Reachable(edges, root, k) && k in edges && l in edges[k] && k != l
    decreases n
  {
    k :| Reach(edges, root, k, n - 1) && k in edges && l in edges[k];
    if k == l { k := ShortestPred(edges, root, l, n - 1); }
  }

  /** A live block is seen in every round in which all live blocks are still registered. */
  lemma LiveIsSeen(code: Code, code': Code, registered: set<Label>, root: Label, l: Label)
    requires Live(code, root, l)
    requires forall v :: Live(code, root, v) ==> v in registered
    requires code' == Cut(code)
    ensures Seen(code', registered, root, l)
  {
    if l != root {
      var g := FlowGraph(code);
      var n: nat :| Reach(g, root, l, n);
      var k := ShortestPred(g, root, l, n);
      var i := FirstExit(code[k]);
      assert code'[k] == code[k][..i + 1];
      assert code'[k][i] == code[k][i];
      assert Live(code, root, k);
      assert Sees(k, code'[k][i], l);
    }
  }

  /** The blocks of code cut after first terminators. */
  function Cut(code: Code): Code {
    map l | l in code :: Truncate(code[l])
  }

  /** What n rounds leave registered, whatever order blocks are visited and removed in. */
  ghost function Survivors(code: Code, root: Label, n: nat): set<Label> {
    if n == 0 then code.Keys
    else
      var registered := Survivors(code, root, n - 1);
      set l | l in registered && Seen(Cut(code), registered, root, l)
  }

  // ----- Recorded edges after removal -----

  /** An edge is only dropped from the record when the block it leads to is removed. */
  ghost predicate EdgesKept(succs: Edges, succs': Edges, registered: set<Label>) {
    forall k: Label, v: Label :: Recorded(succs, k, v) && v in registered ==> Recorded(succs', k, v)
  }

  lemma CoveredStepListed(succs: Edges, dom: Doms, root: Label, succs': Edges, registered: set<Label>, u: Label,
                          l: Label)
    requires EdgeCovered(succs, dom, u, l) && EdgesKept(succs, succs', registered) && l in registered
    requires forall k <- dom[u] :: Reachable(succs', root, k)
    ensures l in dom && forall k <- dom[l] :: Reachable(succs', root, k)
  {
    var k :| k in dom[u] && Recorded(succs, k, l);
    assert Recorded(succs', k, l);
    ReachableStep(succs', root, k, l);
    forall j <- dom[l] ensures Reachable(succs', root, j) {
      if j != l { assert j in dom[u]; }
    }
  }

  lemma RootDom(b: Build, dom: Doms, root: Label)
    requires Shaped(b, dom, root)
    ensures root in dom && dom[root] == {root}
  {
  }

  lemma TargetCovered(b: Build, dom: Doms, root: Label, u: Label, l: Label)
    requires Shaped(b, dom, root) && u in b.code && l in AllTargets(b.code[u])
    ensures EdgeCovered(b.succs, dom, u, l)
  {
  }

  /** Along every live path, all that a block is behind is still found through the recorded edges. */
  lemma {:induction false} DomsListed(b: Build, dom: Doms, root: Label, succs': Edges, registered: set<Label>,
                                      l: Label, n: nat)
    requires Shaped(b, dom, root) && EdgesKept(b.succs, succs', registered)
    requires forall v :: Live(b.code, root, v) ==> v in registered
    requires Reach(FlowGraph(b.code), root, l, n)
    ensures l in dom && forall k <- dom[l] :: Reachable(succs', root, k)
    decreases n
  {
    hide EdgesKept, Recorded, Linked, EdgeCovered, Exits, AllTargets, Shaped;
    var g := FlowGraph(b.code);
    if n == 0 {
      RootReachable(succs', root);
      RootDom(b, dom, root);
    } else {
      var u :| Reach(g, root, u, n - 1) && u in g && l in g[u];
      DomsListed(b, dom, root, succs', registered, u, n - 1);
      ExitsAreTargets(b.code[u], l);
      TargetCovered(b, dom, root, u, l);
      assert Live(b.code, root, l) by { assert Reach(g, root, l, n); }
      CoveredStepListed(b.succs, dom, root, succs', registered, u, l);
    }
  }

  /** Every live block is still found through the recorded edges after removal. */
  lemma LiveStaysListed(b: Build, dom: Doms, root: Label, succs': Edges, registered: set<Label>, l: Label)
    requires Shaped(b, dom, root) && EdgesKept(b.succs, succs', registered)
    requires forall v :: Live(b.code, root, v) ==> v in registered
    requires Live(b.code, root, l)
    ensures Reachable(succs', root, l)
  {
    var n: nat :| Reach(FlowGraph(b.code), root, l, n);
    DomsListed(b, dom, root, succs', registered, l, n);
    assert l in dom[l];
  }

  /** The result of truncation and any number of removal rounds, in any order. */
  ghost predicate Eliminated(b: Build, root: Label, registered: set<Label>, code': Code, succs': Edges) {
    && registered <= b.code.Keys
    && code'.Keys == registered && (forall l <- code' :: code'[l] == Truncate(b.code[l]))
    && (forall l :: Live(b.code, root, l) ==> l in registered)
    && EdgesKept(b.succs, succs', registered)
  }

  /** Dead-code elimination changes no run from the entry: step by step, the optimised code is where the
      original code is. */
  lemma {:induction false} EliminationPreservesRuns(b: Build, dom: Doms, root: Label, registered: set<Label>,
                                                    code': Code, succs': Edges, m: IrMem, w: World, n: nat)
    requires Shaped(b, dom, root) && Eliminated(b, root, registered, code', succs')
    ensures Run(code', Running(root, 0, m), w, n) == Run(b.code, Running(root, 0, m), w, n)
  {
    forall l | Live(b.code, root, l) ensures l in b.code { LiveIsBlock(b, dom, root, l); }
    RootReachable(FlowGraph(b.code), root);
    assert OnPath(b.code, root, Running(root, 0, m));
    SameRuns(b.code, code', root, Running(root, 0, m), w, n);
  }
}
