/** What the rounds of removal leave, in terms of walks along branches: a block stays exactly if as many branches as
    there are rounds lead to it one after the other, or fewer that start at the entry. */
module RemovalRounds {
  import opened Words
  import opened Ir
  import opened IrSemantics
  import opened Translation
  import opened Reachability
  import opened Flow
  import opened Shape
  import opened DeadCode
  import opened EveryInstruction
  import opened FunctionBlocks
  import opened ExprPreservation
  import opened FlagHandoff
  import S = Source

  /** Blocks each of which branches to the next, another one. */
  ghost predicate IsWalk(code: Code, walk: seq<Label>) {
    && walk != [] && (forall l <- walk :: l in code)
    && forall i :: 0 <= i < |walk| - 1 ==> walk[i] != walk[i + 1] && walk[i + 1] in AllTargets(code[walk[i]])
  }

  /** A walk along n branches, or along at most n from the root. */
  ghost predicate LeadsTo(code: Code, root: Label, walk: seq<Label>, l: Label, n: nat) {
    && IsWalk(code, walk) && walk[|walk| - 1] == l
    && (|walk| == n + 1 || (walk[0] == root && |walk| <= n + 1))
  }

  /** No conditional branch goes to its own block. */
  ghost predicate NoSelfTest(code: Code) {
    forall l <- code, i <- code[l] :: i.BrCond? ==> i.iftrue != l && i.iffalse != l
  }

  lemma {:induction false} TargetFrom(ins: seq<Instr>, v: Label) returns (i: nat)
    requires v in AllTargets(ins)
    ensures i < |ins| && v in ins[i].Targets()
  {
    if v in ins[0].Targets() {
      i := 0;
    } else {
      i := TargetFrom(ins[1..], v);
      i := i + 1;
    }
  }

  /** A round sees the targets of branches between different blocks. */
  lemma SeenIsBranchedTo(code: Code, registered: set<Label>, root: Label, v: Label)
    requires NoSelfTest(code)
    ensures Seen(code, registered, root, v) <==>
      v == root || exists u :: u in registered && u in code && u != v && v in AllTargets(code[u])
  {
    if v != root && Seen(code, registered, root, v) {
      var u, i :| u in registered && u in code && 0 <= i < |code[u]| && Sees(u, code[u][i], v);
      assert code[u][i] in code[u];
      TargetIn(code[u], i, v);
    }
    if u :| u in registered && u in code && u != v && v in AllTargets(code[u]) {
      var i := TargetFrom(code[u], v);
      assert Sees(u, code[u][i], v);
    }
  }

  lemma CutNoSelfTest(code: Code)
    requires NoSelfTest(code)
    ensures NoSelfTest(Cut(code))
  {
    hide FirstExit;
    forall l <- Cut(code), i <- Cut(code)[l] ensures i.BrCond? ==> i.iftrue != l && i.iffalse != l {
      assert i in code[l];
    }
  }

  lemma WalkOn(code: Code, walk: seq<Label>, v: Label)
    requires IsWalk(code, walk) && v in code && walk[|walk| - 1] != v && v in AllTargets(code[walk[|walk| - 1]])
    ensures IsWalk(code, walk + [v])
  {
    var more := walk + [v];
    forall i | 0 <= i < |more| - 1 ensures more[i] != more[i + 1] && more[i + 1] in AllTargets(code[more[i]]) {
      assert more[i] == walk[i];
    }
  }

  lemma PartOfWalk(code: Code, walk: seq<Label>, i: nat, j: nat)
    requires IsWalk(code, walk) && i < j <= |walk|
    ensures IsWalk(code, walk[i..j])
  {
    var part := walk[i..j];
    forall k | 0 <= k < |part| - 1 ensures part[k] != part[k + 1] && part[k + 1] in AllTargets(code[part[k]]) {
      assert part[k] == walk[i + k] && part[k + 1] == walk[i + k + 1];
    }
  }

  /** The survivors of n rounds are the blocks such walks lead to. */
  lemma {:induction false} SurvivorsByWalks(code: Code, root: Label, n: nat, l: Label)
    requires NoSelfTest(code)
    ensures l in Survivors(code, root, n) <==> l in code && exists walk :: LeadsTo(Cut(code), root, walk, l, n)
    decreases n
  {
    hide Seen, Cut, AllTargets, IsWalk;
    if l in Survivors(code, root, n) {
      SurvivorIsCode(code, root, n, l);
      var walk := WalkOfSurvivor(code, root, n, l);
    }
    if l in code {
      if walk :| LeadsTo(Cut(code), root, walk, l, n) { WalkSurvives(code, root, n, l, walk); }
    }
  }

  lemma {:induction false} SurvivorIsCode(code: Code, root: Label, n: nat, l: Label)
    requires l in Survivors(code, root, n)
    ensures l in code
    decreases n
  {
    if n > 0 { SurvivorIsCode(code, root, n - 1, l); }
  }

  lemma {:induction false} WalkOfSurvivor(code: Code, root: Label, n: nat, l: Label) returns (walk: seq<Label>)
    requires NoSelfTest(code) && l in Survivors(code, root, n)
    ensures LeadsTo(Cut(code), root, walk, l, n)
    decreases n
  {
    hide Seen, AllTargets, Truncate;
    SurvivorIsCode(code, root, n, l);
    if n == 0 || l == root {
      walk := [l];
    } else {
      var registered := Survivors(code, root, n - 1);
      CutNoSelfTest(code);
      SeenIsBranchedTo(Cut(code), registered, root, l);
      var u :| u in registered && u in Cut(code) && u != l && l in AllTargets(Cut(code)[u]);
      var before := WalkOfSurvivor(code, root, n - 1, u);
      WalkOn(Cut(code), before, l);
      walk := before + [l];
    }
  }

  lemma {:induction false} WalkSurvives(code: Code, root: Label, n: nat, l: Label, walk: seq<Label>)
    requires NoSelfTest(code) && l in code && LeadsTo(Cut(code), root, walk, l, n)
    ensures l in Survivors(code, root, n)
    decreases n
  {
    hide Seen, AllTargets, Truncate;
    if n > 0 {
      var k := |walk| - 1;
      if walk[0] == root && |walk| <= n {
        WalkSurvives(code, root, n - 1, l, walk);
      } else {
        PartOfWalk(Cut(code), walk, 1, |walk|);
        WalkSurvives(code, root, n - 1, l, walk[1..]);
      }
      if k > 0 {
        PartOfWalk(Cut(code), walk, 0, k);
        assert walk[k - 1] in Cut(code) && walk[k - 1] != walk[k] && walk[k] in AllTargets(Cut(code)[walk[k - 1]]);
        WalkSurvives(code, root, n - 1, walk[k - 1], walk[..k]);
      }
      CutNoSelfTest(code);
      SeenIsBranchedTo(Cut(code), Survivors(code, root, n - 1), root, l);
    }
  }

  // ----- Generated functions -----

  lemma SimpleTestsNothing(s: S.Stm, sc: S.Scope, n: nat)
    requires !s.Conditional? && !s.Loop?
    ensures forall i <- Simple(s, sc, n).0 :: !i.BrCond?
  {
    hide Simple;
    SimpleHasNoBrCond(s, sc, n);
  }

  lemma TestsGoAhead(sc: S.Scope, ret: Option<S.Type>) returns (p: Property)
    ensures forall l: Label, i: Instr :: p(l, i) <==> (i.BrCond? ==> l < i.iftrue && l < i.iffalse)
    ensures Admits(p, sc, ret)
  {
    hide Simple, Tested, Expr, S.WellTyped;
    p := (l: Label, i: Instr) => i.BrCond? ==> l < i.iftrue && l < i.iffalse;
    forall l, s, n ensures SimpleHas(p, l, s, sc, ret, n) {
      if !s.Conditional? && !s.Loop? { SimpleTestsNothing(s, sc, n); }
    }
    forall l, c, n, t, f, isLoop ensures TestedHas(p, l, c, sc, n, t, f, isLoop) {
      TestedOnce(c, sc, n, t, f, isLoop);
    }
  }

  lemma TestedOnce(cond: S.Expr, sc: S.Scope, n: nat, t: Label, f: Label, isLoop: bool)
    ensures forall i <- Tested(cond, sc, n, t, f, isLoop) :: i.BrCond? ==> i.iftrue == t && i.iffalse == f
  {
    hide Expr;
    ExprShape(cond, sc, n);
    TestIsStraight(Expr(cond, sc, n), isLoop);
  }

  lemma FunctionHasNoSelfTest(f: S.Function, sc: S.Scope, n: Label, r: nat)
    requires S.WellTypedStms(f.stms, sc, f.ret)
    ensures NoSelfTest(FunctionBody(f, sc, n, r).b.code)
  {
    hide Prologue, FunctionBody, S.WellTypedStms;
    var p := TestsGoAhead(sc, f.ret);
    FunctionEverywhere(p, f, sc, n, r);
    var b := FunctionBody(f, sc, n, r).b;
    var k := |Prologue(f)|;
    EverywhereIs(p, b, n, k);
    PrologueHasNoTargets(f);
    forall l <- b.code, i <- b.code[l] ensures i.BrCond? ==> i.iftrue != l && i.iffalse != l {
      var j :| 0 <= j < |b.code[l]| && b.code[l][j] == i;
      if l == n && j < k {
        assert i == Prologue(f)[j];
        if i.BrCond? { TargetIn(Prologue(f), j, i.iftrue); }
      } else {
        assert p(l, b.code[l][j]);
      }
    }
  }

  lemma {:induction false} CutTargetsAreExits(ins: seq<Instr>, v: Label)
    requires v in AllTargets(Truncate(ins))
    ensures v in Exits(ins)
  {
    hide FirstExit;
    var i := TargetFrom(Truncate(ins), v);
    CutTargetIsLast(ins, i);
  }

  lemma CutTargetIsLast(ins: seq<Instr>, i: nat)
    requires i < |Truncate(ins)| && Truncate(ins)[i].Targets() != {}
    ensures Terminated(ins) && i == FirstExit(ins) && Truncate(ins)[i] == ins[i]
  {
  }

  /** A walk from the root only leads to blocks that can run. */
  lemma {:induction false} WalkFromRootIsLive(code: Code, root: Label, walk: seq<Label>)
    requires IsWalk(Cut(code), walk) && walk[0] == root
    ensures Live(code, root, walk[|walk| - 1])
    decreases |walk|
  {
    hide Exits, Truncate, AllTargets;
    var k := |walk| - 1;
    if k == 0 {
      RootReachable(FlowGraph(code), root);
    } else {
      PartOfWalk(Cut(code), walk, 0, k);
      WalkFromRootIsLive(code, root, walk[..k]);
      var u := walk[k - 1];
      assert u in Cut(code) && walk[k] in AllTargets(Cut(code)[u]);
      CutTargetsAreExits(code[u], walk[k]);
      ReachableStep(FlowGraph(code), root, u, walk[k]);
    }
  }

  /** Exactly the blocks that stay: those at the end of a walk of five branches between different blocks of the cut
      function, or of fewer from its entry. */
  lemma FunctionKeepsExactly(f: S.Function, sc: S.Scope, n: Label, r: nat, l: Label)
    requires S.WellTypedStms(f.stms, sc, f.ret)
    ensures var code := FunctionBody(f, sc, n, r).b.code;
      l in Survivors(code, n, 5) <==> l in code && exists walk :: LeadsTo(Cut(code), n, walk, l, 5)
  {
    hide FunctionBody;
    FunctionHasNoSelfTest(f, sc, n, r);
    SurvivorsByWalks(FunctionBody(f, sc, n, r).b.code, n, 5, l);
  }

  /** A block other than the entry that stays is branched to by another block, and if it cannot run it is at the end of
      a walk of five branches. */
  lemma KeptBlocks(f: S.Function, sc: S.Scope, n: Label, r: nat, l: Label)
    requires S.WellTypedStms(f.stms, sc, f.ret) && l in Survivors(FunctionBody(f, sc, n, r).b.code, n, 5)
    ensures var code := FunctionBody(f, sc, n, r).b.code; var cut := Cut(code);
      && (l != n ==> exists u :: u in code && u != l && l in AllTargets(Truncate(code[u])))
      && (!Live(code, n, l) ==> exists walk :: IsWalk(cut, walk) && |walk| == 6 && walk[5] == l)
  {
    hide FunctionBody, Truncate, AllTargets, Live;
    var code := FunctionBody(f, sc, n, r).b.code;
    FunctionKeepsExactly(f, sc, n, r, l);
    var walk :| LeadsTo(Cut(code), n, walk, l, 5);
    var k := |walk| - 1;
    if l != n {
      assert walk[k - 1] in Cut(code) && walk[k - 1] != walk[k] && walk[k] in AllTargets(Cut(code)[walk[k - 1]]);
    }
    if walk[0] == n { WalkFromRootIsLive(code, n, walk); }
  }
}
