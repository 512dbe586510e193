/** What holds of all the blocks of a generated function: they are exactly the blocks emitted, dead-code elimination
    changes no run of them, and the return-path check decides whether control can fall off one. */
module FunctionBlocks {
  import opened Words
  import opened Events
  import opened Ir
  import opened IrSemantics
  import opened Translation
  import opened Growth
  import opened ExprPreservation
  import opened Preservation
  import opened FunctionPreservation
  import opened Shape
  import opened Reachability
  import opened Flow
  import opened DeadCode
  import opened ReturnAnalysis
  import opened ReturnPaths
  import opened OpenPaths
  import S = Source

  // ----- The shape of a function -----

  lemma {:induction false} ParamInstrsStraight(ps: seq<(string, S.Type)>)
    ensures Straight(ParamInstrs(ps))
  {
    if ps != [] { ParamInstrsStraight(ps[1..]); }
  }

  lemma {:induction false} DeclInstrsStraight(ds: seq<(string, S.Type)>)
    ensures Straight(DeclInstrs(ds))
  {
    if ds != [] { DeclInstrsStraight(ds[1..]); }
  }

  lemma PrologueHasNoTargets(f: S.Function)
    ensures Straight(Prologue(f)) && AllTargets(Prologue(f)) == {}
  {
    ParamInstrsStraight(f.params);
    DeclInstrsStraight(f.declarations);
    StraightHasNoTargets(Prologue(f));
  }

  lemma StartShaped(f: S.Function, n: Label, r: nat)
    ensures Shaped(StartFunction(f, n, r), map[n := {n}], n)
  {
    PrologueHasNoTargets(f);
    var b := StartFunction(f, n, r);
    assert b.code[n] == [] + Prologue(f) == Prologue(f);
    assert b.succs == map[n := []];
    forall k: Label, v: Label ensures !Recorded(b.succs, k, v) {}
  }

  lemma EndShaped(f: S.Function, p: Placed, dom: Doms, root: Label)
    requires Shaped(p.b, dom, root) && p.cur in dom
    ensures Shaped(EndFunction(f, p).b, dom, root)
  {
    hide Nests, Linked;
    if f.ret.None? {
      var ret := ReturnOf(Imm(0, I64), p.b.nextReg);
      ReturnHasNoTargets(Imm(0, I64), p.b.nextReg);
      AppendShaped(p.b, dom, root, p.cur, ret);
      NextRegShaped(p.b.Append(p.cur, ret), dom, root, p.b.nextReg + 1);
    }
  }

  lemma FunctionShaped(f: S.Function, sc: S.Scope, n: Label, r: nat) returns (dom: Doms)
    ensures Shaped(FunctionBody(f, sc, n, r).b, dom, n)
  {
    hide Nests, Linked, StartFunction, EndFunction, Stms, DomsExtend;
    StartShaped(f, n, r);
    dom := StmsShaped(f.stms, n, StartFunction(f, n, r), sc, map[n := {n}], n);
    EndShaped(f, Stms(f.stms, n, StartFunction(f, n, r), sc), dom, n);
  }

  // ----- Emission -----

  /** The blocks the recorded edges reach are exactly the blocks registered, and hold every branch target,
      also after empty blocks are padded with a branch to themselves. */
  ghost predicate CompletelyEmitted(b: Build, root: Label) {
    && (forall l :: Reachable(b.succs, root, l) <==> l in b.code)
    && (forall u, v :: u in b.code && v in AllTargets(Padded(b.code)[u]) ==> v in b.code)
  }

  lemma EmissionIsComplete(f: S.Function, sc: S.Scope, n: Label, r: nat)
    ensures CompletelyEmitted(FunctionBody(f, sc, n, r).b, n)
  {
    var dom := FunctionShaped(f, sc, n, r);
    ShapedIsEmitted(FunctionBody(f, sc, n, r).b, dom, n);
  }

  lemma ShapedIsEmitted(b: Build, dom: Doms, root: Label)
    requires Shaped(b, dom, root)
    ensures CompletelyEmitted(b, root)
  {
    hide Shaped, Reachable, AllTargets;
    forall l ensures Reachable(b.succs, root, l) <==> l in b.code {
      if l in b.code { EveryBlockListed(b, dom, root, l); }
      if Reachable(b.succs, root, l) { OnlyBlocksListed(b, dom, root, l); }
    }
    forall u, v | u in b.code && v in AllTargets(Padded(b.code)[u]) ensures v in b.code {
      if b.code[u] == [] {
        OneTarget(Br(u));
      } else {
        TargetsAreBlocks(b, dom, root, u, v);
      }
    }
  }

  // ----- Dead-code elimination -----

  /** However blocks are removed, the optimised function behaves, step by step, as the source function does. */
  lemma OptimisedFunctionRuns(f: S.Function, sc: S.Scope, nextLabel: nat, nextReg: nat, registered: set<Label>,
                              code': Code, succs': Edges, w: World,
                              args: map<string, int>, globals: Globals, log: seq<Event>, fuel: nat)
    returns (n: nat, im: IrMem)
    requires GoodCall(f, sc, w, args, globals)
    requires Eliminated(FunctionBody(f, sc, nextLabel, nextReg).b, nextLabel, registered, code', succs')
    ensures var p := FunctionBody(f, sc, nextLabel, nextReg);
      CallArrives(S.RunFunction(f, args, globals, log, sc, w, fuel), code', w,
                  Running(nextLabel, 0, Entry0(args, globals, log)), n, im, p.cur, |p.b.Code(p.cur)|, fuel)
  {
    hide GoodCall, Eliminated, Shaped, FunctionBody, S.RunFunction, Entry0, Run, Build.Code;
    var p := FunctionBody(f, sc, nextLabel, nextReg);
    assert Embedded(p.b, p.b.code);
    n, im := FunctionRuns(f, sc, nextLabel, nextReg, p.b.code, w, args, globals, log, fuel);
    var dom := FunctionShaped(f, sc, nextLabel, nextReg);
    EliminationPreservesRuns(p.b, dom, nextLabel, registered, code', succs', Entry0(args, globals, log), w, n);
  }

  /** Every block that can run is kept, and still found through the recorded edges. */
  lemma LiveBlocksAreEmitted(f: S.Function, sc: S.Scope, n: Label, r: nat, registered: set<Label>, code': Code,
                             succs': Edges, l: Label)
    requires Eliminated(FunctionBody(f, sc, n, r).b, n, registered, code', succs')
    requires Live(FunctionBody(f, sc, n, r).b.code, n, l)
    ensures l in code' && Reachable(succs', n, l)
  {
    hide Shaped, FunctionBody, Reachable;
    var dom := FunctionShaped(f, sc, n, r);
    LiveStaysListed(FunctionBody(f, sc, n, r).b, dom, n, succs', registered, l);
  }

  // ----- The return-path check -----

  /** Every block that can run is a block of the function and has a terminator. */
  ghost predicate LiveBlocksEnd(b: Build, root: Label) {
    forall l :: Live(b.code, root, l) ==> l in b.code && Terminated(b.code[l])
  }

  lemma StartOpenAndDead(f: S.Function, n: Label, r: nat)
    ensures var b := StartFunction(f, n, r);
      OpenAt(b, n, n) && DeadSet(b, {}, n) && EndedBut(b, {n}) && b.Valid() && n in b.code
  {
    hide Prologue;
    var b := StartFunction(f, n, r);
    StartFunctionBlocks(f, n, r);
    PrologueHasNoTargets(f);
    StraightIsOpen(Prologue(f));
    RootReachable(FlowGraph(b.code), n);
    forall u: Label ensures AllTargets(b.Code(u)) == {} { if u != n { assert b.Code(u) == []; } }
  }

  lemma EndFunctionEnded(f: S.Function, p: Placed)
    requires EndedBut(p.b, {p.cur}) && p.cur in p.b.code
    ensures f.ret.None? ==> EndedBut(EndFunction(f, p).b, {})
  {
    hide EndedBut;
    if f.ret.None? {
      var ret := ReturnOf(Imm(0, I64), p.b.nextReg);
      assert ret == ret[..2] + [ret[2]];
      LastEnds(ret[..2], ret[2]);
      AppendKeepsEnded(p.b, {p.cur}, p.cur, ret);
      assert {p.cur} - {p.cur} == {};
      NextRegEnded(p.b.Append(p.cur, ret), {}, p.b.nextReg + 1);
    }
  }

  /** Of all the blocks only the last can be without a terminator, and with a result type only that of a
      function that does not always return outside its loops can also run. */
  lemma BlocksEnd(f: S.Function, sc: S.Scope, n: Label, r: nat)
    requires f.ret.None? || ReturnsOutsideLoops(f.stms)
    ensures LiveBlocksEnd(FunctionBody(f, sc, n, r).b, n)
  {
    hide StartFunction, Stms, Grows, Build.Valid, DeadSet, OpenAt, Live, FirstExit, ReturnsOutsideLoops;
    var b := StartFunction(f, n, r);
    StartOpenAndDead(f, n, r);
    var p := Stms(f.stms, n, b, sc);
    StmsGrows(f.stms, n, b, sc);
    assert {} + {n} == {n} && {} + {p.cur} == {p.cur};
    StmsEnd(f.stms, n, b, sc, {});
    EndFunctionEnded(f, p);
    var dom := FunctionShaped(f, sc, n, r);
    var c := FunctionBody(f, sc, n, r).b;
    var d := {};
    if f.ret.Some? { d := DeadEnd(f, sc, n, r); }
    forall l | Live(c.code, n, l) ensures l in c.code && Terminated(c.code[l]) {
      LiveIsBlock(c, dom, n, l);
      if f.ret.Some? { DeadIsNotLive(c, d, n, l); }
    }
  }

  lemma DeadEnd(f: S.Function, sc: S.Scope, n: Label, r: nat) returns (d: set<Label>)
    requires ReturnsOutsideLoops(f.stms) && f.ret.Some?
    ensures var p := FunctionBody(f, sc, n, r); DeadSet(p.b, d, n) && Shut(p.b, d, p.cur)
  {
    hide StartFunction, Stms, DeadSet, Shut, ReturnsOutsideLoops, OpenAt, EndedBut;
    StartOpenAndDead(f, n, r);
    d := StmsDead(f.stms, n, StartFunction(f, n, r), sc, {}, n);
  }

  /** With a result type and a path that does not return outside loops, the block the function ends in can run, and
      control falls off its end. */
  lemma LastBlockOpen(f: S.Function, sc: S.Scope, n: Label, r: nat)
    requires f.ret.Some? && !ReturnsOutsideLoops(f.stms)
    ensures var p := FunctionBody(f, sc, n, r);
      Live(p.b.code, n, p.cur) && p.cur in p.b.code && !Terminated(p.b.code[p.cur])
  {
    hide StartFunction, Stms, DeadSet, Live, ReturnsOutsideLoops, EndedBut;
    StartOpenAndDead(f, n, r);
    StmsOpen(f.stms, n, StartFunction(f, n, r), sc, n);
  }

  /** Exactly when control can never fall off a block of a function, with or without loops. */
  lemma NeverFallsOffExactly(f: S.Function, sc: S.Scope, n: Label, r: nat)
    ensures LiveBlocksEnd(FunctionBody(f, sc, n, r).b, n) <==> f.ret.None? || ReturnsOutsideLoops(f.stms)
  {
    hide FunctionBody, Live, FirstExit, ReturnsOutsideLoops;
    if f.ret.None? || ReturnsOutsideLoops(f.stms) { BlocksEnd(f, sc, n, r); } else { LastBlockOpen(f, sc, n, r); }
  }

  /** With or without loops, a function that fails the check has a block that can run and falls off its end. */
  lemma UncheckedBlockOpen(f: S.Function, sc: S.Scope, n: Label, r: nat)
    requires !ReturnCheck(f)
    ensures var p := FunctionBody(f, sc, n, r);
      Live(p.b.code, n, p.cur) && p.cur in p.b.code && !Terminated(p.b.code[p.cur])
  {
    hide FunctionBody, Live, ReturnsOutsideLoops, BlockReturns, FirstExit;
    CheckAgainstLoops(f);
    LastBlockOpen(f, sc, n, r);
  }

  lemma CheckAgainstLoops(f: S.Function)
    requires f.ret.Some?
    ensures ReturnsOutsideLoops(f.stms) ==> ReturnCheck(f)
    ensures LoopFree(f.stms) ==> ReturnsOutsideLoops(f.stms) == ReturnCheck(f)
  {
    OutsideLoopsIsStronger(f.stms);
    HelperIsBlockReturns(f.stms, |f.stms|);
    assert f.stms[..|f.stms|] == f.stms;
  }

  /** For loop-free functions the check itself is exact on the generated blocks. */
  lemma LoopFreeCheckIsExact(f: S.Function, sc: S.Scope, n: Label, r: nat)
    requires LoopFree(f.stms)
    ensures ReturnCheck(f) <==> LiveBlocksEnd(FunctionBody(f, sc, n, r).b, n)
  {
    hide FunctionBody, LiveBlocksEnd, ReturnsOutsideLoops, BlockReturns, LoopFree;
    NeverFallsOffExactly(f, sc, n, r);
    if f.ret.Some? { CheckAgainstLoops(f); }
  }

  /** The function whose loop skips its return passes the check and has a block that can run and falls off its end. */
  lemma SkippedReturnFallsOff(sc: S.Scope, n: Label, r: nat)
    ensures ReturnCheck(SKIPS_RETURN)
    ensures var p := FunctionBody(SKIPS_RETURN, sc, n, r);
      Live(p.b.code, n, p.cur) && p.cur in p.b.code && !Terminated(p.b.code[p.cur])
  {
    hide FunctionBody, Live;
    PassesButSkips();
    LastBlockOpen(SKIPS_RETURN, sc, n, r);
  }

  /** Where every block that can run has a terminator, a run is always at an instruction, and never in a block
      that was padded because it was empty. */
  lemma EndedRunsStayInside(b: Build, root: Label, m: IrMem, w: World, k: nat)
    requires LiveBlocksEnd(b, root)
    ensures var s := Run(b.code, Running(root, 0, m), w, k);
      s.Running? ==> s.at in b.code && s.index < |b.code[s.at]| && Padded(b.code)[s.at] == b.code[s.at]
  {
    RootReachable(FlowGraph(b.code), root);
    RunStaysOnPath(b.code, root, Running(root, 0, m), w, k);
  }
}
