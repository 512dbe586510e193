/** A conditional branch is always the last instruction of its block. */
module BranchPlacement {
  import opened Words
  import opened Ir
  import opened IrSemantics
  import opened Translation
  import opened Growth
  import opened ExprPreservation
  import opened Flow
  import opened Shape
  import opened FlagHandoff
  import S = Source

  predicate BrCondLast(ins: seq<Instr>) {
    forall i :: 0 <= i < |ins| && ins[i].BrCond? ==> i == |ins| - 1
  }

  /** The blocks still to be added to have no conditional branch; the others at most one, at the end. */
  ghost predicate Settled(b: Build, open: set<Label>) {
    forall l <- b.code :: if l in open then NoBrCond(b.code[l]) else BrCondLast(b.code[l])
  }

  lemma NoBrCondIsLast(ins: seq<Instr>)
    requires NoBrCond(ins)
    ensures BrCondLast(ins)
  {
  }

  lemma AppendSettled(b: Build, open: set<Label>, l: Label, ins: seq<Instr>, r: nat)
    requires Settled(b, open) && l in open && l in b.code
    ensures NoBrCond(ins) ==> Settled(b.Append(l, ins).(nextReg := r), open)
    ensures BrCondLast(ins) ==> Settled(b.Append(l, ins).(nextReg := r), open - {l})
  {
    assert NoBrCond(b.code[l]);
    assert forall i :: 0 <= i < |b.code[l]| ==> !b.code[l][i].BrCond?;
  }

  lemma CloseSettled(b: Build, open: set<Label>, l: Label, x: Label)
    requires Settled(b, open) && l in open && l in b.code
    ensures Settled(b.Append(l, [Br(x)]), open - {l})
  {
    hide Settled;
    AppendSettled(b, open, l, [Br(x)], b.nextReg);
  }

  lemma AddBlockSettled(b: Build, open: set<Label>, preds: seq<Label>, succs: seq<Label>, exit: Option<Label>)
    requires Settled(b, open)
    ensures Settled(AddBlock(b, preds, succs, exit), open + {b.nextLabel})
    ensures AddBlock(b, preds, succs, exit).nextLabel == b.nextLabel + 1
  {
  }

  lemma AddSuccsSettled(b: Build, open: set<Label>, l: Label, ls: seq<Label>)
    requires Settled(b, open)
    ensures Settled(AddSuccs(b, l, ls), open) && AddSuccs(b, l, ls).nextLabel == b.nextLabel
  {
  }

  lemma NewIfSettled(b: Build, cur: Label, open: set<Label>)
    requires Settled(b, open)
    ensures var n := b.nextLabel; Settled(NewIf(b, cur), open + {n} + {n + 1} + {n + 2})
  {
    hide Settled, AddBlock, AddSuccs, Build.LoopExit;
    var t, f, x := b.nextLabel, b.nextLabel + 1, b.nextLabel + 2;
    var b0 := AddSuccs(b, cur, [t, f]);
    var b1 := AddBlock(b0, [cur], [x], b.LoopExit(cur));
    AddSuccsSettled(b, open, cur, [t, f]);
    AddBlockSettled(b0, open, [cur], [x], b.LoopExit(cur));
    AddBlockSettled(b1, open + {t}, [cur], [x], b.LoopExit(cur));
    AddBlockSettled(AddBlock(b1, [cur], [x], b.LoopExit(cur)), open + {t} + {f}, [t, f], [], b.LoopExit(cur));
  }

  lemma NewForSettled(b: Build, cur: Label, open: set<Label>)
    requires Settled(b, open)
    ensures var n := b.nextLabel; Settled(NewFor(b, cur), open + {n} + {n + 1} + {n + 2})
  {
    hide Settled, AddBlock, AddSuccs, Build.LoopExit;
    var e, y, x := b.nextLabel, b.nextLabel + 1, b.nextLabel + 2;
    var b0 := AddSuccs(b, cur, [e]);
    var b1 := AddBlock(b0, [], [y, x], Some(x));
    AddSuccsSettled(b, open, cur, [e]);
    AddBlockSettled(b0, open, [], [y, x], Some(x));
    AddBlockSettled(b1, open + {e}, [e], [e], Some(x));
    AddBlockSettled(AddBlock(b1, [e], [e], Some(x)), open + {e} + {y}, [e], [], None);
  }

  lemma BranchSettled(b: Build, open: set<Label>, at: Label, cond: S.Expr, sc: S.Scope, t: Label, f: Label,
                      isLoop: bool)
    requires Settled(b, open) && at in open && at in b.code
    ensures Settled(Branch(b, at, cond, sc, t, f, isLoop), open - {at})
  {
    hide Settled, Expr, Test;
    var c := Test(Expr(cond, sc, b.nextReg), isLoop);
    ExprShape(cond, sc, b.nextReg);
    TestIsStraight(Expr(cond, sc, b.nextReg), isLoop);
    OnlyLast(c.ins, BrCond(c.opnd, t, f, EQ));
    AppendSettled(b, open, at, c.ins + [BrCond(c.opnd, t, f, EQ)], c.next);
  }

  lemma OnlyLast(ins: seq<Instr>, br: Instr)
    requires Straight(ins)
    ensures BrCondLast(ins + [br])
  {
    assert forall i :: 0 <= i < |ins| ==> (ins + [br])[i] == ins[i] && ins[i] in ins;
  }

  /** The other open blocks are older than anything to come, and not the current one. */
  ghost predicate Aside(open: set<Label>, cur: Label, b: Build) {
    forall l <- open :: l < b.nextLabel && l != cur
  }

  lemma StmSettled(s: S.Stm, cur: Label, b: Build, sc: S.Scope, open: set<Label>)
    requires b.Valid() && cur in b.code && Settled(b, open + {cur}) && Aside(open, cur, b)
    ensures var p := Stm(s, cur, b, sc); Settled(p.b, open + {p.cur})
    decreases s, 2
  {
    hide Settled, Build.Valid, Simple, Aside;
    if s.Conditional? {
      IfSettled(s, cur, b, sc, open);
    } else if s.Loop? {
      ForSettled(s, cur, b, sc, open);
    } else {
      var (ins, next) := Simple(s, sc, b.nextReg);
      SimpleHasNoBrCond(s, sc, b.nextReg);
      AppendSettled(b, open + {cur}, cur, ins, next);
    }
  }

  lemma StmsSettled(ss: seq<S.Stm>, cur: Label, b: Build, sc: S.Scope, open: set<Label>)
    requires b.Valid() && cur in b.code && Settled(b, open + {cur}) && Aside(open, cur, b)
    ensures var p := Stms(ss, cur, b, sc); Settled(p.b, open + {p.cur}) && Aside(open, p.cur, p.b)
    decreases ss, 0
  {
    hide Settled, Build.Valid, Grows;
    if ss != [] {
      var p := Stm(ss[0], cur, b, sc);
      StmSettled(ss[0], cur, b, sc, open);
      StmGrows(ss[0], cur, b, sc);
      GrowsKeys(b.nextLabel, cur, b, p.b);
      StmsSettled(ss[1..], p.cur, p.b, sc, open);
    }
  }

  lemma NestedSettled(ss: seq<S.Stm>, at: Label, b: Build, sc: S.Scope, x: Label, open: set<Label>)
    requires b.Valid() && at in b.code && Settled(b, open + {at}) && Aside(open, at, b)
    ensures Settled(Nested(ss, at, b, sc, x), open)
    decreases ss, 1
  {
    hide Settled, Build.Valid, Grows;
    var p := Stms(ss, at, b, sc);
    StmsSettled(ss, at, b, sc, open);
    StmsGrows(ss, at, b, sc);
    CloseSettled(p.b, open + {p.cur}, p.cur, x);
    assert open + {p.cur} - {p.cur} == open;
  }

  lemma IfSettled(s: S.Stm, cur: Label, b: Build, sc: S.Scope, open: set<Label>)
    requires s.Conditional? && b.Valid() && cur in b.code && Settled(b, open + {cur}) && Aside(open, cur, b)
    ensures var p := If(s, cur, b, sc); Settled(p.b, open + {p.cur})
    decreases s, 1
  {
    hide Settled, Build.Valid, NewIf, Branch, Build.Append;
    var t, f, x := b.nextLabel, b.nextLabel + 1, b.nextLabel + 2;
    var b0 := NewIf(b, cur);
    var b1 := Branch(b0, cur, s.cond, sc, t, f, false);
    var b2 := Nested(s.ifblock, t, b1, sc, x);
    BelowNext(b, cur);
    IfPieces(s, cur, b, sc);
    NewIfSettled(b, cur, open + {cur});
    BranchSettled(b0, open + {cur} + {t} + {f} + {x}, cur, s.cond, sc, t, f, false);
    assert open + {cur} + {t} + {f} + {x} - {cur} == open + {x} + {f} + {t};
    NestedSettled(s.ifblock, t, b1, sc, x, open + {x} + {f});
    if s.elseblock.Else? {
      NestedSettled(s.elseblock.stms, f, b2, sc, x, open + {x});
    } else {
      CloseSettled(b2, open + {x} + {f}, f, x);
      assert open + {x} + {f} - {f} == open + {x};
    }
  }

  lemma ForSettled(s: S.Stm, cur: Label, b: Build, sc: S.Scope, open: set<Label>)
    requires s.Loop? && b.Valid() && cur in b.code && Settled(b, open + {cur}) && Aside(open, cur, b)
    ensures var p := For(s, cur, b, sc); Settled(p.b, open + {p.cur})
    decreases s, 1
  {
    hide Settled, Build.Valid, NewFor, Branch, Build.Append;
    var e, y, x := b.nextLabel, b.nextLabel + 1, b.nextLabel + 2;
    var b0 := NewFor(b, cur);
    var b1 := b0.Append(cur, [Br(e)]);
    var b2 := Branch(b1, e, s.cond, sc, y, x, true);
    BelowNext(b, cur);
    ForPieces(s, cur, b, sc);
    NewForSettled(b, cur, open + {cur});
    CloseSettled(b0, open + {cur} + {e} + {y} + {x}, cur, e);
    assert open + {cur} + {e} + {y} + {x} - {cur} == open + {x} + {y} + {e};
    BranchSettled(b1, open + {x} + {y} + {e}, e, s.cond, sc, y, x, true);
    assert open + {x} + {y} + {e} - {e} == open + {x} + {y};
    NestedSettled(s.block, y, b2, sc, e, open + {x});
  }

  /** In every block of every function, also once cut off after its first terminator, a conditional branch comes
      last. */
  lemma FunctionBranchesLast(f: S.Function, sc: S.Scope, n: Label, r: nat)
    ensures var code := FunctionBody(f, sc, n, r).b.code;
      forall l <- code :: BrCondLast(code[l]) && BrCondLast(Truncate(code[l]))
  {
    hide Stms, StartFunction, Grows, Build.Valid, FirstExit;
    var b := StartFunction(f, n, r);
    StartSettled(f, n, r);
    StmsSettled(f.stms, n, b, sc, {});
    StmsGrows(f.stms, n, b, sc);
    var p := Stms(f.stms, n, b, sc);
    assert {} + {p.cur} == {p.cur};
    if f.ret.None? {
      AppendSettled(p.b, {p.cur}, p.cur, ReturnOf(Imm(0, I64), p.b.nextReg), p.b.nextReg + 1);
    }
    var code := FunctionBody(f, sc, n, r).b.code;
    assert Settled(FunctionBody(f, sc, n, r).b, {p.cur});
    forall l <- code ensures BrCondLast(code[l]) && BrCondLast(Truncate(code[l])) {
      if l == p.cur { NoBrCondIsLast(code[l]); }
      TruncateBranchLast(code[l]);
    }
  }

  lemma StartSettled(f: S.Function, n: Label, r: nat)
    ensures var b := StartFunction(f, n, r); b.Valid() && n in b.code && Settled(b, {} + {n})
  {
    hide Prologue;
    ParamsHaveNoBrCond(f.params);
    DeclsHaveNoBrCond(f.declarations);
    assert NoBrCond(Prologue(f)) by { PrologueNoBrCond(f); }
    var b := StartFunction(f, n, r);
    assert b.code[n] == [] + Prologue(f) == Prologue(f);
  }

  lemma PrologueNoBrCond(f: S.Function)
    requires NoBrCond(ParamInstrs(f.params)) && NoBrCond(DeclInstrs(f.declarations))
    ensures NoBrCond(Prologue(f))
  {
  }

  lemma TruncateBranchLast(ins: seq<Instr>)
    requires BrCondLast(ins)
    ensures BrCondLast(Truncate(ins))
  {
  }
}
