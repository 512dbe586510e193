/** Every conditional branch directly follows a select on an equivalent condition, so that the flags set for the
    select are the ones the branch needs. */
module FlagHandoff {
  import opened Words
  import opened Events
  import opened Ir
  import opened IrSemantics
  import opened Translation
  import opened Growth
  import opened ExprPreservation
  import opened Flow
  import opened Shape
  import opened Temps
  import S = Source

  /** The select turns a condition into 1 or 0 in a fresh place, and the branch tests the condition or the result. */
  predicate HandsOver(sel: Instr, br: Instr) {
    && sel.Select? && sel.val1 == Imm(1, I1) && sel.val2 == Imm(0, I1)
    && !sel.dest.Global? && (sel.cond.Reg? ==> sel.cond.entry != sel.dest)
    && br.BrCond? && br.cc == EQ && (br.cond == sel.cond || br.cond == Reg(sel.dest, I1))
  }

  predicate HandedOff(ins: seq<Instr>) {
    forall i :: 0 <= i < |ins| && ins[i].BrCond? ==> i > 0 && HandsOver(ins[i - 1], ins[i])
  }

  lemma HandedOffAppend(a: seq<Instr>, b: seq<Instr>)
    requires HandedOff(a) && HandedOff(b)
    ensures HandedOff(a + b)
  {
    forall i | 0 <= i < |a + b| && (a + b)[i].BrCond? ensures i > 0 && HandsOver((a + b)[i - 1], (a + b)[i]) {
      if i >= |a| { assert (a + b)[i] == b[i - |a|] && (a + b)[i - 1] == b[i - |a| - 1]; }
    }
  }

  predicate NoBrCond(ins: seq<Instr>) {
    forall i <- ins :: !i.BrCond?
  }

  lemma SimpleHasNoBrCond(s: S.Stm, sc: S.Scope, n: nat)
    requires !s.Conditional? && !s.Loop?
    ensures NoBrCond(Simple(s, sc, n).0)
  {
    hide Expr, Exprs;
    match s
    case Assignment(x, e) => ExprShape(e, sc, n);
    case Print(_, es) => ExprsShape(es, sc, n);
    case Invocation(_, es) => ExprsShape(es, sc, n);
    case Read(_) =>
    case Return(None) =>
    case Return(Some(e)) => ExprShape(e, sc, n);
  }

  /** The condition of a loop is tested as it is, that of a conditional through the select: either way the flags
      agree. */
  lemma BranchHandsOver(cond: S.Expr, sc: S.Scope, n: nat, t: Label, f: Label, isLoop: bool)
    ensures var c := Test(Expr(cond, sc, n), isLoop); HandedOff(c.ins + [BrCond(c.opnd, t, f, EQ)])
  {
    hide Expr;
    var e := Expr(cond, sc, n);
    ExprShape(cond, sc, n);
    TestIsStraight(e, isLoop);
    var c := Test(e, isLoop);
    LastHandsOver(c.ins, BrCond(c.opnd, t, f, EQ));
  }

  lemma LastHandsOver(ins: seq<Instr>, br: Instr)
    requires NoBrCond(ins) && ins != [] && HandsOver(ins[|ins| - 1], br)
    ensures HandedOff(ins + [br])
  {
    assert forall i :: 0 <= i < |ins| ==> (ins + [br])[i] == ins[i] && ins[i] in ins;
  }

  ghost predicate AllHandedOff(code: Code) {
    forall l <- code :: HandedOff(code[l])
  }

  lemma AppendHandedOff(b: Build, l: Label, ins: seq<Instr>, r: nat)
    requires AllHandedOff(b.code) && HandedOff(ins)
    ensures AllHandedOff(b.Append(l, ins).(nextReg := r).code)
  {
    hide HandedOff;
    HandedOffAppend(b.Code(l), ins) by { if l !in b.code { assert HandedOff([]) by { NothingHandedOff(); } } }
  }

  lemma NothingHandedOff()
    ensures HandedOff([])
  {
  }

  lemma NewBlocksHandedOff(b: Build, cur: Label)
    requires AllHandedOff(b.code)
    ensures AllHandedOff(NewIf(b, cur).code) && AllHandedOff(NewFor(b, cur).code)
  {
    hide HandedOff, NewIf, NewFor;
    NothingHandedOff();
    NewBlocksCode(b, cur);
  }

  lemma StmHandedOff(s: S.Stm, cur: Label, b: Build, sc: S.Scope)
    requires AllHandedOff(b.code)
    ensures AllHandedOff(Stm(s, cur, b, sc).b.code)
    decreases s, 2
  {
    hide AllHandedOff, NewIf, NewFor, Simple, Expr, Test;
    if s.Conditional? {
      IfHandedOff(s, cur, b, sc);
    } else if s.Loop? {
      ForHandedOff(s, cur, b, sc);
    } else {
      var (ins, next) := Simple(s, sc, b.nextReg);
      SimpleHasNoBrCond(s, sc, b.nextReg);
      AppendHandedOff(b, cur, ins, next);
    }
  }

  lemma StmsHandedOff(ss: seq<S.Stm>, cur: Label, b: Build, sc: S.Scope)
    requires AllHandedOff(b.code)
    ensures AllHandedOff(Stms(ss, cur, b, sc).b.code)
    decreases ss, 0
  {
    hide AllHandedOff;
    if ss != [] {
      var p := Stm(ss[0], cur, b, sc);
      StmHandedOff(ss[0], cur, b, sc);
      StmsHandedOff(ss[1..], p.cur, p.b, sc);
    }
  }

  lemma BrHandedOff(b: Build, l: Label, x: Label)
    requires AllHandedOff(b.code)
    ensures AllHandedOff(b.Append(l, [Br(x)]).code)
  {
    hide AllHandedOff;
    AppendHandedOff(b, l, [Br(x)], b.nextReg);
  }

  lemma NestedHandedOff(ss: seq<S.Stm>, at: Label, b: Build, sc: S.Scope, x: Label)
    requires AllHandedOff(b.code)
    ensures AllHandedOff(Nested(ss, at, b, sc, x).code)
    decreases ss, 1
  {
    hide AllHandedOff;
    var p := Stms(ss, at, b, sc);
    StmsHandedOff(ss, at, b, sc);
    BrHandedOff(p.b, p.cur, x);
  }

  lemma BranchHandedOff(b: Build, at: Label, cond: S.Expr, sc: S.Scope, t: Label, f: Label, isLoop: bool)
    requires AllHandedOff(b.code)
    ensures AllHandedOff(Branch(b, at, cond, sc, t, f, isLoop).code)
  {
    hide AllHandedOff, Expr, Test, HandedOff;
    var c := Test(Expr(cond, sc, b.nextReg), isLoop);
    BranchHandsOver(cond, sc, b.nextReg, t, f, isLoop);
    AppendHandedOff(b, at, c.ins + [BrCond(c.opnd, t, f, EQ)], c.next);
  }

  lemma IfHandedOff(s: S.Stm, cur: Label, b: Build, sc: S.Scope)
    requires s.Conditional? && AllHandedOff(b.code)
    ensures AllHandedOff(If(s, cur, b, sc).b.code)
    decreases s, 1
  {
    hide AllHandedOff, NewIf, Branch, Build.Append;
    var t, f, x := b.nextLabel, b.nextLabel + 1, b.nextLabel + 2;
    var b1 := Branch(NewIf(b, cur), cur, s.cond, sc, t, f, false);
    var b2 := Nested(s.ifblock, t, b1, sc, x);
    NewBlocksHandedOff(b, cur);
    BranchHandedOff(NewIf(b, cur), cur, s.cond, sc, t, f, false);
    NestedHandedOff(s.ifblock, t, b1, sc, x);
    if s.elseblock.Else? { NestedHandedOff(s.elseblock.stms, f, b2, sc, x); } else { BrHandedOff(b2, f, x); }
  }

  lemma ForHandedOff(s: S.Stm, cur: Label, b: Build, sc: S.Scope)
    requires s.Loop? && AllHandedOff(b.code)
    ensures AllHandedOff(For(s, cur, b, sc).b.code)
    decreases s, 1
  {
    hide AllHandedOff, NewFor, Branch, Build.Append;
    var e, y, x := b.nextLabel, b.nextLabel + 1, b.nextLabel + 2;
    var b1 := NewFor(b, cur).Append(cur, [Br(e)]);
    NewBlocksHandedOff(b, cur);
    BrHandedOff(NewFor(b, cur), cur, e);
    BranchHandedOff(b1, e, s.cond, sc, y, x, true);
    NestedHandedOff(s.block, y, Branch(b1, e, s.cond, sc, y, x, true), sc, e);
  }

  lemma {:induction false} ParamsHaveNoBrCond(ps: seq<(string, S.Type)>)
    ensures NoBrCond(ParamInstrs(ps))
  {
    if ps != [] { ParamsHaveNoBrCond(ps[1..]); }
  }

  lemma {:induction false} DeclsHaveNoBrCond(ds: seq<(string, S.Type)>)
    ensures NoBrCond(DeclInstrs(ds))
  {
    if ds != [] { DeclsHaveNoBrCond(ds[1..]); }
  }

  /** Every block of every function, also once it is cut off after its first terminator. */
  lemma FunctionHandsOff(f: S.Function, sc: S.Scope, n: Label, r: nat)
    ensures var code := FunctionBody(f, sc, n, r).b.code;
      forall l <- code :: HandedOff(code[l]) && HandedOff(Truncate(code[l]))
  {
    hide AllHandedOff, HandedOff, Stms;
    var b := StartFunction(f, n, r);
    assert AllHandedOff(b.code) by { StartHandsOff(f, n, r); }
    StmsHandedOff(f.stms, n, b, sc);
    var p := Stms(f.stms, n, b, sc);
    if f.ret.None? {
      var ret := ReturnOf(Imm(0, I64), p.b.nextReg);
      NoBrCondHandsOff(ret);
      AppendHandedOff(p.b, p.cur, ret, p.b.nextReg + 1);
    }
    var code := FunctionBody(f, sc, n, r).b.code;
    forall l <- code ensures HandedOff(code[l]) && HandedOff(Truncate(code[l])) {
      AllOfThem(code, l);
      TruncateHandsOff(code[l]);
    }
  }

  lemma AllOfThem(code: Code, l: Label)
    requires AllHandedOff(code) && l in code
    ensures HandedOff(code[l])
  {
  }

  lemma StartHandsOff(f: S.Function, n: Label, r: nat)
    ensures AllHandedOff(StartFunction(f, n, r).code)
  {
    hide HandedOff;
    ParamsHaveNoBrCond(f.params);
    DeclsHaveNoBrCond(f.declarations);
    assert NoBrCond(Prologue(f));
    NoBrCondHandsOff(Prologue(f));
    assert StartFunction(f, n, r).code == map[n := [] + Prologue(f)];
    assert [] + Prologue(f) == Prologue(f);
  }

  lemma NoBrCondHandsOff(ins: seq<Instr>)
    requires NoBrCond(ins)
    ensures HandedOff(ins)
  {
  }

  lemma TruncateHandsOff(ins: seq<Instr>)
    requires HandedOff(ins)
    ensures HandedOff(Truncate(ins))
  {
    hide FirstExit;
  }

  /** Executing the select, then looking at what the branch tests: it is 1 exactly when the select's condition was. */
  lemma BranchSeesCondition(sel: Instr, br: Instr, m: IrMem, w: World)
    requires HandsOver(sel, br) && m.Val(sel.cond).Some?
    ensures var m' := Exec(sel, m, w); m'.Some? && m'.value.Val(br.cond).Some?
    ensures Exec(sel, m, w).value.Val(br.cond) == Some(1) <==> m.Val(sel.cond) == Some(1)
  {
  }
}
