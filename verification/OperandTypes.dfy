/** The types operands carry: what the selects and truncations around logical operators and conditions are for. */
module OperandTypes {
  import opened Words
  import opened Ir
  import opened IrSemantics
  import opened Translation
  import opened EveryInstruction
  import S = Source

  /** Arithmetic never sees an i1 and bitwise operators only see i64; a select never tests an i64 and picks 1 or 0 of
      one type; only registers that are no i1 are truncated; a branch never tests an i64 register; what is returned is
      i64. */
  predicate TypesFit(i: Instr) {
    match i
    case BinOp(_, op, a, b) =>
      && a.Type() != I1 && b.Type() != I1
      && (op == AND || op == OR ==> a.Type() == I64 && b.Type() == I64)
    case Select(_, c, a, b) =>
      c.Type() != I64 && ((a == Imm(1, I1) && b == Imm(0, I1)) || (a == Imm(1, I64) && b == Imm(0, I64)))
    case Trunc(_, v) => v.Reg? && v.ty != I1
    case BrCond(c, _, _, _) => c.Reg? ==> c.ty != I64
    case Ret(v) => v.Type() == I64
    case _ => true
  }

  predicate AllTypesFit(ins: seq<Instr>) {
    forall i <- ins :: TypesFit(i)
  }

  /** Immediates are source literals, and an int is never held as an i1. */
  predicate OperandFits(op: Operand, t: Option<S.Type>) {
    (op.Imm? ==> op.immTy == IntTy || op.immTy == BoolTy) && (t == Some(S.IntType) ==> op.Type() != I1)
  }

  lemma CombineFits(op: S.Operator, a: Operand, b: Operand, n: nat)
    requires op.IsArithmetic() ==> a.Type() != I1 && b.Type() != I1
    ensures var c := Combine(op, a, b, n);
      AllTypesFit(c.ins) && c.opnd.Reg? && (!op.IsComparison() ==> c.opnd.ty == I64)
  {
  }

  lemma {:induction false} ExprFits(e: S.Expr, sc: S.Scope, n: nat)
    requires S.WellTyped(e, sc)
    ensures var c := Expr(e, sc, n); AllTypesFit(c.ins) && OperandFits(c.opnd, S.TypeOf(e, sc))
    decreases e, 1
  {
    match e
    case IntLit(_) =>
    case BoolLit(_) =>
    case Var(x) =>
    case Paren(e1) => ExprFits(e1, sc, n);
    case Neg(e1) => ExprFits(e1, sc, n);
    case Not(e1) => ExprFits(e1, sc, n);
    case Binary(first, ops, rest) =>
      ExprFits(first, sc, n);
      RestFits(Expr(first, sc, n), ops, rest, sc);
    case Invoke(f, args) => ExprsFit(args, sc, n);
  }

  lemma {:induction false} ExprsFit(es: seq<S.Expr>, sc: S.Scope, n: nat)
    requires S.WellTypedAll(es, sc)
    ensures AllTypesFit(Exprs(es, sc, n).ins)
    decreases es, 0
  {
    if es != [] {
      ExprFits(es[0], sc, n);
      ExprsFit(es[1..], sc, Expr(es[0], sc, n).next);
    }
  }

  lemma {:induction false} RestFits(sofar: Emitted, ops: seq<S.Operator>, rest: seq<S.Expr>, sc: S.Scope)
    requires AllTypesFit(sofar.ins) && (sofar.opnd.Imm? ==> sofar.opnd.immTy == IntTy || sofar.opnd.immTy == BoolTy)
    requires ops != [] && ops[0].IsArithmetic() ==> sofar.opnd.Type() != I1
    requires S.WellTypedAll(rest, sc) && |ops| == |rest| && S.OneLevel(ops)
    requires forall i :: 0 <= i < |ops| ==> S.TypeOf(rest[i], sc) == Some(ops[i].OperandType())
    ensures var c := Rest(sofar, ops, rest, sc);
      && AllTypesFit(c.ins) && (ops == [] ==> c.opnd == sofar.opnd)
      && (ops != [] ==> c.opnd.Reg? && (ops[0].IsArithmetic() ==> c.opnd.ty == I64))
    decreases rest, 0
  {
    if rest != [] && ops != [] {
      var r := Expr(rest[0], sc, sofar.next);
      ExprFits(rest[0], sc, sofar.next);
      var c := Combine(ops[0], sofar.opnd, r.opnd, r.next);
      CombineFits(ops[0], sofar.opnd, r.opnd, r.next);
      forall i | 0 <= i < |ops[1..]| ensures S.TypeOf(rest[1..][i], sc) == Some(ops[1..][i].OperandType()) {
        assert rest[1..][i] == rest[i + 1] && ops[1..][i] == ops[i + 1];
      }
      if |ops| > 1 { assert ops[1].IsArithmetic() == ops[0].IsArithmetic(); }
      RestFits(Emitted(sofar.ins + r.ins + c.ins, c.opnd, c.next), ops[1..], rest[1..], sc);
    }
  }

  lemma SimpleFits(s: S.Stm, sc: S.Scope, ret: Option<S.Type>, n: nat)
    requires !s.Conditional? && !s.Loop? && S.WellTypedStm(s, sc, ret)
    ensures AllTypesFit(Simple(s, sc, n).0)
  {
    hide Expr, Exprs;
    match s
    case Assignment(_, e) => ExprFits(e, sc, n);
    case Print(_, es) => ExprsFit(es, sc, n);
    case Read(_) =>
    case Invocation(_, es) => ExprsFit(es, sc, n);
    case Return(None) =>
    case Return(Some(e)) => ExprFits(e, sc, n);
  }

  /** Before a branch: the select of a conditional tests an i1 or a literal, and the branch tests its i1 result. */
  lemma TestedFits(cond: S.Expr, sc: S.Scope, n: nat, t: Label, f: Label, isLoop: bool)
    requires S.WellTyped(cond, sc)
    ensures AllTypesFit(Tested(cond, sc, n, t, f, isLoop))
    ensures var code := Tested(cond, sc, n, t, f, isLoop); var k := |code|;
      && k > 1 && code[k - 2].Select? && code[k - 1].BrCond?
      && (!isLoop ==> (code[k - 2].cond.Reg? ==> code[k - 2].cond.ty == I1)
                      && code[k - 1].cond.Reg? && code[k - 1].cond == Reg(code[k - 2].dest, I1))
  {
    hide Expr;
    ExprFits(cond, sc, n);
  }

  lemma FitsAdmitted(sc: S.Scope, ret: Option<S.Type>) returns (p: Property)
    ensures forall l, i :: p(l, i) <==> TypesFit(i)
    ensures Admits(p, sc, ret)
  {
    hide TypesFit, Simple, Tested, Expr, S.WellTyped;
    p := (l, i) => TypesFit(i);
    forall l, s, n ensures SimpleHas(p, l, s, sc, ret, n) {
      if !s.Conditional? && !s.Loop? && S.WellTypedStm(s, sc, ret) { SimpleFits(s, sc, ret, n); }
    }
    forall l, c, n, t, f, isLoop ensures TestedHas(p, l, c, sc, n, t, f, isLoop) {
      if S.WellTyped(c, sc) { TestedFits(c, sc, n, t, f, isLoop); }
    }
    forall l, x ensures p(l, Br(x)) { BrFits(x); }
  }

  lemma BrFits(x: Label)
    ensures TypesFit(Br(x))
  {
  }

  /** In every function, every operand has a type its instruction can take. */
  lemma FunctionTypesFit(f: S.Function, sc: S.Scope, n: Label, r: nat, l: Label, k: nat)
    requires S.WellTypedStms(f.stms, sc, f.ret)
    requires var code := FunctionBody(f, sc, n, r).b.code; l in code && k < |code[l]|
    ensures TypesFit(FunctionBody(f, sc, n, r).b.code[l][k])
  {
    hide Prologue, FunctionBody, S.WellTypedStms;
    var p := FitsAdmitted(sc, f.ret);
    FunctionEverywhere(p, f, sc, n, r);
    var b := FunctionBody(f, sc, n, r).b;
    EverywhereIs(p, b, n, |Prologue(f)|);
    if l == n && k < |Prologue(f)| {
      assert b.code[n][k] == Prologue(f)[k];
      PrologueFits(f, k);
    } else {
      assert p(l, b.code[l][k]);
    }
  }

  lemma {:induction false} ParamsFit(ps: seq<(string, S.Type)>)
    ensures AllTypesFit(ParamInstrs(ps))
  {
    if ps != [] { ParamsFit(ps[1..]); }
  }

  lemma {:induction false} DeclsFit(ds: seq<(string, S.Type)>)
    ensures AllTypesFit(DeclInstrs(ds))
  {
    if ds != [] { DeclsFit(ds[1..]); }
  }

  lemma PrologueFits(f: S.Function, k: nat)
    requires k < |Prologue(f)|
    ensures TypesFit(Prologue(f)[k])
  {
    ParamsFit(f.params);
    DeclsFit(f.declarations);
    assert Prologue(f)[k] in Prologue(f);
  }
}
