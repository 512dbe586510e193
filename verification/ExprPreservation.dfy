/** The instructions emitted for an expression compute its value, its effects and nothing else. */
module ExprPreservation {
  import opened Words
  import opened Events
  import opened Ir
  import opened IrSemantics
  import opened Translation
  import S = Source

  /** Every parameter is a local of the function. */
  ghost predicate GoodScope(sc: S.Scope) {
    forall x <- sc.params :: x in sc.locals
  }

  /** Source and IR memory agree: same globals and events, and each local is set in both or in neither, to the same
      value. */
  ghost predicate Related(m: S.Memory, im: IrMem, sc: S.Scope) {
    && m.globals == im.globals && m.log == im.log
    && forall x <- sc.locals ::
         && (x in m.locals <==> Resolve(x, sc) in im.vars)
         && (x in m.locals ==> im.vars[Resolve(x, sc)] == m.locals[x])
  }

  ghost predicate TypedGlobals(g: Globals, sc: S.Scope) {
    forall x <- sc.globals :: sc.globals[x] == S.BoolType && x in g ==> IsBit(g[x])
  }

  /** A variable of type bool holds 0 or 1. */
  ghost predicate Typed(m: S.Memory, sc: S.Scope) {
    && TypedGlobals(m.globals, sc)
    && forall x <- sc.locals :: sc.locals[x] == S.BoolType && x in m.locals ==> IsBit(m.locals[x])
  }

  /** Calls respect the declared types. */
  ghost predicate TypedWorld(w: World, sc: S.Scope) {
    forall f, vs, log, g :: f in sc.funcs && TypedGlobals(g, sc) ==>
      && TypedGlobals(w.call(f, vs, log, g).1, sc)
      && (sc.funcs[f].ret == Some(S.BoolType) ==> IsBit(w.call(f, vs, log, g).0))
  }

  /** Only temporaries numbered n or more differ. */
  ghost predicate Keeps(n: nat, im: IrMem, im': IrMem) {
    forall e: Entry :: (e.Temp? ==> e.n < n) ==>
      && (e in im.vars <==> e in im'.vars)
      && (e in im.vars ==> im.vars[e] == im'.vars[e])
  }

  lemma KeepsTrans(n: nat, k: nat, a: IrMem, b: IrMem, c: IrMem)
    requires Keeps(n, a, b) && Keeps(k, b, c) && n <= k
    ensures Keeps(n, a, c)
  {
  }

  /** An operand that later instructions cannot overwrite: an immediate or a temporary below n. */
  predicate Below(op: Operand, n: nat) {
    op.Reg? ==> op.entry.Temp? && op.entry.n < n
  }

  lemma KeepsVal(op: Operand, n: nat, im: IrMem, im': IrMem)
    requires Below(op, n) && Keeps(n, im, im')
    ensures im'.Val(op) == im.Val(op)
  {
  }

  ghost predicate ValueFits(v: int, t: Option<S.Type>) {
    t == Some(S.BoolType) ==> IsBit(v)
  }

  /** Executing ins from im ends as the source evaluation does: with related memory and the operand
      holding the value, or with no result at all. */
  ghost predicate Computes(ev: S.Evaluation<int>, em: Emitted, n: nat, im: IrMem, t: Option<S.Type>, sc: S.Scope,
                           w: World) {
    && Straight(em.ins) && n <= em.next && Below(em.opnd, em.next)
    && match ev
       case Stuck => ExecAll(em.ins, im, w) == None
       case Value(v, m) =>
         match ExecAll(em.ins, im, w)
         case None => false
         case Some(im') =>
           && im'.Val(em.opnd) == Some(v) && ValueFits(v, t)
           && Related(m, im', sc) && Typed(m, sc) && Keeps(n, im, im')
  }

  ghost predicate ComputesAll(ev: S.Evaluation<seq<int>>, em: EmittedAll, n: nat, im: IrMem, sc: S.Scope, w: World) {
    && Straight(em.ins) && n <= em.next && (forall op <- em.opnds :: Below(op, em.next))
    && match ev
       case Stuck => ExecAll(em.ins, im, w) == None
       case Value(vs, m) =>
         match ExecAll(em.ins, im, w)
         case None => false
         case Some(im') =>
           && im'.Vals(em.opnds) == Some(vs)
           && Related(m, im', sc) && Typed(m, sc) && Keeps(n, im, im')
  }

  ghost predicate Ready(m: S.Memory, im: IrMem, sc: S.Scope, w: World) {
    GoodScope(sc) && TypedWorld(w, sc) && Related(m, im, sc) && Typed(m, sc)
  }

  lemma GetAgrees(x: string, m: S.Memory, im: IrMem, sc: S.Scope)
    requires GoodScope(sc) && Related(m, im, sc)
    ensures im.Get(Resolve(x, sc)) == m.Get(x, sc)
  {
  }

  lemma TempWriteKeeps(n: nat, k: nat, v: int, m: S.Memory, im: IrMem, sc: S.Scope)
    requires n <= k && Related(m, im, sc) && GoodScope(sc)
    ensures Keeps(n, im, im.Set(Temp(k), v)) && Related(m, im.Set(Temp(k), v), sc)
    ensures im.Set(Temp(k), v).Get(Temp(k)) == Some(v)
  {
  }

  lemma ExecOne(i: Instr, im: IrMem, w: World)
    requires !i.IsTerminator()
    ensures Straight([i]) && ExecAll([i], im, w) == Exec(i, im, w)
  {
    if Exec(i, im, w).Some? {
      assert [i][1..] == [];
    }
  }

  /** Appending one instruction that writes the next temporary. */
  lemma ThenOne(ev: S.Evaluation<int>, em: Emitted, n: nat, m: S.Memory, im: IrMem, t: Option<S.Type>, sc: S.Scope,
                w: World, i: Instr, ev': S.Evaluation<int>, opTy: Ty, t': Option<S.Type>)
    requires Computes(ev, em, n, im, t, sc, w) && Ready(m, im, sc, w) && !i.IsTerminator()
    requires ev.Stuck? ==> ev'.Stuck?
    requires ev.Value? ==> ev'.Value? && ev'.mem == ev.mem && ValueFits(ev'.value, t')
    requires ev.Value? ==>
               forall a: IrMem :: a.Val(em.opnd) == Some(ev.value) ==>
                   Exec(i, a, w) == Some(a.Set(Temp(em.next), ev'.value))
    ensures Computes(ev', Emitted(em.ins + [i], Reg(Temp(em.next), opTy), em.next + 1), n, im, t', sc, w)
  {
    ExecOne(i, im, w);
    ExecAllAppend(em.ins, [i], im, w);
    match ev
    case Stuck =>
    case Value(v, m1) =>
      var a := ExecAll(em.ins, im, w).value;
      ExecOne(i, a, w);
      TempWriteKeeps(n, em.next, ev'.value, m1, a, sc);
      KeepsTrans(n, n, im, a, a.Set(Temp(em.next), ev'.value));
  }

  lemma CombineArithmetic(op: S.Operator, a: Operand, b: Operand, n: nat, x: int, y: int, im: IrMem, w: World)
    requires op.IsArithmetic() && im.Val(a) == Some(x) && im.Val(b) == Some(y)
    ensures Straight(Combine(op, a, b, n).ins)
    ensures ExecAll(Combine(op, a, b, n).ins, im, w) ==
            match S.Apply(op, x, y) case None => None case Some(v) => Some(im.Set(Temp(n), v))
  {
    ExecOne(BinOp(Temp(n), BinOpOf(op), a, b), im, w);
  }

  lemma CombineComparison(op: S.Operator, a: Operand, b: Operand, n: nat, x: int, y: int, im: IrMem, w: World)
    requires op.IsComparison() && im.Val(a) == Some(x) && im.Val(b) == Some(y)
    ensures Straight(Combine(op, a, b, n).ins)
    ensures ExecAll(Combine(op, a, b, n).ins, im, w) == Some(im.Set(Temp(n), S.Apply(op, x, y).value))
  {
    ExecOne(ICmp(Temp(n), CondOf(op), a, b), im, w);
  }

  /** Widening a truth value to i64 leaves it the same number, and disturbs no other operand. */
  lemma WidenComputes(v: Operand, k: nat, n: nat, x: int, im: IrMem, w: World) returns (im': IrMem)
    requires im.Val(v) == Some(x) && IsBit(x) && n <= k && Below(v, n)
    ensures Straight(Widen(v, k).0) && ExecAll(Widen(v, k).0, im, w) == Some(im')
    ensures im'.Val(Widen(v, k).1) == Some(x) && Below(Widen(v, k).1, k + 1)
    ensures Keeps(k, im, im') && im'.globals == im.globals && im'.log == im.log
  {
    if v.Type() == I64 {
      im' := im;
    } else {
      im' := im.Set(Temp(k), x);
      ExecOne(Widen(v, k).0[0], im, w);
    }
  }

  lemma LogicalOp(op: S.Operator, a: Operand, b: Operand, dest: Entry, x: int, y: int, im: IrMem, w: World)
    requires op.IsBoolOp() && im.Val(a) == Some(x) && im.Val(b) == Some(y) && IsBit(x) && IsBit(y)
    ensures S.Apply(op, x, y).Some?
    ensures Straight([BinOp(dest, BinOpOf(op), a, b)])
    ensures ExecAll([BinOp(dest, BinOpOf(op), a, b)], im, w) == Some(im.Set(dest, S.Apply(op, x, y).value))
  {
    hide BitAnd, BitOr;
    BitOpsOnTruthValues(63, x, y);
    ExecOne(BinOp(dest, BinOpOf(op), a, b), im, w);
  }

  lemma ExecThree(one: seq<Instr>, two: seq<Instr>, three: seq<Instr>, im: IrMem, im1: IrMem, im2: IrMem, im3: IrMem,
                  w: World)
    requires Straight(one) && Straight(two) && Straight(three)
    requires ExecAll(one, im, w) == Some(im1) && ExecAll(two, im1, w) == Some(im2)
    requires ExecAll(three, im2, w) == Some(im3)
    ensures Straight(one + two + three) && ExecAll(one + two + three, im, w) == Some(im3)
  {
    ExecAllAppend(one, two, im, w);
    ExecAllAppend(one + two, three, im, w);
  }

  lemma CombineBoolOp(op: S.Operator, a: Operand, b: Operand, n: nat, x: int, y: int, im: IrMem, w: World)
    returns (im': IrMem)
    requires op.IsBoolOp() && im.Val(a) == Some(x) && im.Val(b) == Some(y) && IsBit(x) && IsBit(y)
    requires Below(a, n) && Below(b, n)
    ensures Straight(Combine(op, a, b, n).ins) && ExecAll(Combine(op, a, b, n).ins, im, w) == Some(im')
    ensures im'.Val(Combine(op, a, b, n).opnd) == S.Apply(op, x, y)
    ensures Keeps(n, im, im') && im'.globals == im.globals && im'.log == im.log
  {
    hide Exec, ExecAll, Widen, S.Apply;
    var im1 := WidenComputes(a, n, n, x, im, w);
    KeepsVal(b, n, im, im1);
    var im2 := WidenComputes(b, n + 1, n, y, im1, w);
    var (insA, a') := Widen(a, n);
    var (insB, b') := Widen(b, n + 1);
    KeepsVal(a', n + 1, im1, im2);
    var dest := Combine(op, a, b, n).opnd.entry;
    LogicalOp(op, a', b', dest, x, y, im2, w);
    im' := im2.Set(dest, S.Apply(op, x, y).value);
    ExecThree(insA, insB, [BinOp(dest, BinOpOf(op), a', b')], im, im1, im2, im', w);
    KeepsTrans(n, n + 1, im, im1, im2);
  }

  lemma {:induction false} RestSplits(sofar: Emitted, ops: seq<S.Operator>, rest: seq<S.Expr>, sc: S.Scope)
    ensures var tail := Rest(Emitted([], sofar.opnd, sofar.next), ops, rest, sc);
      Rest(sofar, ops, rest, sc) == Emitted(sofar.ins + tail.ins, tail.opnd, tail.next)
    decreases rest
  {
    if rest != [] && ops != [] {
      var r := Expr(rest[0], sc, sofar.next);
      var c := Combine(ops[0], sofar.opnd, r.opnd, r.next);
      RestSplits(Emitted(sofar.ins + r.ins + c.ins, c.opnd, c.next), ops[1..], rest[1..], sc);
      RestSplits(Emitted(r.ins + c.ins, c.opnd, c.next), ops[1..], rest[1..], sc);
      assert [] + r.ins + c.ins == r.ins + c.ins;
      var tail := Rest(Emitted([], c.opnd, c.next), ops[1..], rest[1..], sc);
      assert sofar.ins + r.ins + c.ins + tail.ins == sofar.ins + (r.ins + c.ins + tail.ins);
    } else {
      assert sofar.ins + [] == sofar.ins;
    }
  }

  /** Any operator applied to two operands already computed. */
  lemma CombineComputes(op: S.Operator, a: Operand, b: Operand, n: nat, x: int, y: int, m: S.Memory, im: IrMem,
                        sc: S.Scope, w: World)
    requires im.Val(a) == Some(x) && im.Val(b) == Some(y) && Below(a, n) && Below(b, n)
    requires op.IsBoolOp() ==> IsBit(x) && IsBit(y)
    requires Ready(m, im, sc, w)
    ensures Computes(match S.Apply(op, x, y) case None => S.Stuck case Some(v) => S.Value(v, m),
                     Combine(op, a, b, n), n, im, Some(op.ResultType()), sc, w)
  {
    if op.IsArithmetic() {
      CombineArithmetic(op, a, b, n, x, y, im, w);
      if S.Apply(op, x, y).Some? { TempWriteKeeps(n, n, S.Apply(op, x, y).value, m, im, sc); }
    } else if op.IsComparison() {
      CombineComparison(op, a, b, n, x, y, im, w);
      TempWriteKeeps(n, n, S.Apply(op, x, y).value, m, im, sc);
    } else {
      var im' := CombineBoolOp(op, a, b, n, x, y, im, w);
      KeepsRelated(n, m, im, im', sc);
    }
  }

  lemma KeepsRelated(n: nat, m: S.Memory, im: IrMem, im': IrMem, sc: S.Scope)
    requires Related(m, im, sc) && GoodScope(sc) && Keeps(n, im, im') && im'.globals == im.globals && im'.log == im.log
    ensures Related(m, im', sc)
  {
  }

  /** One computation after another, the second from wherever the first one ends. */
  lemma Then(ev: S.Evaluation<int>, em: Emitted, n: nat, im: IrMem, t: Option<S.Type>, sc: S.Scope, w: World,
             ev': S.Evaluation<int>, em': Emitted, t': Option<S.Type>)
    requires Computes(ev, em, n, im, t, sc, w)
    requires Straight(em'.ins) && em.next <= em'.next && Below(em'.opnd, em'.next)
    requires ev.Stuck? ==> ev'.Stuck?
    requires ev.Value? ==> Computes(ev', em', em.next, ExecAll(em.ins, im, w).value, t', sc, w)
    ensures Computes(ev', Emitted(em.ins + em'.ins, em'.opnd, em'.next), n, im, t', sc, w)
  {
    ExecAllAppend(em.ins, em'.ins, im, w);
    if ev.Value? && ev'.Value? {
      var a := ExecAll(em.ins, im, w).value;
      KeepsTrans(n, em.next, im, a, ExecAll(em'.ins, a, w).value);
    }
  }

  lemma CombineShape(op: S.Operator, a: Operand, b: Operand, n: nat)
    ensures Straight(Combine(op, a, b, n).ins) && n <= Combine(op, a, b, n).next
    ensures Below(Combine(op, a, b, n).opnd, Combine(op, a, b, n).next)
  {
  }

  lemma ExprShape(e: S.Expr, sc: S.Scope, n: nat)
    ensures Straight(Expr(e, sc, n).ins) && n <= Expr(e, sc, n).next && Below(Expr(e, sc, n).opnd, Expr(e, sc, n).next)
    decreases e, 1
  {
    match e
    case Paren(e1) => ExprShape(e1, sc, n);
    case Neg(e1) => ExprShape(e1, sc, n);
    case Not(e1) => ExprShape(e1, sc, n);
    case Binary(first, ops, rest) =>
      ExprShape(first, sc, n);
      RestShape(Expr(first, sc, n), ops, rest, sc);
    case Invoke(f, args) => ExprsShape(args, sc, n);
    case _ =>
  }

  lemma ExprsShape(es: seq<S.Expr>, sc: S.Scope, n: nat)
    ensures Straight(Exprs(es, sc, n).ins) && n <= Exprs(es, sc, n).next
    ensures forall op <- Exprs(es, sc, n).opnds :: Below(op, Exprs(es, sc, n).next)
    decreases es, 0
  {
    if es != [] {
      ExprShape(es[0], sc, n);
      ExprsShape(es[1..], sc, Expr(es[0], sc, n).next);
    }
  }

  lemma RestShape(sofar: Emitted, ops: seq<S.Operator>, rest: seq<S.Expr>, sc: S.Scope)
    requires Straight(sofar.ins) && Below(sofar.opnd, sofar.next)
    ensures var r := Rest(sofar, ops, rest, sc); Straight(r.ins) && sofar.next <= r.next && Below(r.opnd, r.next)
    decreases rest, 0
  {
    if rest != [] && ops != [] {
      var r := Expr(rest[0], sc, sofar.next);
      ExprShape(rest[0], sc, sofar.next);
      CombineShape(ops[0], sofar.opnd, r.opnd, r.next);
      var c := Combine(ops[0], sofar.opnd, r.opnd, r.next);
      RestShape(Emitted(sofar.ins + r.ins + c.ins, c.opnd, c.next), ops[1..], rest[1..], sc);
    }
  }

  /** The translation of a well-typed expression computes it. */
  lemma {:induction false} ExprComputes(e: S.Expr, m: S.Memory, im: IrMem, sc: S.Scope, w: World, n: nat)
    requires S.WellTyped(e, sc) && Ready(m, im, sc, w)
    ensures Computes(S.Eval(e, m, sc, w), Expr(e, sc, n), n, im, S.TypeOf(e, sc), sc, w)
    decreases e, 1
  {
    match e
    case IntLit(_) =>
    case BoolLit(_) =>
    case Var(x) => VarComputes(x, m, im, sc, w, n);
    case Paren(e1) => ExprComputes(e1, m, im, sc, w, n);
    case Neg(e1) =>
      ExprComputes(e1, m, im, sc, w, n);
      var r := Expr(e1, sc, n);
      ThenOne(S.Eval(e1, m, sc, w), r, n, m, im, S.TypeOf(e1, sc), sc, w,
              BinOp(Temp(r.next), MUL, Imm(-1, I64), r.opnd), S.Eval(e, m, sc, w), I64, S.TypeOf(e, sc));
    case Not(e1) =>
      ExprComputes(e1, m, im, sc, w, n);
      var r := Expr(e1, sc, n);
      ThenOne(S.Eval(e1, m, sc, w), r, n, m, im, S.TypeOf(e1, sc), sc, w,
              ICmp(Temp(r.next), EQ, r.opnd, Imm(0, if r.opnd.Reg? then r.opnd.ty else UnknownTy)),
              S.Eval(e, m, sc, w), I1, S.TypeOf(e, sc));
    case Binary(first, ops, rest) =>
      BinaryComputes(first, ops, rest, m, im, sc, w, n);
    case Invoke(f, args) =>
      ExprsCompute(args, m, im, sc, w, n);
      InvokeComputes(f, args, m, im, sc, w, n);
  }

  lemma VarComputes(x: string, m: S.Memory, im: IrMem, sc: S.Scope, w: World, n: nat)
    requires sc.Declared(x) && Ready(m, im, sc, w)
    ensures Computes(S.Eval(S.Var(x), m, sc, w), Expr(S.Var(x), sc, n), n, im, S.TypeOf(S.Var(x), sc), sc, w)
  {
    GetAgrees(x, m, im, sc);
    ExecOne(Load(Temp(n), Resolve(x, sc)), im, w);
    if m.Get(x, sc).Some? {
      TempWriteKeeps(n, n, m.Get(x, sc).value, m, im, sc);
    }
  }

  lemma {:induction false} BinaryComputes(first: S.Expr, ops: seq<S.Operator>, rest: seq<S.Expr>,
                                          m: S.Memory, im: IrMem, sc: S.Scope, w: World, n: nat)
    requires S.WellTyped(S.Binary(first, ops, rest), sc) && Ready(m, im, sc, w)
    ensures var e := S.Binary(first, ops, rest);
      Computes(S.Eval(e, m, sc, w), Expr(e, sc, n), n, im, S.TypeOf(e, sc), sc, w)
    decreases S.Binary(first, ops, rest), 0
  {
    var e := S.Binary(first, ops, rest);
    ExprComputes(first, m, im, sc, w, n);
    var r := Expr(first, sc, n);
    var tail := Rest(Emitted([], r.opnd, r.next), ops, rest, sc);
    RestSplits(r, ops, rest, sc);
    RestShape(Emitted([], r.opnd, r.next), ops, rest, sc);
    match S.Eval(first, m, sc, w) {
      case Stuck =>
      case Value(v, m1) =>
        RestComputes(v, r.opnd, r.next, ops, rest, m1, ExecAll(r.ins, im, w).value, sc, w, S.TypeOf(first, sc));
    }
    Then(S.Eval(first, m, sc, w), r, n, im, S.TypeOf(first, sc), sc, w, S.Eval(e, m, sc, w), tail, S.TypeOf(e, sc));
  }

  /** The accumulator after one more operator. */
  ghost function Applied(op: S.Operator, acc: int, ev: S.Evaluation<int>): S.Evaluation<int> {
    match ev
    case Stuck => S.Stuck
    case Value(y, m) => match S.Apply(op, acc, y) case None => S.Stuck case Some(v) => S.Value(v, m)
  }

  lemma AppliedComputes(op: S.Operator, acc: int, opnd: Operand, n: nat, ev: S.Evaluation<int>, r: Emitted,
                        im: IrMem, sc: S.Scope, w: World)
    requires Computes(ev, r, n, im, Some(op.OperandType()), sc, w) && GoodScope(sc) && TypedWorld(w, sc)
    requires im.Val(opnd) == Some(acc) && Below(opnd, n) && (op.IsBoolOp() ==> IsBit(acc))
    ensures var c := Combine(op, opnd, r.opnd, r.next);
      Computes(Applied(op, acc, ev), Emitted(r.ins + c.ins, c.opnd, c.next), n, im, Some(op.ResultType()), sc, w)
  {
    var c := Combine(op, opnd, r.opnd, r.next);
    CombineShape(op, opnd, r.opnd, r.next);
    if ev.Value? {
      var a := ExecAll(r.ins, im, w).value;
      KeepsVal(opnd, n, im, a);
      CombineComputes(op, opnd, r.opnd, r.next, acc, ev.value, ev.mem, a, sc, w);
    }
    Then(ev, r, n, im, Some(op.OperandType()), sc, w, Applied(op, acc, ev), c, Some(op.ResultType()));
  }

  lemma {:induction false} RestComputes(acc: int, opnd: Operand, n: nat, ops: seq<S.Operator>, rest: seq<S.Expr>,
                                        m: S.Memory, im: IrMem, sc: S.Scope, w: World, t: Option<S.Type>)
    requires S.WellTypedAll(rest, sc) && |ops| == |rest| && S.OneLevel(ops)
    requires forall i :: 0 <= i < |ops| ==> S.TypeOf(rest[i], sc) == Some(ops[i].OperandType())
    requires Ready(m, im, sc, w) && im.Val(opnd) == Some(acc) && Below(opnd, n) && ValueFits(acc, t)
    requires ops != [] && ops[0].IsBoolOp() ==> IsBit(acc)
    ensures Computes(S.EvalRest(acc, ops, rest, m, sc, w), Rest(Emitted([], opnd, n), ops, rest, sc), n, im,
                     if ops == [] then t else Some(ops[0].ResultType()), sc, w)
    decreases rest, 0
  {
    hide Combine, Exec, Related, Typed, TypedWorld, S.Apply, Below;
    KeepsTrans(n, n, im, im, im);
    if ops != [] {
      hide Keeps;
      var op := ops[0];
      var ev := S.Eval(rest[0], m, sc, w);
      var r := Expr(rest[0], sc, n);
      ExprComputes(rest[0], m, im, sc, w, n);
      AppliedComputes(op, acc, opnd, n, ev, r, im, sc, w);
      var applied := Applied(op, acc, ev);
      var c := Combine(op, opnd, r.opnd, r.next);
      var step := Emitted(r.ins + c.ins, c.opnd, c.next);
      var tail := Rest(Emitted([], c.opnd, c.next), ops[1..], rest[1..], sc);
      if applied.Value? {
        var a := ExecAll(step.ins, im, w).value;
        RestComputes(applied.value, c.opnd, c.next, ops[1..], rest[1..], applied.mem, a, sc, w, Some(op.ResultType()));
      }
      RestShape(Emitted([], c.opnd, c.next), ops[1..], rest[1..], sc);
      Then(applied, step, n, im, Some(op.ResultType()), sc, w, S.EvalRest(acc, ops, rest, m, sc, w), tail,
           Some(op.ResultType()));
      RestSplits(step, ops[1..], rest[1..], sc);
      assert [] + r.ins + c.ins == step.ins;
    }
  }

  lemma {:induction false} ExprsCompute(es: seq<S.Expr>, m: S.Memory, im: IrMem, sc: S.Scope, w: World, n: nat)
    requires S.WellTypedAll(es, sc) && Ready(m, im, sc, w)
    ensures ComputesAll(S.EvalAll(es, m, sc, w), Exprs(es, sc, n), n, im, sc, w)
    decreases es, 0
  {
    if es != [] {
      var r := Expr(es[0], sc, n);
      var rs := Exprs(es[1..], sc, r.next);
      ExprComputes(es[0], m, im, sc, w, n);
      ExprsShape(es, sc, n);
      ExprsShape(es[1..], sc, r.next);
      ExecAllAppend(r.ins, rs.ins, im, w);
      match S.Eval(es[0], m, sc, w) {
        case Stuck =>
        case Value(v, m1) =>
          var a := ExecAll(r.ins, im, w).value;
          ExprsCompute(es[1..], m1, a, sc, w, r.next);
          if S.EvalAll(es[1..], m1, sc, w).Value? {
            var b := ExecAll(rs.ins, a, w).value;
            KeepsVal(r.opnd, r.next, a, b);
            KeepsTrans(n, r.next, im, a, b);
          }
      }
    }
  }

  lemma InvokeComputes(f: string, args: seq<S.Expr>, m: S.Memory, im: IrMem, sc: S.Scope, w: World, n: nat)
    requires S.WellTyped(S.Invoke(f, args), sc) && Ready(m, im, sc, w)
    requires ComputesAll(S.EvalAll(args, m, sc, w), Exprs(args, sc, n), n, im, sc, w)
    ensures var e := S.Invoke(f, args); Computes(S.Eval(e, m, sc, w), Expr(e, sc, n), n, im, S.TypeOf(e, sc), sc, w)
  {
    var r := Exprs(args, sc, n);
    var call := CallAssign(Temp(r.next), f, r.opnds);
    ExecAllAppend(r.ins, [call], im, w);
    match S.EvalAll(args, m, sc, w) {
      case Stuck =>
      case Value(vs, m1) =>
        var a := ExecAll(r.ins, im, w).value;
        ExecOne(call, a, w);
        var (v, globals) := w.call(f, vs, a.log, a.globals);
        var m2 := S.DoCall(f, vs, m1, w).mem;
        var b := a.(globals := globals, log := a.log + [Called(f, vs)]);
        assert Related(m2, b, sc);
        TempWriteKeeps(n, r.next, v, m2, b, sc);
        KeepsTrans(n, n, im, a, b.Set(Temp(r.next), v));
    }
  }
}
