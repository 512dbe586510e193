/** Translation of expressions and statements to basic blocks, as a function of the counters and the graph so far. */
module Translation {
  import opened Words
  import opened Events
  import opened Ir
  import opened IrSemantics
  import S = Source

  function IrType(t: S.Type): Ty { if t == S.IntType then IntTy else BoolTy }

  /** The entry a source variable is read from and written to: parameters live in their _P_ slot. */
  function Resolve(x: string, sc: S.Scope): Entry {
    if x in sc.params then ParamSlot(x)
    else if x in sc.locals then Local(x)
    else Global(x)
  }

  function VarTy(x: string, sc: S.Scope): Ty {
    if sc.Declared(x) then IrType(sc.VarType(x)) else UnknownTy
  }

  function BinOpOf(op: S.Operator): BinOpTy
    requires !op.IsComparison()
  {
    match op
    case Plus => ADD
    case Minus => SUB
    case Asterisk => MUL
    case Fslash => SDIV
    case And => AND
    case Or => OR
  }

  function CondOf(op: S.Operator): ConditionCode
    requires op.IsComparison()
  {
    match op
    case Gt => SGT
    case Gte => SGE
    case Lt => SLT
    case Lte => SLE
    case Eq => EQ
    case Neq => NE
  }

  // ----- Expressions -----

  /** Instructions emitted, the operand holding the value, and the next register number. */
  datatype Emitted = Emitted(ins: seq<Instr>, opnd: Operand, next: nat)
  datatype EmittedAll = EmittedAll(ins: seq<Instr>, opnds: seq<Operand>, next: nat)

  function Expr(e: S.Expr, sc: S.Scope, n: nat): Emitted
    decreases e, 1
  {
    match e
    case IntLit(v) => Emitted([], Imm(v, IntTy), n)
    case BoolLit(b) => Emitted([], Imm(Bit(b), BoolTy), n)
    case Var(x) => Emitted([Load(Temp(n), Resolve(x, sc))], Reg(Temp(n), VarTy(x, sc)), n + 1)
    case Paren(e1) => Expr(e1, sc, n)
    case Neg(e1) =>
      var r := Expr(e1, sc, n);
      Emitted(r.ins + [BinOp(Temp(r.next), MUL, Imm(-1, I64), r.opnd)], Reg(Temp(r.next), I64), r.next + 1)
    case Not(e1) =>
      var r := Expr(e1, sc, n);
      var ty := if r.opnd.Reg? then r.opnd.ty else UnknownTy;
      Emitted(r.ins + [ICmp(Temp(r.next), EQ, r.opnd, Imm(0, ty))], Reg(Temp(r.next), I1), r.next + 1)
    case Binary(first, ops, rest) =>
      var r := Expr(first, sc, n);
      Rest(r, ops, rest, sc)
    case Invoke(f, args) =>
      var r := Exprs(args, sc, n);
      Emitted(r.ins + [CallAssign(Temp(r.next), f, r.opnds)], Reg(Temp(r.next), VarTy(f, sc)), r.next + 1)
  }

  function Exprs(es: seq<S.Expr>, sc: S.Scope, n: nat): EmittedAll
    decreases es, 0
  {
    if es == [] then EmittedAll([], [], n)
    else
      var r := Expr(es[0], sc, n);
      var rs := Exprs(es[1..], sc, r.next);
      EmittedAll(r.ins + rs.ins, [r.opnd] + rs.opnds, rs.next)
  }

  /** The left fold: what has been emitted so far, then each operator with its right operand. */
  function Rest(sofar: Emitted, ops: seq<S.Operator>, rest: seq<S.Expr>, sc: S.Scope): Emitted
    decreases rest, 0
  {
    if rest == [] || ops == [] then sofar
    else
      var r := Expr(rest[0], sc, sofar.next);
      var c := Combine(ops[0], sofar.opnd, r.opnd, r.next);
      Rest(Emitted(sofar.ins + r.ins + c.ins, c.opnd, c.next), ops[1..], rest[1..], sc)
  }

  /** The select that turns a truth value of another type into an i64, when one is needed. */
  function Widen(v: Operand, k: nat): (seq<Instr>, Operand) {
    if v.Type() == I64 then ([], v)
    else ([Select(Temp(k), v, Imm(1, I64), Imm(0, I64))], Reg(Temp(k), I64))
  }

  /** One operator applied to two operands: comparisons give an i1, && and || first widen to i64. */
  function Combine(op: S.Operator, a: Operand, b: Operand, n: nat): Emitted {
    if op.IsComparison() then
      Emitted([ICmp(Temp(n), CondOf(op), a, b)], Reg(Temp(n), I1), n + 1)
    else if op.IsBoolOp() then
      var (insA, a') := Widen(a, n);
      var (insB, b') := Widen(b, n + 1);
      var k := if b.Type() != I64 then n + 2 else n + 1;
      Emitted(insA + insB + [BinOp(Temp(k), BinOpOf(op), a', b')], Reg(Temp(k), I64), k + 1)
    else
      Emitted([BinOp(Temp(n), BinOpOf(op), a, b)], Reg(Temp(n), I64), n + 1)
  }

  // ----- The graph under construction -----

  /** Code, recorded edges and enclosing loop exit of each block, with the two generators. */
  datatype Build = Build(
    code: Code,
    succs: map<Label, seq<Label>>,
    preds: map<Label, seq<Label>>,
    loopExit: map<Label, Option<Label>>,
    nextLabel: nat,
    nextReg: nat)
  {
    ghost predicate Valid() {
      && code.Keys == succs.Keys == preds.Keys == loopExit.Keys
      && forall l <- code :: l < nextLabel
    }

    function Code(l: Label): seq<Instr> { if l in code then code[l] else [] }
    function Succs(l: Label): seq<Label> { if l in succs then succs[l] else [] }
    function Preds(l: Label): seq<Label> { if l in preds then preds[l] else [] }
    function LoopExit(l: Label): Option<Label> { if l in loopExit then loopExit[l] else None }

    function Append(l: Label, ins: seq<Instr>): Build {
      this.(code := code[l := Code(l) + ins])
    }
  }

  const NO_BLOCKS := Build(map[], map[], map[], map[], 0, 0)

  /** A new empty block under the next label. */
  function AddBlock(b: Build, preds: seq<Label>, succs: seq<Label>, exit: Option<Label>): Build {
    Build(b.code[b.nextLabel := []], b.succs[b.nextLabel := succs], b.preds[b.nextLabel := preds],
          b.loopExit[b.nextLabel := exit], b.nextLabel + 1, b.nextReg)
  }

  function AddSuccs(b: Build, l: Label, ls: seq<Label>): Build {
    b.(succs := b.succs[l := b.Succs(l) + ls])
  }

  /** A fresh graph with one empty block, with the generators wherever the program left them. */
  function Start(nextLabel: nat, nextReg: nat): Build {
    AddBlock(NO_BLOCKS.(nextLabel := nextLabel, nextReg := nextReg), [], [], None)
  }

  /** True, false and exit blocks, in this order from nextLabel on. */
  function NewIf(b: Build, entry: Label): Build {
    var t, f, x := b.nextLabel, b.nextLabel + 1, b.nextLabel + 2;
    var exit := b.LoopExit(entry);
    var b1 := AddBlock(AddSuccs(b, entry, [t, f]), [entry], [x], exit);
    AddBlock(AddBlock(b1, [entry], [x], exit), [t, f], [], exit)
  }

  /** Entry, body and exit blocks of a loop, in this order from nextLabel on. */
  function NewFor(b: Build, prev: Label): Build {
    var e, y, x := b.nextLabel, b.nextLabel + 1, b.nextLabel + 2;
    var b1 := AddBlock(AddSuccs(b, prev, [e]), [], [y, x], Some(x));
    AddBlock(AddBlock(b1, [e], [e], Some(x)), [e], [], None)
  }

  // ----- Statements -----

  /** A graph and the block that execution has reached. */
  datatype Placed = Placed(b: Build, cur: Label)

  function Emit(b: Build, cur: Label, ins: seq<Instr>, nextReg: nat): Placed
  {
    Placed(b.Append(cur, ins).(nextReg := nextReg), cur)
  }

  /** What follows a condition: a loop only truncates an i64 condition and tests the condition itself; a conditional
      truncates whatever is not an i1 and tests the result of the select. Both emit the select. */
  function Test(c: Emitted, isLoop: bool): Emitted {
    var truncate := c.opnd.Reg? && if isLoop then c.opnd.ty == I64 else c.opnd.ty != I1;
    var d := if truncate
             then Emitted(c.ins + [Trunc(Temp(c.next), c.opnd)], Reg(Temp(c.next), I1), c.next + 1)
             else c;
    Emitted(d.ins + [Select(Temp(d.next), d.opnd, Imm(1, I1), Imm(0, I1))],
            if isLoop then d.opnd else Reg(Temp(d.next), I1), d.next + 1)
  }

  /** Evaluates and tests a condition at the end of a block, then branches on it. */
  function Branch(b: Build, at: Label, cond: S.Expr, sc: S.Scope, t: Label, f: Label, isLoop: bool): Build {
    var c := Test(Expr(cond, sc, b.nextReg), isLoop);
    b.Append(at, c.ins + [BrCond(c.opnd, t, f, EQ)]).(nextReg := c.next)
  }

  /** The instructions of a statement that adds no block, and the next register number. */
  function Simple(s: S.Stm, sc: S.Scope, n: nat): (seq<Instr>, nat)
    requires !s.Conditional? && !s.Loop?
  {
    match s
    case Assignment(x, e) =>
      var r := Expr(e, sc, n);
      (r.ins + [Store(r.opnd, Resolve(x, sc))], r.next)
    case Print(text, es) =>
      var r := Exprs(es, sc, n);
      (r.ins + [Printf(text, r.opnds)], r.next)
    case Read(x) =>
      ([Scanf(Resolve(x, sc))], n)
    case Invocation(f, es) =>
      var r := Exprs(es, sc, n);
      (r.ins + [Call(f, r.opnds)], r.next)
    case Return(None) =>
      (ReturnOf(Imm(0, I64), n), n + 1)
    case Return(Some(e)) =>
      var r := Expr(e, sc, n);
      (r.ins + ReturnOf(r.opnd, r.next), r.next + 1)
  }

  function Stm(s: S.Stm, cur: Label, b: Build, sc: S.Scope): Placed
    decreases s, 2
  {
    if s.Conditional? then If(s, cur, b, sc)
    else if s.Loop? then For(s, cur, b, sc)
    else
      var (ins, next) := Simple(s, sc, b.nextReg);
      Emit(b, cur, ins, next)
  }

  function If(s: S.Stm, cur: Label, b: Build, sc: S.Scope): Placed
    requires s.Conditional?
    decreases s, 1
  {
    var t, f, x := b.nextLabel, b.nextLabel + 1, b.nextLabel + 2;
    var b1 := Branch(NewIf(b, cur), cur, s.cond, sc, t, f, false);
    var b2 := Nested(s.ifblock, t, b1, sc, x);
    Placed(if s.elseblock.Else? then Nested(s.elseblock.stms, f, b2, sc, x) else b2.Append(f, [Br(x)]), x)
  }

  /** A nested statement list starting in the block at, closed by a branch to x. */
  function Nested(ss: seq<S.Stm>, at: Label, b: Build, sc: S.Scope, x: Label): Build
    decreases ss, 1
  {
    var p := Stms(ss, at, b, sc);
    p.b.Append(p.cur, [Br(x)])
  }

  function For(s: S.Stm, cur: Label, b: Build, sc: S.Scope): Placed
    requires s.Loop?
    decreases s, 1
  {
    var e, y, x := b.nextLabel, b.nextLabel + 1, b.nextLabel + 2;
    var b1 := NewFor(b, cur).Append(cur, [Br(e)]);
    var b2 := Branch(b1, e, s.cond, sc, y, x, true);
    Placed(Nested(s.block, y, b2, sc, e), x)
  }

  function Stms(ss: seq<S.Stm>, cur: Label, b: Build, sc: S.Scope): Placed
    decreases ss, 0
  {
    if ss == [] then Placed(b, cur)
    else
      var p := Stm(ss[0], cur, b, sc);
      Stms(ss[1..], p.cur, p.b, sc)
  }

  /** Store to the return slot, load it into the next register, return that. */
  function ReturnOf(v: Operand, n: nat): seq<Instr> {
    [Store(v, RetVal), Load(Temp(n), RetVal), Ret(Reg(Temp(n), I64))]
  }

  // ----- Functions -----

  function ScopeOf(f: S.Function, globals: map<string, S.Type>, funcs: map<string, S.Signature>): S.Scope {
    S.Scope(Names(f.params), TypesOf(f.params) + TypesOf(f.declarations), globals, funcs)
  }

  function Names(ds: seq<(string, S.Type)>): seq<string> {
    if ds == [] then [] else [ds[0].0] + Names(ds[1..])
  }

  function TypesOf(ds: seq<(string, S.Type)>): map<string, S.Type> {
    if ds == [] then map[] else TypesOf(ds[1..])[ds[0].0 := ds[0].1]
  }

  function ParamInstrs(ps: seq<(string, S.Type)>): seq<Instr> {
    if ps == [] then []
    else [Alloca(ParamSlot(ps[0].0)), Store(Reg(RawParam(ps[0].0), IrType(ps[0].1)), ParamSlot(ps[0].0))]
         + ParamInstrs(ps[1..])
  }

  function DeclInstrs(ds: seq<(string, S.Type)>): seq<Instr> {
    if ds == [] then [] else [Alloca(Local(ds[0].0))] + DeclInstrs(ds[1..])
  }

  function Prologue(f: S.Function): seq<Instr> {
    [Alloca(RetVal)] + ParamInstrs(f.params) + DeclInstrs(f.declarations)
  }

  /** The first block of a function, holding its prologue. */
  function StartFunction(f: S.Function, nextLabel: nat, nextReg: nat): Build {
    Start(nextLabel, nextReg).Append(nextLabel, Prologue(f))
  }

  /** A function without a result returns 0 at its end. */
  function EndFunction(f: S.Function, p: Placed): Placed {
    if f.ret.None? then Emit(p.b, p.cur, ReturnOf(Imm(0, I64), p.b.nextReg), p.b.nextReg + 1) else p
  }

  /** The blocks of a whole function. */
  function FunctionBody(f: S.Function, sc: S.Scope, nextLabel: nat, nextReg: nat): Placed {
    EndFunction(f, Stms(f.stms, nextLabel, StartFunction(f, nextLabel, nextReg), sc))
  }
}
