/** The source language: syntax, typing as the type checker accepts it, and evaluation. */
module Source {
  import opened Words
  import opened Events

  datatype Type = IntType | BoolType

  datatype Operator = Plus | Minus | Asterisk | Fslash | Gt | Gte | Lt | Lte | Eq | Neq | And | Or {
    predicate IsArithmetic() { Plus? || Minus? || Asterisk? || Fslash? }
    predicate IsComparison() { Gt? || Gte? || Lt? || Lte? || Eq? || Neq? }
    predicate IsBoolOp() { And? || Or? }

    /** The type of both operands. */
    function OperandType(): Type { if IsBoolOp() then BoolType else IntType }
    function ResultType(): Type { if IsArithmetic() then IntType else BoolType }
  }

  datatype Expr =
    | IntLit(value: int)
    | BoolLit(truth: bool)
    | Var(name: string)
    | Paren(inner: Expr)
    | Neg(operand: Expr)
    | Not(operand: Expr)
    | Binary(first: Expr, ops: seq<Operator>, rest: seq<Expr>)
    | Invoke(func: string, args: seq<Expr>)

  datatype Stm =
    | Assignment(name: string, right: Expr)
    | Print(text: string, exprs: seq<Expr>)
    | Read(name: string)
    | Invocation(func: string, args: seq<Expr>)
    | Conditional(cond: Expr, ifblock: seq<Stm>, elseblock: Else)
    | Loop(cond: Expr, block: seq<Stm>)
    | Return(value: Option<Expr>)

  datatype Else = NoElse | Else(stms: seq<Stm>)

  datatype Signature = Signature(params: seq<Type>, ret: Option<Type>)

  /** The symbol tables seen inside one function; locals includes the parameters and shadows globals. */
  datatype Scope = Scope(
    params: seq<string>,
    locals: map<string, Type>,
    globals: map<string, Type>,
    funcs: map<string, Signature>)
  {
    predicate Declared(name: string) { name in locals || name in globals }

    function VarType(name: string): Type
      requires Declared(name)
    {
      if name in locals then locals[name] else globals[name]
    }
  }

  datatype Function = Function(
    name: string,
    params: seq<(string, Type)>,
    declarations: seq<(string, Type)>,
    ret: Option<Type>,
    stms: seq<Stm>)

  // ----- Typing -----

  function TypeOf(e: Expr, sc: Scope): Option<Type> {
    match e
    case IntLit(_) => Some(IntType)
    case BoolLit(_) => Some(BoolType)
    case Var(x) => if sc.Declared(x) then Some(sc.VarType(x)) else None
    case Paren(e1) => TypeOf(e1, sc)
    case Neg(e1) => TypeOf(e1, sc)
    case Not(e1) => TypeOf(e1, sc)
    case Binary(first, ops, _) => if ops == [] then TypeOf(first, sc) else Some(ops[0].ResultType())
    case Invoke(f, _) => if f in sc.funcs then sc.funcs[f].ret else None
  }

  /** One grammar production only ever mixes operators of one precedence level. */
  predicate OneLevel(ops: seq<Operator>) {
    forall i, j :: 0 <= i < j < |ops| ==>
      ops[i].IsArithmetic() == ops[j].IsArithmetic() && ops[i].OperandType() == ops[j].OperandType()
  }

  /** Every operand has the type its operators require; negation applies to int and ! to bool. */
  predicate WellTyped(e: Expr, sc: Scope)
    decreases e, 1
  {
    match e
    case IntLit(_) => true
    case BoolLit(_) => true
    case Var(x) => sc.Declared(x)
    case Paren(e1) => WellTyped(e1, sc)
    case Neg(e1) => WellTyped(e1, sc) && TypeOf(e1, sc) == Some(IntType)
    case Not(e1) => WellTyped(e1, sc) && TypeOf(e1, sc) == Some(BoolType)
    case Binary(first, ops, rest) =>
      && WellTyped(first, sc) && WellTypedAll(rest, sc)
      && |ops| == |rest| && OneLevel(ops)
      && (ops != [] ==> TypeOf(first, sc) == Some(ops[0].OperandType()))
      && forall i :: 0 <= i < |ops| ==> TypeOf(rest[i], sc) == Some(ops[i].OperandType())
    case Invoke(f, args) =>
      WellTypedAll(args, sc) && f in sc.funcs && sc.funcs[f].ret.Some?
  }

  predicate WellTypedAll(es: seq<Expr>, sc: Scope)
    decreases es, 0
  {
    es == [] || (WellTyped(es[0], sc) && WellTypedAll(es[1..], sc))
  }

  predicate WellTypedStm(s: Stm, sc: Scope, ret: Option<Type>)
    decreases s, 1
  {
    match s
    case Assignment(x, e) => sc.Declared(x) && WellTyped(e, sc) && TypeOf(e, sc) == Some(sc.VarType(x))
    case Print(_, es) => WellTypedAll(es, sc)
    case Read(x) => sc.Declared(x) && sc.VarType(x) == IntType
    case Invocation(f, es) => WellTypedAll(es, sc) && f in sc.funcs
    case Conditional(c, t, e) =>
      && WellTyped(c, sc) && TypeOf(c, sc) == Some(BoolType)
      && WellTypedStms(t, sc, ret) && (e.Else? ==> WellTypedStms(e.stms, sc, ret))
    case Loop(c, b) => WellTyped(c, sc) && TypeOf(c, sc) == Some(BoolType) && WellTypedStms(b, sc, ret)
    case Return(None) => ret.None?
    case Return(Some(e)) => WellTyped(e, sc) && ret.Some? && TypeOf(e, sc) == ret
  }

  predicate WellTypedStms(ss: seq<Stm>, sc: Scope, ret: Option<Type>)
    decreases ss, 0
  {
    ss == [] || (WellTypedStm(ss[0], sc, ret) && WellTypedStms(ss[1..], sc, ret))
  }

  // ----- Evaluation; a bool is 1 or 0 -----

  datatype Memory = Memory(locals: map<string, int>, globals: Globals, log: seq<Event>) {
    /** The value of an initialised variable; locals shadow globals. */
    function Get(name: string, sc: Scope): Option<int> {
      if name in sc.locals then (if name in locals then Some(locals[name]) else None)
      else if name in globals then Some(globals[name]) else None
    }

    function Set(name: string, v: int, sc: Scope): Memory {
      if name in sc.locals then this.(locals := locals[name := v]) else this.(globals := globals[name := v])
    }
  }

  datatype Evaluation<+T> = Stuck | Value(value: T, mem: Memory)

  /** Both operands of && and || are always evaluated; dividing by zero has no value. */
  function Apply(op: Operator, a: int, b: int): Option<int> {
    match op
    case Plus => Some(Wrap(a + b))
    case Minus => Some(Wrap(a - b))
    case Asterisk => Some(Wrap(a * b))
    case Fslash => if b == 0 then None else Some(Wrap(TruncDiv(a, b)))
    case Gt => Some(Bit(a > b))
    case Gte => Some(Bit(a >= b))
    case Lt => Some(Bit(a < b))
    case Lte => Some(Bit(a <= b))
    case Eq => Some(Bit(a == b))
    case Neq => Some(Bit(a != b))
    case And => Some(Bit(a == 1 && b == 1))
    case Or => Some(Bit(a == 1 || b == 1))
  }

  function Eval(e: Expr, m: Memory, sc: Scope, w: World): Evaluation<int>
    decreases e, 1
  {
    match e
    case IntLit(n) => Value(n, m)
    case BoolLit(b) => Value(Bit(b), m)
    case Var(x) => (match m.Get(x, sc) case Some(v) => Value(v, m) case None => Stuck)
    case Paren(e1) => Eval(e1, m, sc, w)
    case Neg(e1) => (match Eval(e1, m, sc, w) case Stuck => Stuck case Value(v, m1) => Value(Wrap(-v), m1))
    case Not(e1) => (match Eval(e1, m, sc, w) case Stuck => Stuck case Value(v, m1) => Value(Bit(v == 0), m1))
    case Binary(first, ops, rest) =>
      (match Eval(first, m, sc, w) case Stuck => Stuck case Value(v, m1) => EvalRest(v, ops, rest, m1, sc, w))
    case Invoke(f, args) =>
      (match EvalAll(args, m, sc, w) case Stuck => Stuck case Value(vs, m1) => DoCall(f, vs, m1, w))
  }

  function DoCall(f: string, vs: seq<int>, m: Memory, w: World): Evaluation<int> {
    var (v, globals) := w.call(f, vs, m.log, m.globals);
    Value(v, m.(globals := globals, log := m.log + [Called(f, vs)]))
  }

  /** The left fold over the remaining operators. */
  function EvalRest(acc: int, ops: seq<Operator>, rest: seq<Expr>, m: Memory, sc: Scope, w: World): Evaluation<int>
    decreases rest, 0
  {
    if rest == [] || ops == [] then Value(acc, m)
    else
      match Eval(rest[0], m, sc, w)
      case Stuck => Stuck
      case Value(v, m1) =>
        match Apply(ops[0], acc, v)
        case None => Stuck
        case Some(r) => EvalRest(r, ops[1..], rest[1..], m1, sc, w)
  }

  function EvalAll(es: seq<Expr>, m: Memory, sc: Scope, w: World): Evaluation<seq<int>>
    decreases es, 0
  {
    if es == [] then Value([], m)
    else
      match Eval(es[0], m, sc, w)
      case Stuck => Stuck
      case Value(v, m1) =>
        match EvalAll(es[1..], m1, sc, w)
        case Stuck => Stuck
        case Value(vs, m2) => Value([v] + vs, m2)
  }

  // ----- Execution, cut off after fuel loop iterations -----

  datatype Outcome = Done(mem: Memory) | Returned(mem: Memory, value: int) | Wrong | OutOfFuel

  function Exec(s: Stm, m: Memory, sc: Scope, w: World, fuel: nat): Outcome
    decreases fuel, s, 1
  {
    match s
    case Assignment(x, e) =>
      (match Eval(e, m, sc, w) case Stuck => Wrong case Value(v, m1) => Done(m1.Set(x, v, sc)))
    case Print(text, es) =>
      (match EvalAll(es, m, sc, w)
       case Stuck => Wrong
       case Value(vs, m1) => Done(m1.(log := m1.log + [Printed(text, vs)])))
    case Read(x) =>
      var v := w.input(m.log);
      Done(m.(log := m.log + [Scanned(v)]).Set(x, v, sc))
    case Invocation(f, es) =>
      (match EvalAll(es, m, sc, w) case Stuck => Wrong case Value(vs, m1) => Done(DoCall(f, vs, m1, w).mem))
    case Conditional(c, t, e) =>
      (match Eval(c, m, sc, w)
       case Stuck => Wrong
       case Value(v, m1) =>
         if v == 1 then ExecAll(t, m1, sc, w, fuel)
         else if e.Else? then ExecAll(e.stms, m1, sc, w, fuel)
         else Done(m1))
    case Loop(c, b) =>
      if fuel == 0 then OutOfFuel
      else
        (match Eval(c, m, sc, w)
         case Stuck => Wrong
         case Value(v, m1) =>
           if v != 1 then Done(m1)
           else
             match ExecAll(b, m1, sc, w, fuel - 1)
             case Done(m2) => Exec(s, m2, sc, w, fuel - 1)
             case other => other)
    case Return(None) => Returned(m, 0)
    case Return(Some(e)) =>
      (match Eval(e, m, sc, w) case Stuck => Wrong case Value(v, m1) => Returned(m1, v))
  }

  function ExecAll(ss: seq<Stm>, m: Memory, sc: Scope, w: World, fuel: nat): Outcome
    decreases fuel, ss, 0
  {
    if ss == [] then Done(m)
    else
      match Exec(ss[0], m, sc, w, fuel)
      case Done(m1) => ExecAll(ss[1..], m1, sc, w, fuel)
      case other => other
  }

  /** A call of f: parameters bound, declared locals unset; a function without a result returns 0 at its end. */
  function RunFunction(f: Function, args: map<string, int>, globals: Globals, log: seq<Event>,
                       sc: Scope, w: World, fuel: nat): Outcome {
    match ExecAll(f.stms, Memory(args, globals, log), sc, w, fuel)
    case Done(m) => if f.ret.None? then Returned(m, 0) else Done(m)
    case other => other
  }
}
