/** The three-address intermediate representation: operands, instructions and the variables they mention. */
module Ir {
  import opened Words

  type Label = nat

  /** A symbol-table entry; a temporary is the n-th name handed out by the register generator. */
  datatype Entry =
    | Global(name: string)
    | Local(name: string)
    | RawParam(name: string)
    | ParamSlot(name: string)
    | RetVal
    | Temp(n: nat)

  datatype Ty = IntTy | BoolTy | I1 | I64 | UnknownTy

  datatype Operand =
    | Reg(entry: Entry, ty: Ty)
    | Imm(value: int, immTy: Ty)
  {
    function Type(): Ty {
      match this
      case Reg(_, ty) => ty
      case Imm(_, ty) => ty
    }

    /** The entry an instruction lists for this operand: registers only, and never a global. */
    function Vars(): seq<Entry> {
      if Reg? && !entry.Global? then [entry] else []
    }
  }

  datatype Instr =
    | BinOp(dest: Entry, op: BinOpTy, op1: Operand, op2: Operand)
    | ICmp(dest: Entry, cc: ConditionCode, op1: Operand, op2: Operand)
    | Select(dest: Entry, cond: Operand, val1: Operand, val2: Operand)
    | Trunc(dest: Entry, val: Operand)
    | Load(dest: Entry, src: Entry)
    | Store(val: Operand, dst: Entry)
    | Alloca(dest: Entry)
    | Printf(text: string, flags: seq<Operand>)
    | Scanf(param: Entry)
    | Call(func: string, args: seq<Operand>)
    | CallAssign(dest: Entry, func: string, args: seq<Operand>)
    | Br(target: Label)
    | BrCond(cond: Operand, iftrue: Label, iffalse: Label, cc: ConditionCode)
    | Ret(val: Operand)
  {
    predicate IsTerminator() { Br? || BrCond? || Ret? }

    function Targets(): set<Label> {
      match this
      case Br(l) => {l}
      case BrCond(_, t, f, _) => {t, f}
      case _ => {}
    }

    /** The non-global entries the instruction mentions, in the order it lists them. */
    function Vars(): seq<Entry> {
      match this
      case BinOp(d, _, a, b) => [d] + a.Vars() + b.Vars()
      case ICmp(d, _, a, b) => NonGlobal(d) + a.Vars() + b.Vars()
      case Select(d, c, a, b) => NonGlobal(d) + c.Vars() + a.Vars() + b.Vars()
      case Trunc(d, v) => NonGlobal(d) + v.Vars()
      case Load(d, s) => NonGlobal(d) + NonGlobal(s)
      case Store(v, d) => v.Vars() + NonGlobal(d)
      case Alloca(_) => []
      case Printf(_, fs) => AllVars(fs)
      case Scanf(p) => NonGlobal(p)
      case Call(_, args) => AllVars(args)
      case CallAssign(d, _, args) => NonGlobal(d) + AllVars(args)
      case Br(_) => []
      case BrCond(c, _, _, _) => c.Vars()
      case Ret(v) => v.Vars()
    }
  }

  function NonGlobal(e: Entry): seq<Entry> {
    if e.Global? then [] else [e]
  }

  function AllVars(ops: seq<Operand>): seq<Entry> {
    if ops == [] then [] else ops[0].Vars() + AllVars(ops[1..])
  }
}
