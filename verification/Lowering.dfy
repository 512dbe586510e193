/** Lowering of single IR instructions to ARM, given where each variable lives. */
module Lowering {
  import opened Words
  import opened Ir
  import opened Arm

  /** Scratch registers are handed out from here on and taken back after every instruction. */
  const SCRATCH: nat := 26

  type Homes = map<Entry, ArmOperand>

  /** The home of a variable: a register, or a cell addressed from the stack pointer. */
  function Home(homes: Homes, e: Entry): ArmOperand {
    if e in homes then homes[e] else Num(0)
  }

  predicate InRegister(homes: Homes, e: Entry) { Home(homes, e).R? }

  /** Operands are variables and immediates; raw parameters, which the allocator gives no home, are not operands. */
  predicate IsVariable(e: Entry) { !e.Global? && !e.RawParam? }

  predicate IsOperand(op: Operand) { op.Reg? ==> IsVariable(op.entry) }

  /** Arithmetic, comparisons, selects of 1 or 0, truncations, and loads and stores of variables and globals. */
  predicate Basic(i: Instr) {
    match i
    case BinOp(d, _, a, b) => IsVariable(d) && IsOperand(a) && IsOperand(b)
    case ICmp(d, _, a, b) => IsVariable(d) && IsOperand(a) && IsOperand(b)
    case Select(d, c, a, b) =>
      IsVariable(d) && IsOperand(c) && a.Imm? && a.value == 1 && b.Imm? && b.value == 0
    case Trunc(d, v) => IsVariable(d) && IsOperand(v)
    case Load(d, s) => IsVariable(d) && (s.Global? || IsVariable(s))
    case Store(v, d) => IsOperand(v) && (d.Global? || IsVariable(d))
    case Alloca(_) => true
    case _ => false
  }

  /** What can end a block. */
  predicate Closing(i: Instr) {
    match i
    case Br(_) => true
    case BrCond(c, _, _, _) => IsOperand(c)
    case Ret(v) => IsOperand(v)
    case _ => false
  }

  predicate Covered(i: Instr) { Basic(i) || Closing(i) }

  /** Whether the instruction is one of those whose lowering is modelled: a basic one all of whose variables have homes,
      which for a variable not in a register is its spill slot. */
  predicate Lowerable(i: Instr, homes: Homes)
    ensures Lowerable(i, homes) ==> Basic(i)
  {
    match i
    case BinOp(d, _, a, b) => Placed(d, homes) && PlacedOperand(a, homes) && PlacedOperand(b, homes)
    case ICmp(d, _, a, b) => Placed(d, homes) && PlacedOperand(a, homes) && PlacedOperand(b, homes)
    case Select(d, c, a, b) =>
      Placed(d, homes) && PlacedOperand(c, homes) && a.Imm? && a.value == 1 && b.Imm? && b.value == 0
    case Trunc(d, v) => Placed(d, homes) && PlacedOperand(v, homes)
    case Load(d, s) => Placed(d, homes) && (s.Global? || Placed(s, homes))
    case Store(v, d) => PlacedOperand(v, homes) && (d.Global? || Placed(d, homes))
    case Alloca(_) => true
    case _ => false
  }

  /** When the lowered code does what the instruction says. Loads into a spilled variable and stores to one fail, and so
      do stores of a spilled variable to a global; but a spilled variable loaded from its own slot already holds the
      value, and an immediate reaches any slot. A spilled parameter slot is looked for shift bytes above its cell. */
  predicate Delivered(i: Instr, homes: Homes, shift: int) {
    match i
    case Load(d, s) => InRegister(homes, d) || (!s.Global? && Home(homes, s) == Home(homes, d))
    case Store(Reg(v, _), d) =>
      if InRegister(homes, v) then d.Global? || InRegister(homes, d)
      else !d.Global? && InRegister(homes, d) && (v.ParamSlot? ==> shift == 0)
    case _ => true
  }

  /** Lowerable, or the end of a block whose operand has a home. */
  predicate Housed(i: Instr, homes: Homes)
    ensures Housed(i, homes) ==> Covered(i) && (!i.IsTerminator() ==> Lowerable(i, homes))
  {
    Lowerable(i, homes) || (Closing(i) && forall v <- i.Vars() :: v in homes)
  }

  predicate Placed(e: Entry, homes: Homes) {
    IsVariable(e) && e in homes && !homes[e].Num?
  }

  predicate PlacedOperand(op: Operand, homes: Homes) {
    op.Reg? ==> Placed(op.entry, homes)
  }

  /** Brings an operand into a register: its own, or the next scratch register. */
  function Fetch(op: Operand, homes: Homes, next: RegNum): (seq<ArmInstr>, RegNum, nat) {
    if op.Imm? then ([Mov(next, Num(op.value))], next, next + 1)
    else
      match Home(homes, op.entry)
      case R(r) => ([], r, next)
      case home => ([Ldr(next, home)], next, next + 1)
  }

  /** Moves a result to the home of its variable. */
  function Deliver(d: Entry, homes: Homes, from: RegNum): seq<ArmInstr> {
    match Home(homes, d)
    case R(r) => [Mov(r, R(from))]
    case home => [Str(from, home)]
  }

  function LowerTwo(a: Operand, b: Operand, homes: Homes): (seq<ArmInstr>, RegNum, RegNum, nat) {
    var (insA, ra, n1) := Fetch(a, homes, SCRATCH);
    var (insB, rb, n2) := Fetch(b, homes, n1);
    (insA + insB, ra, rb, n2)
  }

  /** Where a store looks for a spilled value: parameter slots are taken to lie shift bytes higher. */
  function ValueHome(e: Entry, homes: Homes, shift: int): ArmOperand {
    match Home(homes, e)
    case Addr(b, o) => if e.ParamSlot? then Addr(b, o + shift) else Addr(b, o)
    case home => home
  }

  function LowerLoad(d: Entry, s: Entry, homes: Homes): seq<ArmInstr>
    requires Placed(d, homes)
  {
    var (pre, rd, next) := Fetch(Reg(d, I64), homes, SCRATCH);
    pre + if s.Global? then [Adrp(next, s.name), AddLo12(next, s.name), Ldr(rd, R(next))]
          else if InRegister(homes, s) then [Mov(rd, Home(homes, s))]
          else [Ldr(rd, Home(homes, s))]
  }

  /** What a store to a spilled variable writes is whatever the first scratch register holds. */
  function LowerStore(v: Operand, d: Entry, homes: Homes, shift: int): seq<ArmInstr> {
    if !d.Global? && !InRegister(homes, d) then
      (if v.Imm? then [Mov(SCRATCH, Num(v.value))] else []) + [Str(SCRATCH, Home(homes, d))]
    else
      var (pre, rd, next) :=
        if d.Global? then ([Adrp(SCRATCH, d.name), AddLo12(SCRATCH, d.name)], SCRATCH, SCRATCH + 1)
        else ([], Home(homes, d).reg, SCRATCH);
      if v.Reg? && !InRegister(homes, v.entry) then pre + [Ldr(rd, ValueHome(v.entry, homes, shift))]
      else
        var (ins, rv, _) := Fetch(v, homes, next);
        pre + ins + [if d.Global? then Str(rv, R(rd)) else Mov(rd, R(rv))]
  }

  function Lower(i: Instr, homes: Homes, shift: int): seq<ArmInstr>
    requires Lowerable(i, homes)
  {
    match i
    case BinOp(d, op, a, b) =>
      var (ins, ra, rb, n) := LowerTwo(a, b, homes);
      ins + [Arith(op, n, ra, rb)] + Deliver(d, homes, n)
    case ICmp(d, cc, a, b) =>
      var (ins, ra, rb, n) := LowerTwo(a, b, homes);
      ins + [Cmp(R(ra), R(rb)), Cset(n + 1, cc)] + Deliver(d, homes, n + 1)
    case Select(d, c, _, _) =>
      var (ins, rc, n) := Fetch(c, homes, SCRATCH);
      ins + [Cmp(R(rc), Num(1)), Cset(n, EQ)] + Deliver(d, homes, n)
    case Trunc(d, v) =>
      var (ins, rv, n) := Fetch(v, homes, SCRATCH);
      ins + Deliver(d, homes, rv)
    case Load(d, s) => LowerLoad(d, s, homes)
    case Store(v, d) => LowerStore(v, d, homes, shift)
    case Alloca(_) => []
  }
}
