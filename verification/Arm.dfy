/** The ARM instructions the back end emits, on 32 registers, memory and the flags of the last compare. */
module Arm {
  import opened Words
  import opened Ir

  type RegNum = r: nat | r < 32

  /** The stack pointer is kept as register 31. */
  const SP: RegNum := 31

  /** Where code can branch: to a block of the function, or to its exit. */
  datatype Target = BlockLabel(l: Label) | ExitLabel

  datatype ArmOperand = R(reg: RegNum) | Num(value: int) | Addr(base: RegNum, offset: int)

  datatype ArmInstr =
    | LabelDef(target: Target)
    | Str(reg: RegNum, addr: ArmOperand)
    | Ldr(reg: RegNum, addr: ArmOperand)
    | Mov(reg: RegNum, operand: ArmOperand)
    | Arith(op: BinOpTy, reg: RegNum, reg1: RegNum, reg2: RegNum)
    | Adrp(reg: RegNum, name: string)
    | AddLo12(reg: RegNum, name: string)
    | AddImm(reg: RegNum, reg1: RegNum, imm: int)
    | SubImm(reg: RegNum, reg1: RegNum, imm: int)
    | Cmp(op1: ArmOperand, op2: ArmOperand)
    | Cset(reg: RegNum, cc: ConditionCode)
    | Bl(name: string)
    | B(target: Target)
    | BCond(cc: ConditionCode, target: Target)
  {
    /** Falls through to the next instruction, within this function. */
    predicate IsPlain() { !B? && !BCond? && !Bl? }
  }

  type RegFile = s: seq<int> | |s| == 32 witness seq(32, _ => 0)

  datatype ArmState = ArmState(regs: RegFile, mem: map<int, int>, flags: (int, int)) {
    function Cell(a: int): int { if a in mem then mem[a] else 0 }
    function Set(r: RegNum, v: int): ArmState { this.(regs := regs[r := v]) }
    function Put(a: int, v: int): ArmState { this.(mem := mem[a := v]) }

    function Value(op: ArmOperand): int {
      match op
      case R(r) => regs[r]
      case Num(v) => v
      case Addr(b, o) => regs[b] + o
    }

    predicate FlagsSay(cc: ConditionCode) { cc.Holds(flags.0, flags.1) }
  }

  /** Division by zero yields zero. */
  function ArmArith(op: BinOpTy, a: int, b: int): int {
    match BinOpValue(op, a, b)
    case Some(v) => v
    case None => 0
  }

  /** The address of a global splits into its page and the offset in it. */
  const PAGE := 4096

  function ExecArm(i: ArmInstr, s: ArmState, symbol: string -> int): ArmState
    requires i.IsPlain()
  {
    match i
    case LabelDef(_) => s
    case Str(r, a) => s.Put(s.Value(a), s.regs[r])
    case Ldr(r, a) => s.Set(r, s.Cell(s.Value(a)))
    case Mov(r, op) => s.Set(r, s.Value(op))
    case Arith(op, d, a, b) => s.Set(d, ArmArith(op, s.regs[a], s.regs[b]))
    case Adrp(r, g) => s.Set(r, symbol(g) - symbol(g) % PAGE)
    case AddLo12(r, g) => s.Set(r, s.regs[r] + symbol(g) % PAGE)
    case AddImm(r, a, n) => s.Set(r, s.regs[a] + n)
    case SubImm(r, a, n) => s.Set(r, s.regs[a] - n)
    case Cmp(a, b) => s.(flags := (s.Value(a), s.Value(b)))
    case Cset(r, cc) => s.Set(r, Bit(s.FlagsSay(cc)))
  }

  predicate Plain(ins: seq<ArmInstr>) {
    forall i <- ins :: i.IsPlain()
  }

  function ExecArmAll(ins: seq<ArmInstr>, s: ArmState, symbol: string -> int): ArmState
    requires Plain(ins)
  {
    if ins == [] then s else ExecArmAll(ins[1..], ExecArm(ins[0], s, symbol), symbol)
  }

  lemma {:induction false} ExecArmAppend(a: seq<ArmInstr>, b: seq<ArmInstr>, s: ArmState, symbol: string -> int)
    requires Plain(a) && Plain(b)
    ensures Plain(a + b)
    ensures ExecArmAll(a + b, s, symbol) == ExecArmAll(b, ExecArmAll(a, s, symbol), symbol)
    decreases a
  {
    if a == [] {
      assert a + b == b;
    } else {
      assert (a + b)[1..] == a[1..] + b;
      ExecArmAppend(a[1..], b, ExecArm(a[0], s, symbol), symbol);
    }
  }

  lemma ExecArmOne(i: ArmInstr, s: ArmState, symbol: string -> int)
    requires i.IsPlain()
    ensures Plain([i]) && ExecArmAll([i], s, symbol) == ExecArm(i, s, symbol)
  {
    assert [i][1..] == [];
  }

  lemma ExecArmTwo(i: ArmInstr, j: ArmInstr, s: ArmState, symbol: string -> int)
    requires i.IsPlain() && j.IsPlain()
    ensures Plain([i, j]) && ExecArmAll([i, j], s, symbol) == ExecArm(j, ExecArm(i, s, symbol), symbol)
  {
    assert [i, j][1..] == [j];
    ExecArmOne(j, ExecArm(i, s, symbol), symbol);
  }

  /** The two-instruction sequence leaves the address of a global in its register, and changes nothing else. */
  lemma AddressOfGlobal(r: RegNum, g: string, s: ArmState, symbol: string -> int)
    ensures Plain([Adrp(r, g), AddLo12(r, g)])
    ensures ExecArmAll([Adrp(r, g), AddLo12(r, g)], s, symbol) == s.Set(r, symbol(g))
  {
    ExecArmTwo(Adrp(r, g), AddLo12(r, g), s, symbol);
    assert s.regs[r := symbol(g) - symbol(g) % PAGE][r := symbol(g)] == s.regs[r := symbol(g)];
  }
}
