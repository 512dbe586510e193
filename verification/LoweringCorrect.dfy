/** Each lowered instruction does what the IR instruction does, in the home of its destination and nowhere else that
    counts. */
module LoweringCorrect {
  import opened Words
  import opened Events
  import opened Ir
  import opened IrSemantics
  import opened Arm
  import opened Lowering

  /** What holds a value at run time. */
  datatype Place = InReg(reg: RegNum) | AtCell(address: int)

  /** Registers in the allocated range, and cells addressed from the stack pointer. */
  ghost predicate GoodHome(home: ArmOperand) {
    match home
    case R(r) => r < SCRATCH
    case Addr(b, _) => b == SP
    case Num(_) => false
  }

  ghost predicate HomesFit(homes: Homes) {
    forall e <- homes :: GoodHome(homes[e])
  }

  /** Where an entry lives, given the stack pointer. */
  function Where(e: Entry, homes: Homes, sp: int, symbol: string -> int): Place {
    if e.Global? then AtCell(symbol(e.name))
    else
      match Home(homes, e)
      case R(r) => InReg(r)
      case Addr(_, o) => AtCell(sp + o)
      case Num(_) => AtCell(0)
  }

  ghost predicate Holds(s: ArmState, p: Place, v: int) {
    match p
    case InReg(r) => s.regs[r] == v
    case AtCell(a) => s.Cell(a) == v
  }

  /** A change of one place only, scratch registers and flags aside. */
  ghost predicate Effect(s: ArmState, s': ArmState, p: Place, v: int) {
    && s'.regs[SP] == s.regs[SP]
    && (forall r: RegNum :: r < SCRATCH && p != InReg(r) ==> s'.regs[r] == s.regs[r])
    && match p
       case InReg(r) => s'.regs[r] == v && s'.mem == s.mem
       case AtCell(a) => forall c: int :: s'.Cell(c) == if c == a then v else s.Cell(c)
  }

  /** Only scratch registers and flags differ. */
  ghost predicate ScratchOnly(s: ArmState, s': ArmState) {
    s'.mem == s.mem && s'.regs[SP] == s.regs[SP] && forall r: RegNum :: r < SCRATCH ==> s'.regs[r] == s.regs[r]
  }

  /** The operand's value, in the IR memory and where the operand lives. */
  ghost predicate OperandHolds(op: Operand, v: int, homes: Homes, s: ArmState, symbol: string -> int) {
    if op.Imm? then op.value == v else Holds(s, Where(op.entry, homes, s.regs[SP], symbol), v)
  }

  /** After fetching, the register holds the value; registers below keep still holds what an earlier fetch left
      there. */
  lemma FetchCorrect(op: Operand, v: int, homes: Homes, next: RegNum, s: ArmState, symbol: string -> int)
    requires HomesFit(homes) && PlacedOperand(op, homes) && SCRATCH <= next < SP - 1
    requires OperandHolds(op, v, homes, s, symbol)
    ensures var (ins, r, n) := Fetch(op, homes, next);
      && Plain(ins) && next <= n <= next + 1 && r < n
      && var s' := ExecArmAll(ins, s, symbol);
         s'.regs[r] == v && ScratchOnly(s, s') && s'.flags == s.flags
             && (forall q: RegNum :: q < next ==> s'.regs[q] == s.regs[q])
  {
    var (ins, r, n) := Fetch(op, homes, next);
    if ins != [] { ExecArmOne(ins[0], s, symbol); }
  }

  lemma DeliverCorrect(d: Entry, v: int, homes: Homes, from: RegNum, s: ArmState, symbol: string -> int)
    requires HomesFit(homes) && Placed(d, homes) && s.regs[from] == v && from != SP
    ensures var ins := Deliver(d, homes, from);
      Plain(ins) && Effect(s, ExecArmAll(ins, s, symbol), Where(d, homes, s.regs[SP], symbol), v)
  {
    ExecArmOne(Deliver(d, homes, from)[0], s, symbol);
  }

  /** A scratch change followed by the effect is the effect. */
  lemma ScratchThenEffect(s: ArmState, s1: ArmState, s2: ArmState, p: Place, v: int)
    requires ScratchOnly(s, s1) && Effect(s1, s2, p, v)
    ensures Effect(s, s2, p, v)
  {
  }

  lemma ScratchTrans(s: ArmState, s1: ArmState, s2: ArmState)
    requires ScratchOnly(s, s1) && ScratchOnly(s1, s2)
    ensures ScratchOnly(s, s2)
  {
  }

  lemma ScratchKeepsOperand(op: Operand, v: int, homes: Homes, s: ArmState, s1: ArmState, symbol: string -> int)
    requires HomesFit(homes) && PlacedOperand(op, homes) && OperandHolds(op, v, homes, s, symbol) && ScratchOnly(s, s1)
    ensures OperandHolds(op, v, homes, s1, symbol)
  {
  }

  /** Two operands, fetched into two registers at once. */
  lemma LowerTwoCorrect(a: Operand, b: Operand, x: int, y: int, homes: Homes, s: ArmState, symbol: string -> int)
    requires HomesFit(homes) && PlacedOperand(a, homes) && PlacedOperand(b, homes)
    requires OperandHolds(a, x, homes, s, symbol) && OperandHolds(b, y, homes, s, symbol)
    ensures var (ins, ra, rb, n) := LowerTwo(a, b, homes);
      && Plain(ins) && SCRATCH <= n <= SCRATCH + 2
      && var s' := ExecArmAll(ins, s, symbol);
         s'.regs[ra] == x && s'.regs[rb] == y && ScratchOnly(s, s')
  {
    hide Fetch;
    FetchCorrect(a, x, homes, SCRATCH, s, symbol);
    var (insA, ra, n1) := Fetch(a, homes, SCRATCH);
    var (insB, rb, n2) := Fetch(b, homes, n1);
    var s1 := ExecArmAll(insA, s, symbol);
    ScratchKeepsOperand(b, y, homes, s, s1, symbol);
    FetchCorrect(b, y, homes, n1, s1, symbol);
    ExecArmAppend(insA, insB, s, symbol);
    ScratchTrans(s, s1, ExecArmAll(insB, s1, symbol));
  }

  /** Operands fetched, one computation in scratch, result delivered. */
  lemma ComputeAndDeliver(fetch: seq<ArmInstr>, compute: seq<ArmInstr>, d: Entry, from: RegNum, v: int, homes: Homes,
                          s: ArmState, symbol: string -> int)
    requires HomesFit(homes) && Placed(d, homes) && Plain(fetch) && Plain(compute) && from != SP
    requires var s1 := ExecArmAll(fetch, s, symbol); var s2 := ExecArmAll(compute, s1, symbol);
      ScratchOnly(s, s1) && ScratchOnly(s1, s2) && s2.regs[from] == v
    ensures var ins := fetch + compute + Deliver(d, homes, from);
      Plain(ins) && Effect(s, ExecArmAll(ins, s, symbol), Where(d, homes, s.regs[SP], symbol), v)
  {
    var s1 := ExecArmAll(fetch, s, symbol);
    var s2 := ExecArmAll(compute, s1, symbol);
    ExecArmAppend(fetch, compute, s, symbol);
    DeliverCorrect(d, v, homes, from, s2, symbol);
    ExecArmAppend(fetch + compute, Deliver(d, homes, from), s, symbol);
    ScratchTrans(s, s1, s2);
    ScratchThenEffect(s, s2, ExecArmAll(Deliver(d, homes, from), s2, symbol), Where(d, homes, s.regs[SP], symbol), v);
  }

  // ----- Instruction by instruction -----

  lemma BinOpCorrect(i: Instr, x: int, y: int, v: int, homes: Homes, shift: int, s: ArmState, symbol: string -> int)
    requires i.BinOp? && HomesFit(homes) && Lowerable(i, homes)
    requires OperandHolds(i.op1, x, homes, s, symbol) && OperandHolds(i.op2, y, homes, s, symbol)
    requires BinOpValue(i.op, x, y) == Some(v)
    ensures Plain(Lower(i, homes, shift))
    ensures Effect(s, ExecArmAll(Lower(i, homes, shift), s, symbol), Where(i.dest, homes, s.regs[SP], symbol), v)
  {
    hide LowerTwo, BinOpValue;
    var (ins, ra, rb, n) := LowerTwo(i.op1, i.op2, homes);
    LowerTwoCorrect(i.op1, i.op2, x, y, homes, s, symbol);
    ExecArmOne(Arith(i.op, n, ra, rb), ExecArmAll(ins, s, symbol), symbol);
    ComputeAndDeliver(ins, [Arith(i.op, n, ra, rb)], i.dest, n, v, homes, s, symbol);
  }

  lemma CompareInScratch(a: ArmOperand, b: ArmOperand, d: RegNum, cc: ConditionCode, s: ArmState, symbol: string -> int)
    requires SCRATCH <= d < SP
    ensures var ins := [Cmp(a, b), Cset(d, cc)]; var s' := ExecArmAll(ins, s, symbol);
      && Plain(ins) && ScratchOnly(s, s') && s'.flags == (s.Value(a), s.Value(b))
      && s'.regs[d] == Bit(cc.Holds(s.Value(a), s.Value(b)))
  {
    ExecArmTwo(Cmp(a, b), Cset(d, cc), s, symbol);
  }

  lemma ICmpCorrect(i: Instr, x: int, y: int, homes: Homes, shift: int, s: ArmState, symbol: string -> int)
    requires i.ICmp? && HomesFit(homes) && Lowerable(i, homes)
    requires OperandHolds(i.op1, x, homes, s, symbol) && OperandHolds(i.op2, y, homes, s, symbol)
    ensures Plain(Lower(i, homes, shift))
    ensures Effect(s, ExecArmAll(Lower(i, homes, shift), s, symbol),
                   Where(i.dest, homes, s.regs[SP], symbol), Bit(i.cc.Holds(x, y)))
  {
    hide LowerTwo, ConditionCode.Holds, Deliver, Effect, Where, ExecArmAll, ScratchOnly, OperandHolds, HomesFit;
    var (ins, ra, rb, n) := LowerTwo(i.op1, i.op2, homes);
    LowerTwoCorrect(i.op1, i.op2, x, y, homes, s, symbol);
    CompareInScratch(R(ra), R(rb), n + 1, i.cc, ExecArmAll(ins, s, symbol), symbol);
    ComputeAndDeliver(ins, [Cmp(R(ra), R(rb)), Cset(n + 1, i.cc)], i.dest, n + 1, Bit(i.cc.Holds(x, y)), homes, s,
                      symbol);
  }

  /** The select leaves 1 or 0 in its destination, and in the flags the comparison of its condition with 1. */
  lemma SelectCorrect(i: Instr, x: int, homes: Homes, shift: int, s: ArmState, symbol: string -> int)
    requires i.Select? && HomesFit(homes) && Lowerable(i, homes) && OperandHolds(i.cond, x, homes, s, symbol)
    ensures Plain(Lower(i, homes, shift))
    ensures Effect(s, ExecArmAll(Lower(i, homes, shift), s, symbol), Where(i.dest, homes, s.regs[SP], symbol),
                   Bit(x == 1))
    ensures ExecArmAll(Lower(i, homes, shift), s, symbol).flags == (x, 1)
  {
    hide Fetch, Deliver, Effect, Where, ExecArmAll, ScratchOnly, OperandHolds, HomesFit;
    var (ins, rc, n) := Fetch(i.cond, homes, SCRATCH);
    FetchCorrect(i.cond, x, homes, SCRATCH, s, symbol);
    var s1 := ExecArmAll(ins, s, symbol);
    var compute := [Cmp(R(rc), Num(1)), Cset(n, EQ)];
    CompareInScratch(R(rc), Num(1), n, EQ, s1, symbol);
    ComputeAndDeliver(ins, compute, i.dest, n, Bit(x == 1), homes, s, symbol);
    DeliverKeepsFlags(i.dest, homes, n, ExecArmAll(compute, s1, symbol), symbol);
    ExecArmAppend(ins, compute, s, symbol);
    ExecArmAppend(ins + compute, Deliver(i.dest, homes, n), s, symbol);
  }

  lemma DeliverKeepsFlags(d: Entry, homes: Homes, from: RegNum, s: ArmState, symbol: string -> int)
    ensures Plain(Deliver(d, homes, from)) && ExecArmAll(Deliver(d, homes, from), s, symbol).flags == s.flags
  {
    ExecArmOne(Deliver(d, homes, from)[0], s, symbol);
  }

  lemma TruncCorrect(i: Instr, x: int, homes: Homes, shift: int, s: ArmState, symbol: string -> int)
    requires i.Trunc? && HomesFit(homes) && Lowerable(i, homes) && OperandHolds(i.val, x, homes, s, symbol)
    ensures Plain(Lower(i, homes, shift))
    ensures Effect(s, ExecArmAll(Lower(i, homes, shift), s, symbol), Where(i.dest, homes, s.regs[SP], symbol), x)
  {
    hide Fetch, Deliver;
    var (ins, rv, n) := Fetch(i.val, homes, SCRATCH);
    FetchCorrect(i.val, x, homes, SCRATCH, s, symbol);
    ComputeAndDeliver(ins, [], i.dest, rv, x, homes, s, symbol);
    assert ins + [] == ins;
  }

  lemma LoadCorrect(i: Instr, x: int, homes: Homes, shift: int, s: ArmState, symbol: string -> int)
    requires i.Load? && HomesFit(homes) && Lowerable(i, homes) && Delivered(i, homes, shift)
    requires Holds(s, Where(i.src, homes, s.regs[SP], symbol), x)
    ensures Plain(Lower(i, homes, shift))
    ensures Effect(s, ExecArmAll(Lower(i, homes, shift), s, symbol), Where(i.dest, homes, s.regs[SP], symbol), x)
  {
    hide Lower, ExecArmAll, Plain, Lowerable, HomesFit, Effect, Where, Holds;
    if !InRegister(homes, i.dest) {
      LoadIsInPlace(i, x, homes, shift, s, symbol);
    } else {
      LoadToRegister(i, x, homes, shift, s, symbol);
    }
  }

  /** A spilled variable loaded from its own slot holds the value already. */
  lemma LoadIsInPlace(i: Instr, x: int, homes: Homes, shift: int, s: ArmState, symbol: string -> int)
    requires i.Load? && HomesFit(homes) && Lowerable(i, homes) && !InRegister(homes, i.dest)
    requires !i.src.Global? && Home(homes, i.src) == Home(homes, i.dest)
    requires Holds(s, Where(i.src, homes, s.regs[SP], symbol), x)
    ensures Plain(Lower(i, homes, shift))
    ensures Effect(s, ExecArmAll(Lower(i, homes, shift), s, symbol), Where(i.dest, homes, s.regs[SP], symbol), x)
  {
    hide Lower, ExecArmAll, Plain, Lowerable, HomesFit;
    LoadIsLost(i, homes, shift, s, symbol);
    LoadDestIsLocal(i, homes);
  }

  lemma LoadDestIsLocal(i: Instr, homes: Homes)
    requires i.Load? && Lowerable(i, homes)
    ensures !i.dest.Global?
  {
  }

  lemma LoadToRegister(i: Instr, x: int, homes: Homes, shift: int, s: ArmState, symbol: string -> int)
    requires i.Load? && HomesFit(homes) && Lowerable(i, homes) && InRegister(homes, i.dest)
    requires Holds(s, Where(i.src, homes, s.regs[SP], symbol), x)
    ensures Plain(Lower(i, homes, shift))
    ensures Effect(s, ExecArmAll(Lower(i, homes, shift), s, symbol), Where(i.dest, homes, s.regs[SP], symbol), x)
  {
    hide ExecArmAll, Plain, Lower;
    var rd := Home(homes, i.dest).reg;
    LoadShape(i, homes, shift);
    if i.src.Global? {
      GlobalLoaded(rd, i.src.name, SCRATCH, s, symbol);
    } else if InRegister(homes, i.src) {
      ExecArmOne(Mov(rd, Home(homes, i.src)), s, symbol);
    } else {
      ExecArmOne(Ldr(rd, Home(homes, i.src)), s, symbol);
    }
  }

  lemma LoadShape(i: Instr, homes: Homes, shift: int)
    requires i.Load? && Lowerable(i, homes) && InRegister(homes, i.dest)
    ensures var rd := Home(homes, i.dest).reg;
      Lower(i, homes, shift) ==
        if i.src.Global? then GlobalLoad(rd, i.src.name, SCRATCH)
        else if InRegister(homes, i.src) then [Mov(rd, Home(homes, i.src))]
        else [Ldr(rd, Home(homes, i.src))]
  {
  }

  function GlobalLoad(rd: RegNum, g: string, next: RegNum): seq<ArmInstr> {
    [Adrp(next, g), AddLo12(next, g), Ldr(rd, R(next))]
  }

  lemma GlobalLoaded(rd: RegNum, g: string, next: RegNum, s: ArmState, symbol: string -> int)
    ensures Plain(GlobalLoad(rd, g, next))
    ensures ExecArmAll(GlobalLoad(rd, g, next), s, symbol) == s.Set(next, symbol(g)).Set(rd, s.Cell(symbol(g)))
  {
    hide ExecArmAll;
    AddressOfGlobal(next, g, s, symbol);
    ExecArmOne(Ldr(rd, R(next)), s.Set(next, symbol(g)), symbol);
    ExecArmAppend([Adrp(next, g), AddLo12(next, g)], [Ldr(rd, R(next))], s, symbol);
    assert [Adrp(next, g), AddLo12(next, g)] + [Ldr(rd, R(next))] == GlobalLoad(rd, g, next);
  }

  /** Into a spilled variable, a load only reaches a scratch register. */
  lemma LoadIsLost(i: Instr, homes: Homes, shift: int, s: ArmState, symbol: string -> int)
    requires i.Load? && HomesFit(homes) && Lowerable(i, homes) && !InRegister(homes, i.dest)
    ensures Plain(Lower(i, homes, shift)) && ScratchOnly(s, ExecArmAll(Lower(i, homes, shift), s, symbol))
  {
    hide ExecArmAll;
    var pre := Ldr(SCRATCH, Home(homes, i.dest));
    var s1 := ExecArm(pre, s, symbol);
    var rest := if i.src.Global? then GlobalLoad(SCRATCH, i.src.name, SCRATCH + 1)
                else if InRegister(homes, i.src) then [Mov(SCRATCH, Home(homes, i.src))]
                else [Ldr(SCRATCH, Home(homes, i.src))];
    assert [pre] + rest == Lower(i, homes, shift);
    ExecArmOne(pre, s, symbol);
    if i.src.Global? {
      GlobalLoaded(SCRATCH, i.src.name, SCRATCH + 1, s1, symbol);
    } else {
      ExecArmOne(rest[0], s1, symbol);
    }
    ExecArmAppend([pre], rest, s, symbol);
  }

  lemma StoreLocalCorrect(i: Instr, x: int, homes: Homes, shift: int, s: ArmState, symbol: string -> int)
    requires i.Store? && !i.dst.Global? && HomesFit(homes) && Lowerable(i, homes) && Delivered(i, homes, shift)
    requires OperandHolds(i.val, x, homes, s, symbol)
    ensures Plain(Lower(i, homes, shift))
    ensures Effect(s, ExecArmAll(Lower(i, homes, shift), s, symbol), Where(i.dst, homes, s.regs[SP], symbol), x)
  {
    hide ExecArmAll;
    if !InRegister(homes, i.dst) {
      SpilledStore(i, x, homes, shift, s, symbol);
    } else if i.val.Reg? && !InRegister(homes, i.val.entry) {
      StoreOfSpilled(i, homes, shift);
      ExecArmOne(Ldr(Home(homes, i.dst).reg, Home(homes, i.val.entry)), s, symbol);
    } else {
      StoreFetched(i, homes, shift);
      FetchedStore(i, x, homes, s, symbol);
    }
  }

  lemma StoreOfSpilled(i: Instr, homes: Homes, shift: int)
    requires i.Store? && !i.dst.Global? && InRegister(homes, i.dst) && Lowerable(i, homes) && Delivered(i, homes, shift)
    requires i.val.Reg? && !InRegister(homes, i.val.entry)
    ensures Lower(i, homes, shift) == [Ldr(Home(homes, i.dst).reg, Home(homes, i.val.entry))]
  {
  }

  lemma StoreFetched(i: Instr, homes: Homes, shift: int)
    requires i.Store? && !i.dst.Global? && InRegister(homes, i.dst) && Lowerable(i, homes)
    requires i.val.Reg? ==> InRegister(homes, i.val.entry)
    ensures var (ins, rv, _) := Fetch(i.val, homes, SCRATCH);
      Lower(i, homes, shift) == ins + [Mov(Home(homes, i.dst).reg, R(rv))]
  {
    hide Fetch;
  }

  lemma FetchedStore(i: Instr, x: int, homes: Homes, s: ArmState, symbol: string -> int)
    requires i.Store? && !i.dst.Global? && InRegister(homes, i.dst) && HomesFit(homes) && Lowerable(i, homes)
    requires OperandHolds(i.val, x, homes, s, symbol)
    ensures var (ins, rv, _) := Fetch(i.val, homes, SCRATCH); var code := ins + [Mov(Home(homes, i.dst).reg, R(rv))];
      Plain(code) && Effect(s, ExecArmAll(code, s, symbol), Where(i.dst, homes, s.regs[SP], symbol), x)
  {
    hide Fetch, Deliver, ExecArmAll, Effect, Where;
    var (ins, rv, n) := Fetch(i.val, homes, SCRATCH);
    FetchCorrect(i.val, x, homes, SCRATCH, s, symbol);
    DeliverToRegister(i.dst, homes, rv);
    NothingMore(ExecArmAll(ins, s, symbol), symbol);
    ComputeAndDeliver(ins, [], i.dst, rv, x, homes, s, symbol);
    assert ins + [] + Deliver(i.dst, homes, rv) == ins + [Mov(Home(homes, i.dst).reg, R(rv))];
  }

  lemma NothingMore(s: ArmState, symbol: string -> int)
    ensures Plain([]) && ExecArmAll([], s, symbol) == s && ScratchOnly(s, s)
  {
  }

  /** An immediate reaches a spilled variable, since it is moved to the very register that is stored. */
  lemma SpilledStore(i: Instr, x: int, homes: Homes, shift: int, s: ArmState, symbol: string -> int)
    requires i.Store? && !i.dst.Global? && HomesFit(homes) && Lowerable(i, homes) && !InRegister(homes, i.dst)
    requires i.val.Imm? && i.val.value == x
    ensures Plain(Lower(i, homes, shift))
    ensures Effect(s, ExecArmAll(Lower(i, homes, shift), s, symbol), Where(i.dst, homes, s.regs[SP], symbol), x)
  {
    hide ExecArmAll;
    var mov, str := Mov(SCRATCH, Num(x)), Str(SCRATCH, Home(homes, i.dst));
    assert Lower(i, homes, shift) == [mov, str];
    ExecArmTwo(mov, str, s, symbol);
  }

  lemma DeliverToRegister(d: Entry, homes: Homes, from: RegNum)
    requires InRegister(homes, d)
    ensures Deliver(d, homes, from) == [Mov(Home(homes, d).reg, R(from))]
  {
  }

  lemma StoreGlobalCorrect(i: Instr, x: int, homes: Homes, shift: int, s: ArmState, symbol: string -> int)
    requires i.Store? && i.dst.Global? && HomesFit(homes) && Lowerable(i, homes) && Delivered(i, homes, shift)
    requires OperandHolds(i.val, x, homes, s, symbol)
    ensures Plain(Lower(i, homes, shift))
    ensures Effect(s, ExecArmAll(Lower(i, homes, shift), s, symbol), Where(i.dst, homes, s.regs[SP], symbol), x)
  {
    hide Fetch;
    var g := i.dst.name;
    var address := [Adrp(SCRATCH, g), AddLo12(SCRATCH, g)];
    AddressOfGlobal(SCRATCH, g, s, symbol);
    var s1 := s.Set(SCRATCH, symbol(g));
    ScratchKeepsOperand(i.val, x, homes, s, s1, symbol);
    var (ins, rv, n) := Fetch(i.val, homes, SCRATCH + 1);
    FetchCorrect(i.val, x, homes, SCRATCH + 1, s1, symbol);
    var s2 := ExecArmAll(ins, s1, symbol);
    var str := Str(rv, R(SCRATCH));
    ExecArmOne(str, s2, symbol);
    ExecArmAppend(address, ins, s, symbol);
    ExecArmAppend(address + ins, [str], s, symbol);
    ScratchTrans(s, s1, s2);
    ScratchThenEffect(s, s2, ExecArm(str, s2, symbol), AtCell(symbol(g)), x);
  }

  // ----- All of them -----

  function Dest(i: Instr): Option<Entry> {
    match i
    case BinOp(d, _, _, _) => Some(d)
    case ICmp(d, _, _, _) => Some(d)
    case Select(d, _, _, _) => Some(d)
    case Trunc(d, _) => Some(d)
    case Load(d, _) => Some(d)
    case Store(_, d) => Some(d)
    case _ => None
  }

  function OperandEntries(op: Operand): set<Entry> { if op.Reg? then {op.entry} else {} }

  /** The entries whose values the instruction reads. */
  function Reads(i: Instr): set<Entry> {
    match i
    case BinOp(_, _, a, b) => OperandEntries(a) + OperandEntries(b)
    case ICmp(_, _, a, b) => OperandEntries(a) + OperandEntries(b)
    case Select(_, c, _, _) => OperandEntries(c)
    case Trunc(_, v) => OperandEntries(v)
    case Load(_, s) => {s}
    case Store(v, _) => OperandEntries(v)
    case BrCond(c, _, _, _) => OperandEntries(c)
    case Ret(v) => OperandEntries(v)
    case _ => {}
  }

  /** The globals the instruction names. */
  ghost function GlobalNames(i: Instr): set<string> {
    (set e | e in Reads(i) && e.Global? :: e.name)
    + (if Dest(i).Some? && Dest(i).value.Global? then {Dest(i).value.name} else {})
  }

  /** Every entry read has a value, and it is where the entry lives. */
  ghost predicate ReadsHold(i: Instr, m: IrMem, homes: Homes, s: ArmState, symbol: string -> int) {
    forall e <- Reads(i) :: m.Get(e).Some? && Holds(s, Where(e, homes, s.regs[SP], symbol), m.Get(e).value)
  }

  /** A truncation of a truth value, which changes nothing. */
  ghost predicate TruncsTruth(i: Instr, m: IrMem) {
    i.Trunc? && m.Val(i.val).Some? ==> IsBit(m.Val(i.val).value)
  }

  /** If the IR instruction takes m to m', the lowered code writes the new value of the destination to its place. */
  lemma LowerCorrect(i: Instr, m: IrMem, m': IrMem, homes: Homes, shift: int, s: ArmState, symbol: string -> int,
                     w: World)
    requires HomesFit(homes) && Lowerable(i, homes) && Delivered(i, homes, shift)
    requires ReadsHold(i, m, homes, s, symbol) && TruncsTruth(i, m)
    requires !i.IsTerminator() && Exec(i, m, w) == Some(m')
    ensures Plain(Lower(i, homes, shift))
    ensures Dest(i) == None ==> m' == m && ExecArmAll(Lower(i, homes, shift), s, symbol) == s
    ensures Dest(i).Some? ==> var d := Dest(i).value;
      && m'.Get(d).Some? && m' == m.Set(d, m'.Get(d).value)
      && Effect(s, ExecArmAll(Lower(i, homes, shift), s, symbol), Where(d, homes, s.regs[SP], symbol), m'.Get(d).value)
  {
    hide Lower, Lowerable, Delivered, Effect, Where, BinOpValue, Basic;
    assert !i.Alloca? ==> Dest(i).Some? by { OnlyAllocaHasNone(i); }
    hide ExecArmAll, Plain, OperandHolds, Holds;
    match i
    case BinOp(d, op, a, b) => BinOpCorrect(i, m.Val(a).value, m.Val(b).value, m'.Get(d).value, homes, shift, s,
                                            symbol);
    case ICmp(_, _, a, b) => ICmpCorrect(i, m.Val(a).value, m.Val(b).value, homes, shift, s, symbol);
    case Select(_, c, _, _) =>
      SelectShape(i, homes);
      SelectCorrect(i, m.Val(c).value, homes, shift, s, symbol);
    case Trunc(_, v) => TruncCorrect(i, m.Val(v).value, homes, shift, s, symbol);
    case Load(_, src) => LoadCorrect(i, m.Get(src).value, homes, shift, s, symbol);
    case Store(v, d) =>
      if d.Global? {
        StoreGlobalCorrect(i, m.Val(v).value, homes, shift, s, symbol);
      } else {
        StoreLocalCorrect(i, m.Val(v).value, homes, shift, s, symbol);
      }
    case Alloca(_) => AllocaLowersToNothing(i, homes, shift);
    case _ =>
  }

  lemma OnlyAllocaHasNone(i: Instr)
    requires Basic(i)
    ensures i.BinOp? || i.ICmp? || i.Select? || i.Trunc? || i.Load? || i.Store? || i.Alloca?
  {
  }

  lemma SelectShape(i: Instr, homes: Homes)
    requires i.Select? && Lowerable(i, homes)
    ensures i.val1.Imm? && i.val1.value == 1 && i.val2.Imm? && i.val2.value == 0
  {
  }

  lemma AllocaLowersToNothing(i: Instr, homes: Homes, shift: int)
    requires i.Alloca? && Lowerable(i, homes)
    ensures Lower(i, homes, shift) == []
  {
  }
}
