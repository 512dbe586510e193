/** The sequence emitted for a call whose result is kept: registers are saved, arguments passed, the result fetched
    through x16, and the registers restored. */
module Calls {
  import opened Words
  import opened Ir
  import opened Arm
  import opened ArmRuns
  import opened Lowering
  import opened LoweringCorrect
  import opened LinearScan
  import opened BlockSimulation
  import opened FrameLayout

  type Saves = map<int, ArmOperand>

  /** The registers saved around a call, in order. */
  const SAVED: seq<RegNum> :=
    [0, 1, 2, 3, 4, 5, 6, 7, 8, 9, 10, 11, 12, 13, 14, 15, 19, 20, 21, 22, 23, 24, 25, 26, 27, 28]

  /** Holds the result while the registers are restored. */
  const RESULT: RegNum := 16

  const REGISTER_ARGS := 8

  predicate SavedCell(saves: Saves, r: RegNum) {
    r in saves && saves[r].Addr? && saves[r].base == SP
  }

  function SaveAddr(saves: Saves, r: RegNum): ArmOperand {
    if r in saves then saves[r] else Addr(SP, 0)
  }

  function SaveOffset(saves: Saves, r: RegNum): int {
    if SaveAddr(saves, r).Addr? then SaveAddr(saves, r).offset else 0
  }

  ghost predicate CellsApart(rs: seq<RegNum>, saves: Saves) {
    && (forall r <- rs :: SavedCell(saves, r))
    && (forall r <- rs, q <- rs :: r != q ==> SaveOffset(saves, r) != SaveOffset(saves, q))
  }

  /** Every saved register has a cell of its own. */
  ghost predicate GoodSaves(saves: Saves) { CellsApart(SAVED, saves) }

  function CellOf(saves: Saves, r: RegNum, sp: int): int { sp + SaveOffset(saves, r) }

  function StoreRegs(rs: seq<RegNum>, saves: Saves): (ins: seq<ArmInstr>)
    ensures Plain(ins)
  {
    if rs == [] then [] else StoreRegs(rs[..|rs| - 1], saves) + [Str(rs[|rs| - 1], SaveAddr(saves, rs[|rs| - 1]))]
  }

  function LoadRegs(rs: seq<RegNum>, saves: Saves): (ins: seq<ArmInstr>)
    ensures Plain(ins)
  {
    if rs == [] then [] else LoadRegs(rs[..|rs| - 1], saves) + [Ldr(rs[|rs| - 1], SaveAddr(saves, rs[|rs| - 1]))]
  }

  /** Argument n goes to register n. */
  function PassArg(op: Operand, homes: Homes, n: RegNum): ArmInstr {
    if op.Imm? then Mov(n, Num(op.value))
    else if InRegister(homes, op.entry) then Mov(n, Home(homes, op.entry))
    else Ldr(n, Home(homes, op.entry))
  }

  function PassArgs(args: seq<Operand>, homes: Homes): (ins: seq<ArmInstr>)
    requires |args| <= REGISTER_ARGS
    ensures Plain(ins)
  {
    if args == [] then [] else PassArgs(args[..|args| - 1], homes) + [PassArg(args[|args| - 1], homes, |args| - 1)]
  }

  /** A call with at most eight arguments needs no stack space for them, but adjusts the stack pointer all the same. */
  function LowerCall(rd: RegNum, name: string, args: seq<Operand>, homes: Homes, saves: Saves): seq<ArmInstr>
    requires |args| <= REGISTER_ARGS
  {
    EnterCall(args, homes, saves) + [Bl(name)] + LeaveCall(rd, saves)
  }

  function EnterCall(args: seq<Operand>, homes: Homes, saves: Saves): (ins: seq<ArmInstr>)
    requires |args| <= REGISTER_ARGS
    ensures Plain(ins)
  {
    StoreRegs(SAVED, saves) + PassArgs(args, homes) + [SubImm(SP, SP, 0)]
  }

  function LeaveCall(rd: RegNum, saves: Saves): (ins: seq<ArmInstr>)
    ensures Plain(ins)
  {
    [AddImm(SP, SP, 0), Mov(RESULT, R(0))] + LoadRegs(SAVED, saves) + [Mov(rd, R(RESULT))]
  }

  /** The state the callee starts in. */
  function StateAtCall(args: seq<Operand>, homes: Homes, saves: Saves, s: ArmState, symbol: string -> int): ArmState
    requires |args| <= REGISTER_ARGS
  {
    ExecArmAll(EnterCall(args, homes, saves), s, symbol)
  }

  // ----- Saving and restoring -----

  ghost predicate Stored(rs: seq<RegNum>, saves: Saves, s: ArmState, s': ArmState) {
    && s'.regs == s.regs
    && (forall r <- rs :: s'.Cell(CellOf(saves, r, s.regs[SP])) == s.regs[r])
    && (forall a :: (forall r <- rs :: a != CellOf(saves, r, s.regs[SP])) ==> s'.Cell(a) == s.Cell(a))
  }

  lemma {:induction false} StoreRegsStores(rs: seq<RegNum>, saves: Saves, s: ArmState, symbol: string -> int)
    requires CellsApart(rs, saves)
    ensures Stored(rs, saves, s, ExecArmAll(StoreRegs(rs, saves), s, symbol))
    decreases |rs|
  {
    if rs != [] {
      var front, last := rs[..|rs| - 1], rs[|rs| - 1];
      assert rs == front + [last];
      StoreRegsStores(front, saves, s, symbol);
      var str := Str(last, SaveAddr(saves, last));
      var s1 := ExecArmAll(StoreRegs(front, saves), s, symbol);
      ExecArmOne(str, s1, symbol);
      ExecArmAppend(StoreRegs(front, saves), [str], s, symbol);
      StoreOneMore(rs, saves, s, s1, last);
    }
  }

  lemma StoreOneMore(rs: seq<RegNum>, saves: Saves, s: ArmState, s1: ArmState, last: RegNum)
    requires CellsApart(rs, saves) && rs != [] && last == rs[|rs| - 1] && Stored(rs[..|rs| - 1], saves, s, s1)
    ensures Stored(rs, saves, s, s1.Put(CellOf(saves, last, s.regs[SP]), s.regs[last]))
  {
    var front := rs[..|rs| - 1];
    var s2 := s1.Put(CellOf(saves, last, s.regs[SP]), s.regs[last]);
    assert rs == front + [last];
    assert forall r <- front :: r in rs;
    assert last in rs;
    forall r <- rs ensures s2.Cell(CellOf(saves, r, s.regs[SP])) == s.regs[r] {
      assert r in front || r == last;
    }
  }

  lemma {:induction false} LoadRegsLoads(rs: seq<RegNum>, saves: Saves, s: ArmState, symbol: string -> int)
    requires forall r <- rs :: SavedCell(saves, r) && r != SP
    ensures var s' := ExecArmAll(LoadRegs(rs, saves), s, symbol);
      && s'.mem == s.mem
      && (forall r: RegNum :: r !in rs ==> s'.regs[r] == s.regs[r])
      && (forall r <- rs :: s'.regs[r] == s.Cell(CellOf(saves, r, s.regs[SP])))
    decreases |rs|
  {
    if rs != [] {
      var front, last := rs[..|rs| - 1], rs[|rs| - 1];
      assert rs == front + [last];
      LoadRegsLoads(front, saves, s, symbol);
      var ldr := Ldr(last, SaveAddr(saves, last));
      var s1 := ExecArmAll(LoadRegs(front, saves), s, symbol);
      ExecArmOne(ldr, s1, symbol);
      ExecArmAppend(LoadRegs(front, saves), [ldr], s, symbol);
      assert forall r: RegNum :: r in rs <==> r in front || r == last;
      assert last in rs;
    }
  }

  // ----- Arguments -----

  /** Arguments live above the argument registers, on the stack, or are immediates: none is a raw parameter. */
  ghost predicate GoodArgs(args: seq<Operand>, homes: Homes) {
    && HomesFit(homes) && |args| <= REGISTER_ARGS
    && forall op <- args :: PlacedOperand(op, homes)
        && (op.Reg? && InRegister(homes, op.entry) ==> Home(homes, op.entry).reg >= REGISTER_ARGS)
  }

  function ArgValue(op: Operand, homes: Homes, s: ArmState): int {
    if op.Imm? then op.value
    else
      match Home(homes, op.entry)
      case R(r) => s.regs[r]
      case Addr(b, o) => s.Cell(s.regs[b] + o)
      case Num(v) => v
  }

  lemma {:induction false} PassArgsPasses(args: seq<Operand>, homes: Homes, s: ArmState, symbol: string -> int)
    requires GoodArgs(args, homes)
    ensures var s' := ExecArmAll(PassArgs(args, homes), s, symbol);
      && s'.mem == s.mem && (forall r: RegNum :: r >= |args| ==> s'.regs[r] == s.regs[r])
      && forall n :: 0 <= n < |args| ==> s'.regs[n] == ArgValue(args[n], homes, s)
    decreases |args|
  {
    hide PassArg, ArgValue, ExecArm;
    if args != [] {
      var front, n := args[..|args| - 1], |args| - 1;
      assert forall op <- front :: op in args;
      PassArgsPasses(front, homes, s, symbol);
      var pass := PassArg(args[n], homes, n);
      var s1 := ExecArmAll(PassArgs(front, homes), s, symbol);
      PassOne(args, n, homes, s, s1, symbol);
      ExecArmOne(pass, s1, symbol);
      ExecArmAppend(PassArgs(front, homes), [pass], s, symbol);
    }
  }

  /** With only earlier argument registers changed, the next argument is still where it was. */
  lemma PassOne(args: seq<Operand>, n: nat, homes: Homes, s: ArmState, s1: ArmState, symbol: string -> int)
    requires GoodArgs(args, homes) && n < |args| && s1.mem == s.mem && forall r: RegNum :: r >= n ==>
        s1.regs[r] == s.regs[r]
    ensures PassArg(args[n], homes, n).IsPlain()
    ensures ExecArm(PassArg(args[n], homes, n), s1, symbol) == s1.Set(n, ArgValue(args[n], homes, s))
  {
    assert args[n] in args;
  }

  // ----- The whole call -----

  /** What a callee leaves alone: the stack pointer and the cells the caller saved its registers in. It may change every
      other register and everything else in memory. */
  ghost predicate CalleeKeeps(saves: Saves, s: ArmState, s': ArmState) {
    && s'.regs[SP] == s.regs[SP]
    && forall r <- SAVED :: s'.Cell(CellOf(saves, r, s.regs[SP])) == s.Cell(CellOf(saves, r, s.regs[SP]))
  }

  /** An argument kept on the stack lies outside the cells registers are saved in. */
  ghost predicate ArgsApart(args: seq<Operand>, homes: Homes, saves: Saves) {
    forall op <- args, r <- SAVED :: op.Reg? && Home(homes, op.entry).Addr? ==>
      Home(homes, op.entry).offset != SaveOffset(saves, r)
  }

  lemma SpIsNotSaved()
    ensures forall r <- SAVED :: r != SP && r != RESULT
  {
  }

  /** Up to the call: arguments are in place, and the saved registers are in their cells. */
  lemma BeforeCall(args: seq<Operand>, homes: Homes, saves: Saves, s: ArmState, symbol: string -> int)
    requires GoodSaves(saves) && GoodArgs(args, homes) && ArgsApart(args, homes, saves)
    ensures var s1 := StateAtCall(args, homes, saves, s, symbol);
      && s1.regs[SP] == s.regs[SP]
      && (forall n :: 0 <= n < |args| ==> s1.regs[n] == ArgValue(args[n], homes, s))
      && (forall r <- SAVED :: s1.Cell(CellOf(saves, r, s.regs[SP])) == s.regs[r])
  {
    hide StoreRegs, PassArgs, ArgValue;
    StoreRegsStores(SAVED, saves, s, symbol);
    var s1 := ExecArmAll(StoreRegs(SAVED, saves), s, symbol);
    PassArgsPasses(args, homes, s1, symbol);
    var s2 := ExecArmAll(PassArgs(args, homes), s1, symbol);
    ExecArmOne(SubImm(SP, SP, 0), s2, symbol);
    assert s2.regs[SP := s2.regs[SP]] == s2.regs;
    ExecArmAppend(StoreRegs(SAVED, saves), PassArgs(args, homes), s, symbol);
    ExecArmAppend(StoreRegs(SAVED, saves) + PassArgs(args, homes), [SubImm(SP, SP, 0)], s, symbol);
    forall n | 0 <= n < |args| ensures ArgValue(args[n], homes, s1) == ArgValue(args[n], homes, s) {
      assert args[n] in args;
      SavingKeepsArg(args, n, homes, saves, s, s1);
    }
  }

  lemma SavingKeepsArg(args: seq<Operand>, n: nat, homes: Homes, saves: Saves, s: ArmState, s1: ArmState)
    requires GoodSaves(saves) && GoodArgs(args, homes) && ArgsApart(args, homes, saves) && n < |args|
    requires Stored(SAVED, saves, s, s1)
    ensures ArgValue(args[n], homes, s1) == ArgValue(args[n], homes, s)
  {
    hide SAVED;
    var op := args[n];
    assert op in args;
    if op.Reg? && Home(homes, op.entry).Addr? {
      var a := s.regs[SP] + Home(homes, op.entry).offset;
      assert forall r <- SAVED :: a != CellOf(saves, r, s.regs[SP]);
    }
  }

  /** After the call: the result is in its register and every other saved register is what its cell says. */
  lemma AfterCall(rd: RegNum, saves: Saves, s: ArmState, symbol: string -> int)
    requires GoodSaves(saves) && rd != SP
    ensures var s' := ExecArmAll(LeaveCall(rd, saves), s, symbol);
      && s'.regs[SP] == s.regs[SP] && s'.mem == s.mem && s'.regs[rd] == s.regs[0]
      && forall r <- SAVED :: r != rd ==> s'.regs[r] == s.Cell(CellOf(saves, r, s.regs[SP]))
  {
    hide LoadRegs;
    SpIsNotSaved();
    var fetch := [AddImm(SP, SP, 0), Mov(RESULT, R(0))];
    ExecArmTwo(fetch[0], fetch[1], s, symbol);
    var s1 := ExecArmAll(fetch, s, symbol);
    LoadRegsLoads(SAVED, saves, s1, symbol);
    var s2 := ExecArmAll(LoadRegs(SAVED, saves), s1, symbol);
    ExecArmOne(Mov(rd, R(RESULT)), s2, symbol);
    ExecArmAppend(fetch, LoadRegs(SAVED, saves), s, symbol);
    ExecArmAppend(fetch + LoadRegs(SAVED, saves), [Mov(rd, R(RESULT))], s, symbol);
  }

  /** A call with at most eight arguments is transparent: argument n arrives in register n, and whatever the callee does
      to the other registers, the destination then holds the result and every other saved register is unchanged. */
  lemma CallIsTransparent(rd: RegNum, name: string, args: seq<Operand>, homes: Homes, saves: Saves,
                          code: seq<ArmInstr>, at: nat, s: ArmState, env: Env)
    returns (s': ArmState, n: nat)
    requires GoodSaves(saves) && GoodArgs(args, homes) && ArgsApart(args, homes, saves) && rd != SP
    requires var placed := LowerCall(rd, name, args, homes, saves);
      at + |placed| <= |code| && code[at..at + |placed|] == placed
    requires var atCall := StateAtCall(args, homes, saves, s, env.symbol);
      CalleeKeeps(saves, atCall, env.call(name, atCall))
    ensures var atCall := StateAtCall(args, homes, saves, s, env.symbol);
      && (forall k :: 0 <= k < |args| ==> atCall.regs[k] == ArgValue(args[k], homes, s))
      && s'.regs[rd] == env.call(name, atCall).regs[0]
    ensures ArmRun(code, At(at, s), env, n) == At(at + |LowerCall(rd, name, args, homes, saves)|, s')
    ensures s'.regs[SP] == s.regs[SP]
    ensures forall r: RegNum :: (r <= 15 || 19 <= r <= 28) && r != rd ==> s'.regs[r] == s.regs[r]
  {
    hide EnterCall, LeaveCall, ArgValue, ExecArmAll, ArgsApart;
    SavedAreThese();
    var pre, post := EnterCall(args, homes, saves), LeaveCall(rd, saves);
    BeforeCall(args, homes, saves, s, env.symbol);
    var atCall := ExecArmAll(pre, s, env.symbol);
    assert atCall == StateAtCall(args, homes, saves, s, env.symbol);
    var back := env.call(name, atCall);
    AfterCall(rd, saves, back, env.symbol);
    s' := ExecArmAll(post, back, env.symbol);
    n := RunAroundCall(code, at, pre, name, post, s, env);
  }

  /** Every register but x16 to x18, x29 and x30 is saved. */
  lemma SavedAreThese()
    ensures forall r: RegNum :: r in SAVED <==> r <= 15 || 19 <= r <= 28
  {
    forall r: RegNum | r <= 15 || 19 <= r <= 28 ensures r in SAVED { SavedAt(if r <= 15 then r else r - 3); }
  }

  lemma RunAroundCall(code: seq<ArmInstr>, at: nat, pre: seq<ArmInstr>, name: string, post: seq<ArmInstr>, s: ArmState,
                      env: Env)
    returns (n: nat)
    requires Plain(pre) && Plain(post)
    requires var placed := pre + [Bl(name)] + post; at + |placed| <= |code| && code[at..at + |placed|] == placed
    ensures ArmRun(code, At(at, s), env, n) ==
            At(at + |pre + [Bl(name)] + post|, ExecArmAll(post, env.call(name, ExecArmAll(pre, s, env.symbol)),
                                                          env.symbol))
  {
    var placed := pre + [Bl(name)] + post;
    var k := at + |pre|;
    assert code[at..k] == pre by { assert placed[..|pre|] == pre; }
    assert code[k] == placed[|pre|] == Bl(name);
    assert code[k + 1..k + 1 + |post|] == post by { assert placed[|pre| + 1..] == post; }
    var s1 := ExecArmAll(pre, s, env.symbol);
    RunPlain(code, at, pre, s, env);
    OneArmStep(code, At(k, s1), env);
    RunPlain(code, k + 1, post, env.call(name, s1), env);
    ArmRunAdd(code, At(k, s1), env, 1, |post|);
    n := |pre| + (1 + |post|);
    ArmRunAdd(code, At(at, s), env, |pre|, 1 + |post|);
  }

  // ----- As it runs -----

  /** The emission loops: 0 to 15 and 19 to 28 both before and after, and one pass over the arguments. */
  method AssembleCall(i: Instr, f: ArmFunction) returns (ins: seq<ArmInstr>)
    requires i.CallAssign? && (forall r: RegNum :: IsSaved(r) ==> r in f.savedAddresses) && |i.args| <= REGISTER_ARGS
    requires InRegister(f.varLocations, i.dest)
    ensures ins == LowerCall(Home(f.varLocations, i.dest).reg, i.func, i.args, f.varLocations, f.savedAddresses)
  {
    var saves := f.savedAddresses;
    ins := StoreSaved(saves);
    var pass := [];
    for n := 0 to |i.args|
      invariant pass == PassArgs(i.args[..n], f.varLocations)
    {
      assert i.args[..n + 1][..n] == i.args[..n];
      pass := pass + [PassArg(i.args[n], f.varLocations, n)];
    }
    assert i.args[..|i.args|] == i.args;
    ins := ins + pass;
    ins := ins + [SubImm(SP, SP, 0)];
    ins := ins + [Bl(i.func)];
    var restore := LoadSaved(saves);
    var rd := Home(f.varLocations, i.dest).reg;
    ins := ins + ([AddImm(SP, SP, 0), Mov(RESULT, R(0))] + restore + [Mov(rd, R(RESULT))]);
  }

  lemma SavedAt(k: nat)
    requires k < 26
    ensures |SAVED| == 26 && SAVED[k] == (if k < 16 then k else k + 3) && SAVED[k] in SAVED
  {
  }

  lemma OneMore(rs: seq<RegNum>, k: nat, saves: Saves)
    requires k < |rs|
    ensures StoreRegs(rs[..k + 1], saves) == StoreRegs(rs[..k], saves) + [Str(rs[k], SaveAddr(saves, rs[k]))]
    ensures LoadRegs(rs[..k + 1], saves) == LoadRegs(rs[..k], saves) + [Ldr(rs[k], SaveAddr(saves, rs[k]))]
  {
    assert rs[..k + 1][..k] == rs[..k];
  }

  lemma NoneAndAll(saves: Saves)
    ensures StoreRegs(SAVED[..0], saves) == [] && LoadRegs(SAVED[..0], saves) == []
    ensures SAVED[..26] == SAVED
  {
    assert SAVED[..0] == [];
  }

  method StoreSaved(saves: Saves) returns (ins: seq<ArmInstr>)
    requires forall r: RegNum :: IsSaved(r) ==> r in saves
    ensures ins == StoreRegs(SAVED, saves)
  {
    hide SAVED, StoreRegs;
    NoneAndAll(saves);
    ins := [];
    SavedAt(0);
    for r := 0 to 16
      invariant ins == StoreRegs(SAVED[..r], saves)
    {
      SavedAt(r);
      OneMore(SAVED, r, saves);
      ins := ins + [Str(r, saves[r])];
    }
    for r := 19 to 29
      invariant ins == StoreRegs(SAVED[..r - 3], saves)
    {
      SavedAt(r - 3);
      OneMore(SAVED, r - 3, saves);
      ins := ins + [Str(r, saves[r])];
    }
  }

  method LoadSaved(saves: Saves) returns (ins: seq<ArmInstr>)
    requires forall r: RegNum :: IsSaved(r) ==> r in saves
    ensures ins == LoadRegs(SAVED, saves)
  {
    hide SAVED, LoadRegs;
    NoneAndAll(saves);
    ins := [];
    SavedAt(0);
    for r := 0 to 16
      invariant ins == LoadRegs(SAVED[..r], saves)
    {
      SavedAt(r);
      OneMore(SAVED, r, saves);
      ins := ins + [Ldr(r, saves[r])];
    }
    for r := 19 to 29
      invariant ins == LoadRegs(SAVED[..r - 3], saves)
    {
      SavedAt(r - 3);
      OneMore(SAVED, r - 3, saves);
      ins := ins + [Ldr(r, saves[r])];
    }
  }

  /** The frame gives every saved register a cell of its own, apart from the spilled variables. */
  lemma FrameSavesWell(frame: Frame, size: int, saves: Saves)
    requires Disjoint(frame, 16, size) && forall r :: IsSaved(r) ==>
        SaveOf(r) in frame && r in saves && saves[r] == Addr(SP, frame[SaveOf(r)])
    ensures GoodSaves(saves)
    ensures forall v: Entry, r <- SAVED :: SpillOf(v) in frame ==> frame[SpillOf(v)] != SaveOffset(saves, r)
  {
    assert forall r <- SAVED :: IsSaved(r);
  }

  /** In a frame laid out for allocated variables, every call with at most eight arguments that are variables or
      immediates
      is transparent, as long as the callee keeps the stack pointer and the cells of the frame. */
  lemma FrameCallIsTransparent(i: Instr, frame: Frame, size: int, saves: Saves, homes: Homes,
                               registers: map<Entry, int>, locations: map<Entry, int>,
                               code: seq<ArmInstr>, at: nat, s: ArmState, env: Env)
    returns (s': ArmState, n: nat)
    requires LaidOut(frame, size, saves, homes, registers, locations)
    requires i.CallAssign? && |i.args| <= REGISTER_ARGS && Placed(i.dest, homes) && InRegister(homes, i.dest)
    requires forall op <- i.args :: PlacedOperand(op, homes)
    requires var placed := LowerCall(Home(homes, i.dest).reg, i.func, i.args, homes, saves);
      at + |placed| <= |code| && code[at..at + |placed|] == placed
    requires var atCall := StateAtCall(i.args, homes, saves, s, env.symbol);
      FrameKept(frame, atCall, env.call(i.func, atCall))
    ensures var rd := Home(homes, i.dest).reg; var atCall := StateAtCall(i.args, homes, saves, s, env.symbol);
      && (forall k :: 0 <= k < |i.args| ==> atCall.regs[k] == ArgValue(i.args[k], homes, s))
      && ArmRun(code, At(at, s), env, n) == At(at + |LowerCall(rd, i.func, i.args, homes, saves)|, s')
      && s'.regs[rd] == env.call(i.func, atCall).regs[0] && s'.regs[SP] == s.regs[SP]
      && forall v <- homes :: IsVariable(v) && InRegister(homes, v) && Home(homes, v).reg != rd ==>
           s'.regs[Home(homes, v).reg] == s.regs[Home(homes, v).reg]
  {
    hide LowerCall, StateAtCall, Disjoint;
    FrameSavesWell(frame, size, saves);
    var atCall := StateAtCall(i.args, homes, saves, s, env.symbol);
    ArgsInFrame(i.args, frame, size, saves, homes, registers, locations);
    KeptFrameKeepsSaves(frame, saves, atCall, env.call(i.func, atCall));
    VariablesAreSaved(frame, size, saves, homes, registers, locations);
    s', n := CallIsTransparent(Home(homes, i.dest).reg, i.func, i.args, homes, saves, code, at, s, env);
  }

  /** What laying out a frame establishes for the homes and the cells registers are saved in. */
  ghost predicate LaidOut(frame: Frame, size: int, saves: Saves, homes: Homes,
                          registers: map<Entry, int>, locations: map<Entry, int>) {
    && Disjoint(frame, 16, size)
    && (forall r :: IsSaved(r) ==> SaveOf(r) in frame && r in saves && saves[r] == Addr(SP, frame[SaveOf(r)]))
    && (forall v <- locations :: SpillOf(v) in frame && frame[SpillOf(v)] == locations[v])
    && (forall v <- homes :: GoodHome(homes[v]))
    && (forall v <- homes :: IsVariable(v) ==>
          v in HomesOf(registers, locations) && homes[v] == HomesOf(registers, locations)[v])
  }

  /** The callee keeps the stack pointer and every cell of the frame. */
  ghost predicate FrameKept(frame: Frame, s: ArmState, s': ArmState) {
    s'.regs[SP] == s.regs[SP] && forall slot <- frame ::
        s'.Cell(s.regs[SP] + frame[slot]) == s.Cell(s.regs[SP] + frame[slot])
  }

  lemma ArgsInFrame(args: seq<Operand>, frame: Frame, size: int, saves: Saves, homes: Homes,
                    registers: map<Entry, int>, locations: map<Entry, int>)
    requires LaidOut(frame, size, saves, homes, registers, locations)
    requires |args| <= REGISTER_ARGS && forall op <- args :: PlacedOperand(op, homes)
    ensures GoodArgs(args, homes) && ArgsApart(args, homes, saves)
  {
    hide Disjoint;
    FrameSavesWell(frame, size, saves);
    forall op <- args, r <- SAVED | op.Reg? && Home(homes, op.entry).Addr?
      ensures Home(homes, op.entry).offset != SaveOffset(saves, r)
    {
      assert op.entry in locations;
    }
  }

  lemma KeptFrameKeepsSaves(frame: Frame, saves: Saves, s: ArmState, s': ArmState)
    requires forall r :: IsSaved(r) ==> SaveOf(r) in frame && r in saves && saves[r] == Addr(SP, frame[SaveOf(r)])
    requires FrameKept(frame, s, s')
    ensures CalleeKeeps(saves, s, s')
  {
    hide SAVED;
    SavedAreSaved();
  }

  lemma SavedAreSaved()
    ensures forall r <- SAVED :: IsSaved(r)
  {
  }

  /** Laying out the frame of a function, whose parameters are raw ones, establishes it. */
  lemma FrameIsLaidOut(f: ArmFunction, frame: Frame)
    requires Disjoint(frame, 16, f.stackSize) && forall p <- f.params :: p.RawParam?
    requires forall v <- f.locations :: SpillOf(v) in frame && frame[SpillOf(v)] == f.locations[v]
    requires forall r :: r in f.savedAddresses <==> IsSaved(r)
    requires forall r :: IsSaved(r) ==> SaveOf(r) in frame && f.savedAddresses[r] == Addr(SP, frame[SaveOf(r)])
    requires forall i :: 0 <= i < |f.params| ==>
      f.params[i] in f.varLocations &&
      if i < 8 then f.varLocations[f.params[i]] == R(i)
      else ParamAt(i) in frame && f.varLocations[f.params[i]] == Addr(SP, frame[ParamAt(i)])
    requires forall v :: v !in f.params ==>
      (v in f.varLocations <==> v in HomesOf(f.registers, f.locations))
      && (v in f.varLocations ==> f.varLocations[v] == HomesOf(f.registers, f.locations)[v])
    ensures LaidOut(frame, f.stackSize, f.savedAddresses, f.varLocations, f.registers, f.locations)
  {
    hide Disjoint, HomesOf, IsSaved;
    HomesOfFit(f.registers, f.locations);
  }

  /** The pool is among the saved registers. */
  lemma VariablesAreSaved(frame: Frame, size: int, saves: Saves, homes: Homes,
                          registers: map<Entry, int>, locations: map<Entry, int>)
    requires LaidOut(frame, size, saves, homes, registers, locations)
    ensures forall v <- homes :: IsVariable(v) && InRegister(homes, v) ==> Home(homes, v).reg in SAVED
  {
    forall r: RegNum | InPool(r) ensures r in SAVED { SavedAt(if r < 16 then r else r - 3); }
  }
}
