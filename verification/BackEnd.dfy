/** The back end as a whole: one lowering for every instruction, and where a lowered block goes. */
module BackEnd {
  import opened Words
  import opened Events
  import opened Ir
  import opened IrSemantics
  import opened Translation
  import opened Flow
  import opened FlagHandoff
  import opened LinearScan
  import opened Allocator
  import opened LiveRanges
  import opened Arm
  import opened ArmRuns
  import opened Lowering
  import opened LoweringCorrect
  import opened BlockSimulation
  import opened Peephole
  import opened FlatCode
  import opened Calls
  import S = Source

  // ----- One lowering -----

  /** Where variables live, where registers are saved around calls, and what is added to offsets of parameter slots. */
  datatype Placement = Placement(homes: Homes, saves: Saves, shift: int)

  function LowerReturn(v: Operand, homes: Homes): seq<ArmInstr> {
    [PassArg(v, homes, 0), B(ExitLabel)]
  }

  /** The lowering of any instruction; other stands for those the model does not cover. */
  function LowerInstr(i: Instr, t: Placement, other: Instr -> seq<ArmInstr>): seq<ArmInstr> {
    if i.Br? || i.BrCond? then LowerBranch(i)
    else if i.Ret? then LowerReturn(i.val, t.homes)
    else if i.CallAssign? && |i.args| <= REGISTER_ARGS && InRegister(t.homes, i.dest) then
      LowerCall(Home(t.homes, i.dest).reg, i.func, i.args, t.homes, t.saves)
    else if Lowerable(i, t.homes) then Lower(i, t.homes, t.shift)
    else other(i)
  }

  function LoweringFor(t: Placement, other: Instr -> seq<ArmInstr>): Instr -> seq<ArmInstr> {
    i => LowerInstr(i, t, other)
  }

  lemma {:induction false} SavesAreInner(rs: seq<RegNum>, saves: Saves)
    ensures Inner(StoreRegs(rs, saves)) && Inner(LoadRegs(rs, saves))
    decreases |rs|
  {
    if rs != [] { SavesAreInner(rs[..|rs| - 1], saves); }
  }

  lemma {:induction false} ArgsAreInner(args: seq<Operand>, homes: Homes)
    requires |args| <= REGISTER_ARGS
    ensures Inner(PassArgs(args, homes))
    decreases |args|
  {
    if args != [] { ArgsAreInner(args[..|args| - 1], homes); }
  }

  lemma CallIsInner(rd: RegNum, name: string, args: seq<Operand>, homes: Homes, saves: Saves)
    requires |args| <= REGISTER_ARGS
    ensures Inner(LowerCall(rd, name, args, homes, saves))
  {
    hide SAVED;
    SavesAreInner(SAVED, saves);
    ArgsAreInner(args, homes);
  }

  /** The back end lowers branches to branches and nothing else to labels or conditional branches. */
  lemma LoweringIsGood(t: Placement, other: Instr -> seq<ArmInstr>)
    requires forall i :: Inner(other(i))
    ensures GoodLowering(LoweringFor(t, other))
  {
    hide LowerCall, Lower, LowerBranch, Lowerable, Inner;
    forall i: Instr | !i.Br? && !i.BrCond? ensures Inner(LowerInstr(i, t, other)) {
      if i.Ret? {
        ReturnIsInner(i.val, t.homes);
      } else if i.CallAssign? && |i.args| <= REGISTER_ARGS && InRegister(t.homes, i.dest) {
        CallIsInner(Home(t.homes, i.dest).reg, i.func, i.args, t.homes, t.saves);
      } else if Lowerable(i, t.homes) {
        LowerIsInner(i, t.homes, t.shift);
      }
    }
  }

  lemma ReturnIsInner(v: Operand, homes: Homes)
    ensures Inner(LowerReturn(v, homes))
  {
  }

  /** The peephole pass preserves the runs of every function the back end lowers, whatever homes, frame and order of
      blocks it has. */
  lemma PeepholePreservesLowered(f: S.Function, sc: S.Scope, n: Label, r: nat, order: seq<Label>, code: Code,
                                 t: Placement, other: Instr -> seq<ArmInstr>, s: ArmState, env: Env, c: ArmStatus)
    requires forall i :: Inner(other(i))
    requires var blocks := FunctionBody(f, sc, n, r).b.code;
      forall l <- code :: l in blocks && (code[l] == blocks[l] || code[l] == Truncate(blocks[l]) || code[l] == [Br(l)])
    requires (forall l <- order :: l in code) && forall i, j :: 0 <= i < j < |order| ==> order[i] != order[j]
    ensures var body := FlatBody(order, code, LoweringFor(t, other));
      EndsWith(body, s, env, c) <==> EndsWith(Optimised(body), s, env, c)
  {
    hide FunctionBody, GoodLowering, EndsWith, FlatBody, Optimised, LoweringFor;
    LoweringIsGood(t, other);
    PeepholePreservesFunctions(f, sc, n, r, order, code, LoweringFor(t, other), s, env, c);
  }

  // ----- A whole block -----

  /** A block allocated over its own ranges, of which the last instruction and only that one is a terminator; a
      conditional branch directly follows its select. */
  ghost predicate WholeBlock(ins: seq<Instr>, rg: Ranges, registers: map<Entry, int>, locations: map<Entry, int>,
                             stackSize: int, shift: int) {
    && ins != [] && Straight(ins[..|ins| - 1]) && ins[|ins| - 1].IsTerminator() && HandedOff(ins)
    && AllocatedBlock(ins, rg, registers, locations, stackSize, shift)
  }

  /** Memory and state agree at the start of the block, and globals have their own cells. */
  ghost predicate Agree(ins: seq<Instr>, locations: map<Entry, int>, m: IrMem, s: ArmState, symbol: string -> int,
                        names: set<string>) {
    Layout(locations, s.regs[SP], symbol, names) && NamesWithin(ins, names) && GlobalsAgree(m, s, symbol, names)
  }

  /** The block runs through to its last instruction in the IR, and truncations on the way only see truth values. */
  ghost predicate RunsThrough(ins: seq<Instr>, m: IrMem, w: World) {
    ins != [] &&
    var front := ins[..|ins| - 1];
    Straight(front) && ExecAll(front, m, w).Some? && TruncsSeeTruth(front, m, w)
  }

  /** The memory then. */
  function MemAtEnd(ins: seq<Instr>, m: IrMem, w: World): IrMem
    requires RunsThrough(ins, m, w)
  {
    ExecAll(ins[..|ins| - 1], m, w).value
  }

  /** Running the lowered instructions before the last takes s to s'. */
  ghost predicate FrontTakes(ins: seq<Instr>, t: Placement, s: ArmState, s': ArmState, symbol: string -> int) {
    ins != [] &&
    var front := ins[..|ins| - 1];
    && (forall i <- front :: Lowerable(i, t.homes)) && Plain(LowerAll(front, t.homes, t.shift))
    && s' == ExecArmAll(LowerAll(front, t.homes, t.shift), s, symbol)
  }

  /** The lowered instruction comes next in the code. */
  ghost predicate Next(code: seq<ArmInstr>, at: nat, i: Instr, t: Placement, other: Instr -> seq<ArmInstr>) {
    var ins := LowerInstr(i, t, other);
    at + |ins| <= |code| && code[at..at + |ins|] == ins
  }

  /** The block lies in the code, lowered by the back end, behind its label. */
  ghost predicate PlacedAt(code: seq<ArmInstr>, at: nat, l: Label, ins: seq<Instr>, t: Placement,
                           other: Instr -> seq<ArmInstr>) {
    var flat := FlatBlock(l, ins, LoweringFor(t, other));
    at + |flat| <= |code| && code[at..at + |flat|] == flat
  }

  lemma {:induction false} LowersAlike(ins: seq<Instr>, t: Placement, other: Instr -> seq<ArmInstr>)
    requires Straight(ins) && forall i <- ins :: Lowerable(i, t.homes)
    ensures LowerIns(ins, LoweringFor(t, other)) == LowerAll(ins, t.homes, t.shift)
    decreases |ins|
  {
    hide Lower, Lowerable;
    if ins != [] {
      var n := |ins| - 1;
      assert ins[n] in ins;
      LowerableIsPlain(ins[n], t.homes);
      LowersAlike(ins[..n], t, other);
    }
  }

  lemma LowerableIsPlain(i: Instr, homes: Homes)
    requires Lowerable(i, homes)
    ensures !i.CallAssign? && !i.IsTerminator()
  {
  }

  /** Up to the terminator, the lowered block simulates the IR. */
  lemma BodyRuns(ins: seq<Instr>, rg: Ranges, registers: map<Entry, int>, locations: map<Entry, int>, stackSize: int,
                 t: Placement, other: Instr -> seq<ArmInstr>, code: seq<ArmInstr>, at: nat, l: Label,
                 m: IrMem, s: ArmState, names: set<string>, w: World, env: Env)
    returns (k: nat, s': ArmState)
    requires WholeBlock(ins, rg, registers, locations, stackSize, t.shift) && t.homes == HomesOf(registers, locations)
    requires Agree(ins, locations, m, s, env.symbol, names) && PlacedAt(code, at, l, ins, t, other)
    requires RunsThrough(ins, m, w)
    ensures FrontTakes(ins, t, s, s', env.symbol)
    ensures Simulates(Mentions(ins), |ins| - 1, t.homes, MemAtEnd(ins, m, w), s', s.regs[SP], env.symbol, names)
    ensures ArmRun(code, At(at, s), env, k) == At(at + k, s') && Next(code, at + k, ins[|ins| - 1], t, other)
  {
    hide Exact, GoodHomes, Lowerable, Housed, Delivered, Lower, LowerInstr, Simulates, Layout, GlobalsAgree,
        NamesWithin;
    hide WrittenBeforeRead, HandedOff, TruncsSeeTruth, HomesOf, Mentions, ExecArmAll, PlacedAt, Plain, LowerAll, Next;
    var n := |ins| - 1;
    BlockIsStraight(ins, t.homes, t.shift, n);
    BlockSimulates(ins, rg, registers, locations, stackSize, t.shift, n, m, s, env.symbol, names, w);
    s' := ExecArmAll(LowerAll(ins[..n], t.homes, t.shift), s, env.symbol);
    k := FrontRuns(ins, t, other, code, at, l, s, s', env);
  }

  lemma FrontRuns(ins: seq<Instr>, t: Placement, other: Instr -> seq<ArmInstr>, code: seq<ArmInstr>, at: nat, l: Label,
                  s: ArmState, s': ArmState, env: Env)
    returns (k: nat)
    requires FrontTakes(ins, t, s, s', env.symbol) && Straight(ins[..|ins| - 1]) && PlacedAt(code, at, l, ins, t, other)
    ensures ArmRun(code, At(at, s), env, k) == At(at + k, s') && Next(code, at + k, ins[|ins| - 1], t, other)
  {
    hide Lowerable, Lower, LowerInstr, ExecArmAll, LowerAll, Straight;
    var n := |ins| - 1;
    LowersAlike(ins[..n], t, other);
    var mark := LabelDef(BlockLabel(l));
    var body := LowerAll(ins[..n], t.homes, t.shift);
    var last := LowerInstr(ins[n], t, other);
    assert FlatBlock(l, ins, LoweringFor(t, other)) == ([mark] + body) + last;
    SplitPlaced(code, at, [mark] + body, last);
    ExecArmOne(mark, s, env.symbol);
    ExecArmAppend([mark], body, s, env.symbol);
    k := |[mark] + body|;
    RunPlain(code, at, [mark] + body, s, env);
  }

  /** What the run of the block does, in the IR and lowered: it goes on at the same label with what the terminator and
      the rest of the function still need in place, or exits with the value returned. */
  ghost predicate SameWay(irEnd: Status, ins: seq<Instr>, n: nat, homes: Homes, m': IrMem, armEnd: ArmStatus,
                          code: seq<ArmInstr>, s': ArmState, sp: int, symbol: string -> int, names: set<string>) {
    match irEnd
    case Running(target, index, mem) =>
      && index == 0 && mem == m' && armEnd == Jump(code, BlockLabel(target), s')
      && Simulates(Mentions(ins), n, homes, m', s', sp, symbol, names)
    case Finished(mem, v) =>
      mem == m' && armEnd == Exited(s') && s'.regs[0] == v && s'.regs[SP] == sp && GlobalsAgree(m', s', symbol, names)
    case Faulted => false
  }

  /** A block that runs through to its terminator in the IR leaves, lowered, for the same place: through a branch, for
      the label the condition picks, through a return, with the value returned. */
  lemma LoweredBlockRuns(ins: seq<Instr>, rg: Ranges, registers: map<Entry, int>, locations: map<Entry, int>,
                         stackSize: int, t: Placement, other: Instr -> seq<ArmInstr>, code: seq<ArmInstr>, at: nat,
                         g: Code, l: Label, m: IrMem, s: ArmState, names: set<string>, w: World, env: Env)
    returns (k: nat, s': ArmState)
    requires WholeBlock(ins, rg, registers, locations, stackSize, t.shift) && t.homes == HomesOf(registers, locations)
    requires Agree(ins, locations, m, s, env.symbol, names) && PlacedAt(code, at, l, ins, t, other)
    requires RunsThrough(ins, m, w) && l in g && g[l] == ins
    ensures SameWay(IrSemantics.Run(g, Running(l, 0, m), w, |ins|), ins, |ins| - 1, t.homes, MemAtEnd(ins, m, w),
                    ArmRun(code, At(at, s), env, k), code, s', s.regs[SP], env.symbol, names)
  {
    hide WholeBlock, Agree, PlacedAt, LowerInstr, Simulates, Mentions, TruncsSeeTruth, HomesOf, ExecArmAll, Jump,
        GlobalsAgree;
    hide FrontTakes, Next, RunsThrough, MemAtEnd, IrSemantics.Run, ArmRun;
    BlockEnds(ins, rg, registers, locations, stackSize, t.shift);
    var n := |ins| - 1;
    var m' := MemAtEnd(ins, m, w);
    IrLeaves(g, l, ins, m, w);
    var k1, s1 := BodyRuns(ins, rg, registers, locations, stackSize, t, other, code, at, l, m, s, names, w, env);
    var k2;
    if ins[n].Br? {
      s' := s1;
      k2 := BranchLeaves(ins[n], t, other, code, at + k1, s1, env);
    } else if ins[n].BrCond? {
      s' := s1;
      k2 := CondLeaves(ins, rg, registers, locations, stackSize, t, other, code, at + k1, m, s, s1, names, w, env);
    } else {
      k2, s' := ReturnLeaves(ins, rg, registers, locations, stackSize, t, other, code, at + k1, m', s1, s.regs[SP],
                             names, env);
    }
    k := k1 + k2;
    ArmRunAdd(code, At(at, s), env, k1, k2);
  }

  lemma IrLeaves(g: Code, l: Label, ins: seq<Instr>, m: IrMem, w: World)
    requires l in g && g[l] == ins && RunsThrough(ins, m, w)
    ensures IrSemantics.Run(g, Running(l, 0, m), w, |ins|) ==
            IrSemantics.Step(g, Running(l, |ins| - 1, MemAtEnd(ins, m, w)), w)
  {
    hide IrSemantics.Step, TruncsSeeTruth;
    var n := |ins| - 1;
    RunStraight(g, l, 0, ins[..n], m, w);
    RunAdd(g, Running(l, 0, m), w, n, 1);
    OneIrStep(g, Running(l, n, MemAtEnd(ins, m, w)), w);
  }

  lemma OneIrStep(g: Code, st: Status, w: World)
    ensures IrSemantics.Run(g, st, w, 1) == IrSemantics.Step(g, st, w)
  {
    assert IrSemantics.Run(g, IrSemantics.Step(g, st, w), w, 0) == IrSemantics.Step(g, st, w);
  }

  lemma BlockEnds(ins: seq<Instr>, rg: Ranges, registers: map<Entry, int>, locations: map<Entry, int>, stackSize: int,
                  shift: int)
    requires WholeBlock(ins, rg, registers, locations, stackSize, shift)
    ensures ins != [] && ins[|ins| - 1].IsTerminator() && Straight(ins[..|ins| - 1])
  {
  }

  lemma BranchLeaves(i: Instr, t: Placement, other: Instr -> seq<ArmInstr>, code: seq<ArmInstr>, at: nat, s: ArmState,
                     env: Env)
    returns (k: nat)
    requires i.Br? && Next(code, at, i, t, other)
    ensures ArmRun(code, At(at, s), env, k) == Jump(code, BlockLabel(i.target), s)
  {
    hide Jump;
    assert code[at] == code[at..at + 1][0] == B(BlockLabel(i.target));
    OneArmStep(code, At(at, s), env);
    k := 1;
  }

  /** The operand of the terminator is where it lives. */
  lemma LastOperandHeld(ins: seq<Instr>, k: nat, op: Operand, homes: Homes, m: IrMem, s: ArmState,
                        symbol: string -> int, names: set<string>)
    requires k < |ins| && AllCovered(ins) && WrittenBeforeRead(ins) && OperandEntries(op) <= Reads(ins[k])
    requires IsOperand(op)
    requires Simulates(Mentions(ins), k, homes, m, s, s.regs[SP], symbol, names)
    ensures m.Val(op).Some? && OperandHolds(op, m.Val(op).value, homes, s, symbol)
  {
    hide Simulates, AllCovered, WrittenBeforeRead, Holds, Where, Mentions, Reads;
    if op.Reg? {
      assert op.entry in OperandEntries(op);
      ReadIsHeld(ins, k, op.entry, homes, m, s, s.regs[SP], symbol, names);
    }
  }

  lemma ReturnLeaves(ins: seq<Instr>, rg: Ranges, registers: map<Entry, int>, locations: map<Entry, int>,
                     stackSize: int, t: Placement, other: Instr -> seq<ArmInstr>, code: seq<ArmInstr>, at: nat,
                     m: IrMem, s: ArmState, sp: int, names: set<string>, env: Env)
    returns (k: nat, s': ArmState)
    requires WholeBlock(ins, rg, registers, locations, stackSize, t.shift) && t.homes == HomesOf(registers, locations)
    requires ins != [] && ins[|ins| - 1].Ret? && Next(code, at, ins[|ins| - 1], t, other)
    requires Simulates(Mentions(ins), |ins| - 1, t.homes, m, s, sp, env.symbol, names)
    ensures var v := ins[|ins| - 1].val;
      && m.Val(v).Some? && ArmRun(code, At(at, s), env, k) == Exited(s') && s'.regs[0] == m.Val(v).value
      && s'.regs[SP] == sp && GlobalsAgree(m, s', env.symbol, names)
  {
    hide Exact, GoodHomes, WrittenBeforeRead, HomesOf, Mentions, HandedOff, Straight, Housed;
    var n := |ins| - 1;
    var v := ins[n].val;
    var pass := PassArg(v, t.homes, 0);
    assert ins[n] in ins;
    LastOperandHeld(ins, n, v, t.homes, m, s, env.symbol, names);
    HomesOfFit(registers, locations);
    ReturnHoused(ins[n], t.homes);
    PassesReturn(v, m.Val(v).value, t.homes, s, env.symbol);
    assert code[at] == code[at..at + 2][0] == pass && code[at + 1] == code[at..at + 2][1] == B(ExitLabel);
    s' := ExecArm(pass, s, env.symbol);
    OneArmStep(code, At(at, s), env);
    OneArmStep(code, At(at + 1, s'), env);
    ArmRunAdd(code, At(at, s), env, 1, 1);
    k := 2;
  }

  lemma ReturnHoused(i: Instr, homes: Homes)
    requires i.Ret? && Housed(i, homes)
    ensures IsOperand(i.val) && (i.val.Reg? ==> i.val.entry in homes)
  {
  }

  lemma PassesReturn(v: Operand, x: int, homes: Homes, s: ArmState, symbol: string -> int)
    requires HomesFit(homes) && (v.Reg? ==> v.entry in homes && !v.entry.Global?)
    requires OperandHolds(v, x, homes, s, symbol)
    ensures PassArg(v, homes, 0).IsPlain()
    ensures var s' := ExecArm(PassArg(v, homes, 0), s, symbol);
      s'.regs[0] == x && s'.regs[SP] == s.regs[SP] && s'.mem == s.mem
  {
  }

  lemma CondLeaves(ins: seq<Instr>, rg: Ranges, registers: map<Entry, int>, locations: map<Entry, int>, stackSize: int,
                   t: Placement, other: Instr -> seq<ArmInstr>, code: seq<ArmInstr>, at: nat,
                   m: IrMem, s: ArmState, s1: ArmState, names: set<string>, w: World, env: Env)
    returns (k: nat)
    requires WholeBlock(ins, rg, registers, locations, stackSize, t.shift) && t.homes == HomesOf(registers, locations)
    requires Agree(ins, locations, m, s, env.symbol, names)
    requires RunsThrough(ins, m, w) && FrontTakes(ins, t, s, s1, env.symbol)
    requires ins[|ins| - 1].BrCond? && Next(code, at, ins[|ins| - 1], t, other)
    ensures var br := ins[|ins| - 1]; var cond := MemAtEnd(ins, m, w).Val(br.cond);
      && cond.Some?
      && ArmRun(code, At(at, s1), env, k) ==
         Jump(code, BlockLabel(if cond.value == 1 then br.iftrue else br.iffalse), s1)
  {
    hide Exact, GoodHomes, WrittenBeforeRead, HomesOf, Mentions, Lowerable, Housed, Lower, Simulates, Layout,
        GlobalsAgree;
    hide NamesWithin, RunsThrough, MemAtEnd, FrontTakes, Jump, Delivered;
    var n := |ins| - 1;
    assert HandsOver(ins[n - 1], ins[n]);
    var x := SelectSetsFlags(ins, rg, registers, locations, stackSize, t, m, s, s1, names, w, env.symbol);
    k := BranchJumps(code, at, ins[n], x, s1, env);
  }

  /** After the select in front of the branch, the flags hold the comparison of its condition with 1. */
  lemma SelectSetsFlags(ins: seq<Instr>, rg: Ranges, registers: map<Entry, int>, locations: map<Entry, int>,
                        stackSize: int, t: Placement, m: IrMem, s: ArmState, s1: ArmState, names: set<string>, w: World,
                        symbol: string -> int)
    returns (x: int)
    requires WholeBlock(ins, rg, registers, locations, stackSize, t.shift) && t.homes == HomesOf(registers, locations)
    requires Agree(ins, locations, m, s, symbol, names)
    requires RunsThrough(ins, m, w) && FrontTakes(ins, t, s, s1, symbol)
    requires |ins| > 1 && HandsOver(ins[|ins| - 2], ins[|ins| - 1])
    ensures s1.flags == (x, 1)
    ensures var cond := MemAtEnd(ins, m, w).Val(ins[|ins| - 1].cond); cond.Some? && (cond.value == 1 <==> x == 1)
  {
    hide Exact, GoodHomes, WrittenBeforeRead, HomesOf, Mentions, Lowerable, Housed, Lower, Simulates, Layout,
        GlobalsAgree;
    hide NamesWithin, TruncsSeeTruth, ExecArmAll, Delivered, TruncsTruth, Exec;
    var n := |ins| - 1;
    var j := n - 1;
    var sel := ins[j];
    assert ins[j] in ins;
    ExecSnoc(ins, j, m, w);
    TruncsShorter(ins, j, m, w);
    BlockSimulates(ins, rg, registers, locations, stackSize, t.shift, j, m, s, symbol, names, w);
    var mj := ExecAll(ins[..j], m, w).value;
    var sj := ExecArmAll(LowerAll(ins[..j], t.homes, t.shift), s, symbol);
    StackPointerHeld(Mentions(ins), j, t.homes, mj, sj, s.regs[SP], symbol, names);
    LastOperandHeld(ins, j, sel.cond, t.homes, mj, sj, symbol, names);
    x := mj.Val(sel.cond).value;
    HomesOfFit(registers, locations);
    assert ins[..n][j] == sel && sel in ins[..n] && ins[..n][..j] == ins[..j];
    SelectCorrect(sel, x, t.homes, t.shift, sj, symbol);
    ExecArmAppend(LowerAll(ins[..j], t.homes, t.shift), Lower(sel, t.homes, t.shift), s, symbol);
    BranchSeesCondition(sel, ins[n], mj, w);
  }
}
