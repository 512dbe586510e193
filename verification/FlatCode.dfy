/** Whole bodies of flat code: labels and lowered blocks one after the other. What the peephole pass and the flags need
    of them holds of every generated function. */
module FlatCode {
  import opened Words
  import opened Events
  import opened Ir
  import opened IrSemantics
  import opened Translation
  import opened Flow
  import opened FlagHandoff
  import opened BranchPlacement
  import opened Arm
  import opened ArmRuns
  import opened Lowering
  import opened LoweringCorrect
  import opened Peephole
  import S = Source

  // ----- Branches -----

  function LowerBranch(i: Instr): seq<ArmInstr>
    requires i.Br? || i.BrCond?
  {
    if i.Br? then [B(BlockLabel(i.target))]
    else [BCond(i.cc, BlockLabel(i.iftrue)), BCond(i.cc.Negate(), BlockLabel(i.iffalse))]
  }

  /** No label and no conditional branch. */
  predicate Inner(code: seq<ArmInstr>) {
    forall i <- code :: !i.LabelDef? && !i.BCond?
  }

  /** A way of lowering instructions that lowers branches as above, and lowers nothing else to labels or conditional
      branches. */
  ghost predicate GoodLowering(lower: Instr -> seq<ArmInstr>) {
    forall i: Instr :: if i.Br? || i.BrCond? then lower(i) == LowerBranch(i) else Inner(lower(i))
  }

  /** The modelled instructions are lowered to such code. */
  lemma LowerIsInner(i: Instr, homes: Homes, shift: int)
    requires Lowerable(i, homes)
    ensures Inner(Lower(i, homes, shift))
  {
    match i
    case BinOp(d, op, a, b) => FetchesInner(a, b, homes);
    case ICmp(d, cc, a, b) => FetchesInner(a, b, homes);
    case _ =>
  }

  lemma FetchesInner(a: Operand, b: Operand, homes: Homes)
    ensures Inner(LowerTwo(a, b, homes).0)
  {
  }

  // ----- Bodies -----

  function LowerIns(ins: seq<Instr>, lower: Instr -> seq<ArmInstr>): seq<ArmInstr> {
    if ins == [] then [] else LowerIns(ins[..|ins| - 1], lower) + lower(ins[|ins| - 1])
  }

  function FlatBlock(l: Label, ins: seq<Instr>, lower: Instr -> seq<ArmInstr>): seq<ArmInstr> {
    [LabelDef(BlockLabel(l))] + LowerIns(ins, lower)
  }

  /** The blocks in the order they are printed in. */
  function FlatBody(order: seq<Label>, code: Code, lower: Instr -> seq<ArmInstr>): seq<ArmInstr>
    requires forall l <- order :: l in code
  {
    if order == [] then [] else FlatBlock(order[0], code[order[0]], lower) + FlatBody(order[1..], code, lower)
  }

  lemma {:induction false} InnerWhenNoBrCond(ins: seq<Instr>, lower: Instr -> seq<ArmInstr>)
    requires GoodLowering(lower) && NoBrCond(ins)
    ensures Inner(LowerIns(ins, lower))
    decreases |ins|
  {
    if ins != [] {
      var n := |ins| - 1;
      InnerWhenNoBrCond(ins[..n], lower);
      assert ins[n] in ins;
      if ins[n].Br? { assert lower(ins[n]) == LowerBranch(ins[n]); }
    }
  }

  lemma BlockIsPaired(l: Label, ins: seq<Instr>, lower: Instr -> seq<ArmInstr>)
    requires GoodLowering(lower) && BrCondLast(ins)
    ensures Paired(FlatBlock(l, ins, lower))
    ensures forall j :: 0 < j < |FlatBlock(l, ins, lower)| ==> !FlatBlock(l, ins, lower)[j].LabelDef?
  {
    var flat := FlatBlock(l, ins, lower);
    var n := |ins| - 1;
    if ins != [] && ins[n].BrCond? {
      var inner := LowerIns(ins[..n], lower);
      var pair := LowerBranch(ins[n]);
      InnerWhenNoBrCond(ins[..n], lower);
      assert lower(ins[n]) == pair;
      assert flat == [LabelDef(BlockLabel(l))] + inner + pair;
      PairAtEnd([LabelDef(BlockLabel(l))] + inner, pair);
    } else {
      forall i <- ins ensures !i.BrCond? {
        var j :| 0 <= j < |ins| && ins[j] == i;
      }
      InnerWhenNoBrCond(ins, lower);
    }
  }

  lemma PairAtEnd(front: seq<ArmInstr>, pair: seq<ArmInstr>)
    requires (forall i <- front :: !i.BCond?) && |pair| == 2 && pair[0].BCond? && pair[1].BCond?
    requires pair[1].cc == pair[0].cc.Negate()
    ensures Paired(front + pair)
  {
    var all := front + pair;
    var k := |front|;
    assert FirstOfPair(all, k) && SecondOfPair(all, k + 1);
    assert forall i :: 0 <= i < k ==> all[i] == front[i] && front[i] in front;
    forall i | 0 <= i < |all| && all[i].BCond? ensures FirstOfPair(all, i) || SecondOfPair(all, i) {}
  }

  /** Paired code before paired code that starts with a label, or is empty. */
  lemma PairedAppend(a: seq<ArmInstr>, b: seq<ArmInstr>)
    requires Paired(a) && Paired(b) && (b == [] || b[0].LabelDef?)
    ensures Paired(a + b)
  {
    var all := a + b;
    forall i | 0 <= i < |all| && all[i].BCond? ensures FirstOfPair(all, i) || SecondOfPair(all, i) {
      if i < |a| {
        if FirstOfPair(a, i) { FirstShift(a, b, i); } else { FirstShift(a, b, i - 1); }
      } else {
        var j := i - |a|;
        assert b[j] == all[i];
        if FirstOfPair(b, j) {
          assert all[i + 1] == b[j + 1];
          assert EndsAt(b, j + 2) ==> EndsAt(all, i + 2);
        } else {
          assert all[i - 1] == b[j - 1];
          assert EndsAt(b, j + 1) ==> EndsAt(all, i + 1);
        }
      }
    }
  }

  lemma FirstShift(a: seq<ArmInstr>, b: seq<ArmInstr>, i: int)
    requires FirstOfPair(a, i) && (b == [] || b[0].LabelDef?)
    ensures FirstOfPair(a + b, i)
  {
    if i + 2 < |a| { assert (a + b)[i + 2] == a[i + 2]; } else if b != [] { assert (a + b)[i + 2] == b[0]; }
  }

  lemma {:induction false} BodyIsPaired(order: seq<Label>, code: Code, lower: Instr -> seq<ArmInstr>)
    requires GoodLowering(lower) && forall l <- order :: l in code && BrCondLast(code[l])
    ensures Paired(FlatBody(order, code, lower))
    ensures order != [] ==>
      FlatBody(order, code, lower) != [] && FlatBody(order, code, lower)[0] == LabelDef(BlockLabel(order[0]))
    ensures order == [] ==> FlatBody(order, code, lower) == []
  {
    hide Paired;
    if order == [] {
      EmptyIsPaired();
    } else {
      BlockIsPaired(order[0], code[order[0]], lower);
      BodyIsPaired(order[1..], code, lower);
      PairedAppend(FlatBlock(order[0], code[order[0]], lower), FlatBody(order[1..], code, lower));
    }
  }

  lemma EmptyIsPaired()
    ensures Paired([])
  {
  }

  /** The labels defined are those of the blocks. */
  lemma {:induction false} BodyLabels(order: seq<Label>, code: Code, lower: Instr -> seq<ArmInstr>, i: ArmInstr)
    requires GoodLowering(lower) && forall l <- order :: l in code && BrCondLast(code[l])
    requires i in FlatBody(order, code, lower) && i.LabelDef?
    ensures i.target.BlockLabel? && i.target.l in order
  {
    var block := FlatBlock(order[0], code[order[0]], lower);
    BlockIsPaired(order[0], code[order[0]], lower);
    if i in block {
      var j :| 0 <= j < |block| && block[j] == i;
      assert j == 0;
    } else {
      BodyLabels(order[1..], code, lower, i);
    }
  }

  lemma {:induction false} BodyLabelsUnique(order: seq<Label>, code: Code, lower: Instr -> seq<ArmInstr>)
    requires GoodLowering(lower) && forall l <- order :: l in code && BrCondLast(code[l])
    requires forall i, j :: 0 <= i < j < |order| ==> order[i] != order[j]
    ensures UniqueLabels(FlatBody(order, code, lower))
  {
    if order != [] {
      var block := FlatBlock(order[0], code[order[0]], lower);
      var rest := FlatBody(order[1..], code, lower);
      BlockIsPaired(order[0], code[order[0]], lower);
      BodyLabelsUnique(order[1..], code, lower);
      forall i <- rest ensures i != LabelDef(BlockLabel(order[0])) {
        if i.LabelDef? {
          BodyLabels(order[1..], code, lower, i);
          var k :| 0 <= k < |order[1..]| && order[1..][k] == i.target.l;
          assert order[k + 1] == i.target.l;
        }
      }
      LabelsUniqueAppend(block, rest);
    }
  }

  lemma LabelsUniqueAppend(block: seq<ArmInstr>, rest: seq<ArmInstr>)
    requires block != [] && block[0].LabelDef? && block[0] != LabelDef(ExitLabel) && block[0] !in rest
    requires forall j :: 0 < j < |block| ==> !block[j].LabelDef?
    requires UniqueLabels(rest)
    ensures UniqueLabels(block + rest)
  {
    var all := block + rest;
    forall i, j | 0 <= i < j < |all| && all[i].LabelDef? && all[j].LabelDef? ensures all[i] != all[j] {
      assert j >= |block|;
      assert all[j] == rest[j - |block|] && all[j] in rest;
      if i < |block| { assert all[i] == block[i]; } else { assert all[i] == rest[i - |block|]; }
    }
    forall i <- all ensures i != LabelDef(ExitLabel) {
      if i in block { var k :| 0 <= k < |block| && block[k] == i; }
    }
  }

  /** Deleting instructions with the peephole pass changes no run of the code of any function, whether its blocks were
      cut after their first terminators or not, in whatever order its blocks come. */
  lemma PeepholePreservesFunctions(f: S.Function, sc: S.Scope, n: Label, r: nat, order: seq<Label>, code: Code,
                                   lower: Instr -> seq<ArmInstr>, s: ArmState, env: Env, c: ArmStatus)
    requires GoodLowering(lower)
    requires var blocks := FunctionBody(f, sc, n, r).b.code;
      forall l <- code :: l in blocks && (code[l] == blocks[l] || code[l] == Truncate(blocks[l]) || code[l] == [Br(l)])
    requires (forall l <- order :: l in code) && forall i, j :: 0 <= i < j < |order| ==> order[i] != order[j]
    ensures var body := FlatBody(order, code, lower); EndsWith(body, s, env, c) <==>
        EndsWith(Optimised(body), s, env, c)
  {
    hide FunctionBody, GoodLowering, UniqueLabels, Paired, EndsWith, FlatBody, Optimised;
    FunctionBranchesLast(f, sc, n, r);
    forall l <- order ensures l in code && BrCondLast(code[l]) {}
    BodyIsPaired(order, code, lower);
    BodyLabelsUnique(order, code, lower);
    PeepholePreservesRuns(FlatBody(order, code, lower), s, env, c);
  }

  // ----- The flags -----

  /** In lowered code, the select and the branch that follows it go to the true label if the condition's value is 1 and
      to the false label otherwise, on the flags the select's comparison left. */
  lemma BranchFollowsCondition(sel: Instr, br: Instr, x: int, homes: Homes, shift: int,
                               code: seq<ArmInstr>, at: nat, s: ArmState, env: Env)
    returns (n: nat, s': ArmState)
    requires HandsOver(sel, br) && HomesFit(homes) && Lowerable(sel, homes)
    requires OperandHolds(sel.cond, x, homes, s, env.symbol)
    requires var placed := Lower(sel, homes, shift) + LowerBranch(br);
      at + |placed| <= |code| && code[at..at + |placed|] == placed
    ensures ArmRun(code, At(at, s), env, n) == Jump(code, BlockLabel(if x == 1 then br.iftrue else br.iffalse), s')
    ensures Effect(s, s', Where(sel.dest, homes, s.regs[SP], env.symbol), Bit(x == 1))
  {
    hide Lower, Effect, Where, Jump, Lowerable, HomesFit, OperandHolds, ExecArmAll, LowerBranch;
    var ins := Lower(sel, homes, shift);
    var branch := LowerBranch(br);
    var k := at + |ins|;
    SelectCorrect(sel, x, homes, shift, s, env.symbol);
    s' := ExecArmAll(ins, s, env.symbol);
    SplitPlaced(code, at, ins, branch);
    RunPlain(code, at, ins, s, env);
    var m := BranchJumps(code, k, br, x, s', env);
    ArmRunAdd(code, At(at, s), env, |ins|, m);
    n := |ins| + m;
  }

  lemma SplitPlaced(code: seq<ArmInstr>, at: nat, a: seq<ArmInstr>, b: seq<ArmInstr>)
    requires at + |a + b| <= |code| && code[at..at + |a + b|] == a + b
    ensures code[at..at + |a|] == a && code[at + |a|..at + |a| + |b|] == b
  {
    assert (a + b)[..|a|] == a && (a + b)[|a|..] == b;
  }

  /** The pair of branches, on the flags of a comparison of x with 1. */
  lemma BranchJumps(code: seq<ArmInstr>, k: nat, br: Instr, x: int, s: ArmState, env: Env) returns (m: nat)
    requires br.BrCond? && br.cc == EQ && s.flags == (x, 1)
    requires k + |LowerBranch(br)| <= |code| && code[k..k + |LowerBranch(br)|] == LowerBranch(br)
    ensures ArmRun(code, At(k, s), env, m) == Jump(code, BlockLabel(if x == 1 then br.iftrue else br.iffalse), s)
  {
    hide Jump;
    assert code[k] == LowerBranch(br)[0] && code[k + 1] == LowerBranch(br)[1];
    OneArmStep(code, At(k, s), env);
    if x == 1 {
      m := 1;
    } else {
      m := 2;
      OneArmStep(code, At(k + 1, s), env);
      ArmRunAdd(code, At(k, s), env, 1, 1);
    }
  }
}
