/** The peephole pass: moves of a register to itself, and branches to a label right ahead, are deleted. */
module Peephole {
  import opened Words
  import opened Ir
  import opened Arm
  import opened ArmRuns

  predicate LabelAt(code: seq<ArmInstr>, i: int, t: Target) {
    0 <= i < |code| && code[i] == LabelDef(t)
  }

  /** Whether the pass deletes the instruction at i. */
  predicate Removed(code: seq<ArmInstr>, i: int)
    requires 0 <= i < |code|
  {
    match code[i]
    case Mov(r, op) => op == R(r)
    case B(t) => LabelAt(code, i + 1, t)
    case BCond(_, t) => LabelAt(code, i + 1, t) || LabelAt(code, i + 2, t)
    case _ => false
  }

  /** What is left of the first n instructions. */
  function KeptUpTo(code: seq<ArmInstr>, n: nat): seq<ArmInstr>
    requires n <= |code|
  {
    if n == 0 then [] else KeptUpTo(code, n - 1) + if Removed(code, n - 1) then [] else [code[n - 1]]
  }

  function Optimised(code: seq<ArmInstr>): seq<ArmInstr> { KeptUpTo(code, |code|) }

  /** Where position i has moved to. */
  function Moved(code: seq<ArmInstr>, i: nat): nat
    requires i <= |code|
  {
    |KeptUpTo(code, i)|
  }

  /** Conditional branches come as adjacent complementary pairs, each followed by a label or by the end. */
  predicate Paired(code: seq<ArmInstr>) {
    forall i :: 0 <= i < |code| && code[i].BCond? ==> FirstOfPair(code, i) || SecondOfPair(code, i)
  }

  predicate FirstOfPair(code: seq<ArmInstr>, i: int) {
    0 <= i < |code| - 1 && code[i].BCond? && code[i + 1].BCond? && code[i + 1].cc == code[i].cc.Negate()
        && EndsAt(code, i + 2)
  }

  predicate SecondOfPair(code: seq<ArmInstr>, i: int) {
    0 < i < |code| && FirstOfPair(code, i - 1)
  }

  predicate EndsAt(code: seq<ArmInstr>, i: int) {
    i == |code| || (0 <= i < |code| && code[i].LabelDef?)
  }

  lemma {:induction false} KeptAt(code: seq<ArmInstr>, i: nat, n: nat)
    requires i < n <= |code|
    ensures KeptUpTo(code, i) <= KeptUpTo(code, n)
    ensures !Removed(code, i) ==> Moved(code, i) < |KeptUpTo(code, n)| && KeptUpTo(code, n)[Moved(code, i)] == code[i]
    decreases n
  {
    if i < n - 1 { KeptAt(code, i, n - 1); }
  }

  lemma {:induction false} KeptFrom(code: seq<ArmInstr>, n: nat, j: nat) returns (i: nat)
    requires n <= |code| && j < |KeptUpTo(code, n)|
    ensures i < n && !Removed(code, i) && Moved(code, i) == j && code[i] == KeptUpTo(code, n)[j]
    decreases n
  {
    if j < |KeptUpTo(code, n - 1)| { i := KeptFrom(code, n - 1, j); } else { i := n - 1; }
  }

  /** What is left is the body without some instructions, and moves no register to itself. */
  lemma NoSelfMovesLeft(code: seq<ArmInstr>, j: nat)
    requires j < |Optimised(code)|
    ensures Optimised(code)[j] in code
    ensures (Optimised(code)[j].Mov? ==> Optimised(code)[j].operand != R(Optimised(code)[j].reg))
  {
    var i := KeptFrom(code, |code|, j);
  }

  /** Labels stay, in place and unique. */
  lemma LabelsStay(code: seq<ArmInstr>)
    requires UniqueLabels(code)
    ensures UniqueLabels(Optimised(code))
    ensures forall k :: 0 <= k < |code| && code[k].LabelDef? ==>
      Moved(code, k) < |Optimised(code)| && Optimised(code)[Moved(code, k)] == code[k]
  {
    var after := Optimised(code);
    forall i <- after ensures i != LabelDef(ExitLabel) {
      var j :| 0 <= j < |after| && after[j] == i;
      var k := KeptFrom(code, |code|, j);
      assert code[k] in code;
    }
    forall i, j | 0 <= i < j < |after| && after[i].LabelDef? && after[j].LabelDef? ensures after[i] != after[j] {
      var a := KeptFrom(code, |code|, i);
      var b := KeptFrom(code, |code|, j);
      if a == b { assert false; }
    }
    forall k | 0 <= k < |code| && code[k].LabelDef?
      ensures Moved(code, k) < |after| && after[Moved(code, k)] == code[k]
    {
      KeptAt(code, k, |code|);
    }
  }

  /** A status of the original code, moved to the optimised one. */
  function MovedStatus(code: seq<ArmInstr>, c: ArmStatus): ArmStatus
    requires c.At? ==> c.pc <= |code|
  {
    if c.At? then At(Moved(code, c.pc), c.s) else c
  }

  lemma JumpsAgree(code: seq<ArmInstr>, t: Target, s: ArmState)
    requires UniqueLabels(code)
    ensures var c := Jump(code, t, s); (c.At? ==> c.pc < |code|) && Jump(Optimised(code), t, s) == MovedStatus(code, c)
  {
    LabelsStay(code);
    FindsLabel(code, t, 0);
    FindsLabel(Optimised(code), t, 0);
    if t != ExitLabel && FindFrom(code, t, 0) == None && FindFrom(Optimised(code), t, 0).Some? {
      var i := KeptFrom(code, |code|, FindFrom(Optimised(code), t, 0).value);
      assert false;
    }
    if t != ExitLabel && FindFrom(code, t, 0).Some? {
      LabelFound(Optimised(code), t, Moved(code, FindFrom(code, t, 0).value));
    }
  }

  /** A kept instruction steps the same way in both. */
  lemma KeptStep(code: seq<ArmInstr>, i: nat, s: ArmState, env: Env)
    requires UniqueLabels(code) && i < |code| && !Removed(code, i)
    ensures var c := ArmStep(code, At(i, s), env);
      (c.At? ==> c.pc <= |code|) && ArmStep(Optimised(code), At(Moved(code, i), s), env) == MovedStatus(code, c)
  {
    KeptAt(code, i, |code|);
    assert Moved(code, i + 1) == Moved(code, i) + 1;
    match code[i]
    case B(t) => JumpsAgree(code, t, s);
    case BCond(_, t) => JumpsAgree(code, t, s);
    case _ =>
  }

  lemma EndStep(code: seq<ArmInstr>, s: ArmState, env: Env)
    ensures ArmStep(code, At(|code|, s), env) == Exited(s) == ArmStep(Optimised(code), At(Moved(code, |code|), s), env)
  {
  }

  /** From a deleted instruction the original code gets, in k steps, to a later position i', and the optimised code, in
      j steps, to where that has moved, in the same state. */
  lemma RemovedStep(code: seq<ArmInstr>, i: nat, s: ArmState, env: Env) returns (k: nat, j: nat, i': nat)
    requires UniqueLabels(code) && Paired(code) && i < |code| && Removed(code, i)
    ensures k >= 1 && i < i' <= |code|
    ensures ArmRun(code, At(i, s), env, k) == At(i', s)
    ensures ArmRun(Optimised(code), At(Moved(code, i), s), env, j) == At(Moved(code, i'), s)
  {
    assert Moved(code, i + 1) == Moved(code, i);
    OneArmStep(code, At(i, s), env);
    match code[i]
    case Mov(r, _) =>
      assert s.regs[r := s.regs[r]] == s.regs;
      assert ExecArm(code[i], s, env.symbol) == s;
      k, j, i' := 1, 0, i + 1;
    case B(t) =>
      LabelFound(code, t, i + 1);
      k, j, i' := 1, 0, i + 1;
    case BCond(cc, t) =>
      if LabelAt(code, i + 1, t) {
        LabelFound(code, t, i + 1);
        k, j, i' := 1, 0, i + 1;
      } else {
        k, j, i' := BranchOverOne(code, i, s, env);
      }
    case _ =>
  }

  /** A conditional branch to the label two ahead. */
  lemma BranchOverOne(code: seq<ArmInstr>, i: nat, s: ArmState, env: Env) returns (k: nat, j: nat, i': nat)
    requires UniqueLabels(code) && Paired(code) && i < |code| && code[i].BCond? && LabelAt(code, i + 2, code[i].target)
    requires !LabelAt(code, i + 1, code[i].target)
    ensures k >= 1 && i < i' <= |code|
    ensures ArmRun(code, At(i, s), env, k) == At(i', s)
    ensures ArmRun(Optimised(code), At(Moved(code, i), s), env, j) == At(Moved(code, i'), s)
  {
    var t := code[i].target;
    OneArmStep(code, At(i, s), env);
    LabelFound(code, t, i + 2);
    assert Moved(code, i + 1) == Moved(code, i);
    if !s.FlagsSay(code[i].cc) {
      k, j, i' := 1, 0, i + 1;
    } else if FirstOfPair(code, i) {
      // The other branch of the pair is not taken.
      k, i' := 1, i + 2;
      if Removed(code, i + 1) {
        j := 0;
        assert Moved(code, i + 2) == Moved(code, i + 1);
      } else {
        j := 1;
        KeptStep(code, i + 1, s, env);
        OneArmStep(Optimised(code), At(Moved(code, i), s), env);
      }
    } else {
      // A label stands between the branch and its target.
      assert SecondOfPair(code, i) && code[i + 1].LabelDef?;
      k, j, i' := 1, 1, i + 2;
      KeptStep(code, i + 1, s, env);
      OneArmStep(Optimised(code), At(Moved(code, i), s), env);
    }
  }

  /** Whatever the original code ends with, the optimised code ends with. */
  lemma {:induction false} OptimisedFollows(code: seq<ArmInstr>, i: nat, s: ArmState, env: Env, n: nat) returns (m: nat)
    requires UniqueLabels(code) && Paired(code) && i <= |code| && !ArmRun(code, At(i, s), env, n).At?
    ensures ArmRun(Optimised(code), At(Moved(code, i), s), env, m) == ArmRun(code, At(i, s), env, n)
    decreases n
  {
    var after := Optimised(code);
    if i == |code| {
      EndStep(code, s, env);
      OneArmStep(after, At(Moved(code, i), s), env);
      StoppedStaysPut(code, Exited(s), env, n - 1);
      m := 1;
    } else if Removed(code, i) {
      var k, j, i' := RemovedStep(code, i, s, env);
      if k > n {
        ArmRunAdd(code, At(i, s), env, n, k - n);
        StoppedStaysPut(code, ArmRun(code, At(i, s), env, n), env, k - n);
        assert false;
      } else {
        ArmRunAdd(code, At(i, s), env, k, n - k);
        var m' := OptimisedFollows(code, i', s, env, n - k);
        ArmRunAdd(after, At(Moved(code, i), s), env, j, m');
        m := j + m';
      }
    } else {
      KeptStep(code, i, s, env);
      var c := ArmStep(code, At(i, s), env);
      OneArmStep(after, At(Moved(code, i), s), env);
      if c.At? {
        var m' := OptimisedFollows(code, c.pc, c.s, env, n - 1);
        ArmRunAdd(after, At(Moved(code, i), s), env, 1, m');
        m := 1 + m';
      } else {
        StoppedStaysPut(code, c, env, n - 1);
        m := 1;
      }
    }
  }

  /** And the other way round. */
  lemma {:induction false} OriginalFollows(code: seq<ArmInstr>, i: nat, s: ArmState, env: Env, n: nat) returns (m: nat)
    requires UniqueLabels(code) && Paired(code) && i <= |code|
    requires !ArmRun(Optimised(code), At(Moved(code, i), s), env, n).At?
    ensures ArmRun(code, At(i, s), env, m) == ArmRun(Optimised(code), At(Moved(code, i), s), env, n)
    decreases n, |code| - i
  {
    var after := Optimised(code);
    if i == |code| {
      EndStep(code, s, env);
      OneArmStep(code, At(i, s), env);
      StoppedStaysPut(after, Exited(s), env, n - 1);
      m := 1;
    } else if Removed(code, i) {
      var k, j, i' := RemovedStep(code, i, s, env);
      if j > n {
        ArmRunAdd(after, At(Moved(code, i), s), env, n, j - n);
        StoppedStaysPut(after, ArmRun(after, At(Moved(code, i), s), env, n), env, j - n);
        assert false;
      } else {
        ArmRunAdd(after, At(Moved(code, i), s), env, j, n - j);
        var m' := OriginalFollows(code, i', s, env, n - j);
        ArmRunAdd(code, At(i, s), env, k, m');
        m := k + m';
      }
    } else {
      KeptStep(code, i, s, env);
      var c := ArmStep(code, At(i, s), env);
      OneArmStep(code, At(i, s), env);
      if c.At? {
        var m' := OriginalFollows(code, c.pc, c.s, env, n - 1);
        ArmRunAdd(code, At(i, s), env, 1, m');
        m := 1 + m';
      } else {
        StoppedStaysPut(after, c, env, n - 1);
        m := 1;
      }
    }
  }

  /** A run from the start ends with c. */
  ghost predicate EndsWith(code: seq<ArmInstr>, s: ArmState, env: Env, c: ArmStatus) {
    !c.At? && exists n :: ArmRun(code, At(0, s), env, n) == c
  }

  /** The pass keeps registers, memory and flags: a body with unique labels and paired branches exits in a state, or
      gets lost at a missing label, exactly when its optimised form does. */
  lemma PeepholePreservesRuns(code: seq<ArmInstr>, s: ArmState, env: Env, c: ArmStatus)
    requires UniqueLabels(code) && Paired(code)
    ensures EndsWith(code, s, env, c) <==> EndsWith(Optimised(code), s, env, c)
  {
    if EndsWith(code, s, env, c) {
      var n :| ArmRun(code, At(0, s), env, n) == c;
      var m := OptimisedFollows(code, 0, s, env, n);
    }
    if EndsWith(Optimised(code), s, env, c) {
      var n :| ArmRun(Optimised(code), At(0, s), env, n) == c;
      var m := OriginalFollows(code, 0, s, env, n);
    }
  }

  /** What deleting a branch to the label two ahead amounts to when an instruction stands in between: where the branch
      is taken, the original code skips that instruction and the optimised code executes it. At the label the two
      agree exactly if the instruction changes nothing. */
  lemma DeletedBranchRunsNext(code: seq<ArmInstr>, i: nat, s: ArmState, env: Env)
    requires UniqueLabels(code) && i < |code| && code[i].BCond? && LabelAt(code, i + 2, code[i].target)
    requires code[i + 1].IsPlain() && !code[i + 1].LabelDef? && !Removed(code, i + 1) && s.FlagsSay(code[i].cc)
    ensures var after := ArmRun(Optimised(code), At(Moved(code, i), s), env, 1);
      && ArmRun(code, At(i, s), env, 1) == At(i + 2, s)
      && after == At(Moved(code, i + 2), ExecArm(code[i + 1], s, env.symbol))
      && (after == MovedStatus(code, At(i + 2, s)) <==> ExecArm(code[i + 1], s, env.symbol) == s)
  {
    assert Moved(code, i + 1) == Moved(code, i);
    LabelFound(code, code[i].target, i + 2);
    OneArmStep(code, At(i, s), env);
    KeptStep(code, i + 1, s, env);
    OneArmStep(Optimised(code), At(Moved(code, i), s), env);
  }

  /** Pairing alone is not enough: when a pair is followed by an instruction instead of a label, deleting its second
      branch lets that instruction run. */
  lemma PairMustEndBlock(s: ArmState, env: Env)
    ensures var code := [BCond(EQ, BlockLabel(0)), BCond(NE, BlockLabel(1)), Mov(0, Num(7)),
                         LabelDef(BlockLabel(1)), B(ExitLabel), LabelDef(BlockLabel(0))];
      var unequal := s.(flags := (0, 1));
      && UniqueLabels(code) && code[1].cc == code[0].cc.Negate()
      && EndsWith(code, unequal, env, Exited(unequal))
      && EndsWith(Optimised(code), unequal, env, Exited(unequal.Set(0, 7)))
  {
    var code := [BCond(EQ, BlockLabel(0)), BCond(NE, BlockLabel(1)), Mov(0, Num(7)),
                 LabelDef(BlockLabel(1)), B(ExitLabel), LabelDef(BlockLabel(0))];
    var u := s.(flags := (0, 1));
    var after := [BCond(EQ, BlockLabel(0)), Mov(0, Num(7)), LabelDef(BlockLabel(1)), B(ExitLabel),
                  LabelDef(BlockLabel(0))];
    assert Optimised(code) == after by { PairDeleted(code, after); }
    hide KeptUpTo, Optimised;
    LabelFound(code, BlockLabel(1), 3);
    assert ArmStep(code, At(0, u), env) == At(1, u);
    assert ArmStep(code, At(1, u), env) == At(3, u);
    assert ArmStep(code, At(3, u), env) == At(4, u);
    assert ArmStep(code, At(4, u), env) == Exited(u);
    FourSteps(code, At(0, u), env);
    var v := u.Set(0, 7);
    assert ArmStep(after, At(0, u), env) == At(1, u);
    assert ArmStep(after, At(1, u), env) == At(2, v);
    assert ArmStep(after, At(2, v), env) == At(3, v);
    assert ArmStep(after, At(3, v), env) == Exited(v);
    FourSteps(after, At(0, u), env);
  }

  lemma PairDeleted(code: seq<ArmInstr>, after: seq<ArmInstr>)
    requires code == [BCond(EQ, BlockLabel(0)), BCond(NE, BlockLabel(1)), Mov(0, Num(7)),
                      LabelDef(BlockLabel(1)), B(ExitLabel), LabelDef(BlockLabel(0))]
    requires after == [code[0], code[2], code[3], code[4], code[5]]
    ensures Optimised(code) == after
  {
    assert KeptUpTo(code, 1) == [code[0]];
    assert KeptUpTo(code, 2) == [code[0]];
    assert KeptUpTo(code, 3) == [code[0], code[2]];
    assert KeptUpTo(code, 4) == [code[0], code[2], code[3]];
    assert KeptUpTo(code, 5) == [code[0], code[2], code[3], code[4]];
  }

  lemma FourSteps(code: seq<ArmInstr>, c: ArmStatus, env: Env)
    ensures ArmRun(code, c, env, 4) == ArmStep(code, ArmStep(code, ArmStep(code, ArmStep(code, c, env), env), env), env)
  {
    var c1 := ArmStep(code, c, env);
    var c2 := ArmStep(code, c1, env);
    var c3 := ArmStep(code, c2, env);
    OneArmStep(code, c3, env);
    ArmRunAdd(code, c2, env, 1, 1);
    OneArmStep(code, c2, env);
    ArmRunAdd(code, c1, env, 1, 2);
    OneArmStep(code, c1, env);
    ArmRunAdd(code, c, env, 1, 3);
    OneArmStep(code, c, env);
  }
}
