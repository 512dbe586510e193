/** Runs of flat ARM code, by position: branches go to labels, and the end of the body is the exit of the function. */
module ArmRuns {
  import opened Words
  import opened Ir
  import opened Arm

  /** What a call does to the state, and where globals are. */
  datatype Env = Env(call: (string, ArmState) -> ArmState, symbol: string -> int)

  datatype ArmStatus = At(pc: nat, s: ArmState) | Exited(s: ArmState) | Lost

  /** Each block label is defined at most once, and the exit, which follows the body, not in it. */
  predicate UniqueLabels(code: seq<ArmInstr>) {
    && (forall i, j :: 0 <= i < j < |code| && code[i].LabelDef? && code[j].LabelDef? ==> code[i] != code[j])
    && (forall i <- code :: i != LabelDef(ExitLabel))
  }

  function FindFrom(code: seq<ArmInstr>, t: Target, i: nat): Option<nat>
    requires i <= |code|
    decreases |code| - i
  {
    if i == |code| then None else if code[i] == LabelDef(t) then Some(i) else FindFrom(code, t, i + 1)
  }

  lemma {:induction false} FindsLabel(code: seq<ArmInstr>, t: Target, i: nat)
    requires i <= |code|
    ensures FindFrom(code, t, i) == None ==> forall j :: i <= j < |code| ==> code[j] != LabelDef(t)
    ensures FindFrom(code, t, i).Some? ==> var k := FindFrom(code, t, i).value;
      i <= k < |code| && code[k] == LabelDef(t)
    decreases |code| - i
  {
    if i < |code| && code[i] != LabelDef(t) { FindsLabel(code, t, i + 1); }
  }

  lemma LabelFound(code: seq<ArmInstr>, t: Target, k: nat)
    requires UniqueLabels(code) && k < |code| && code[k] == LabelDef(t)
    ensures t != ExitLabel && FindFrom(code, t, 0) == Some(k)
  {
    assert code[k] in code;
    FindsLabel(code, t, 0);
  }

  function Jump(code: seq<ArmInstr>, t: Target, s: ArmState): ArmStatus {
    if t == ExitLabel then Exited(s)
    else
      match FindFrom(code, t, 0)
      case None => Lost
      case Some(k) => At(k, s)
  }

  function ArmStep(code: seq<ArmInstr>, c: ArmStatus, env: Env): ArmStatus {
    if !c.At? then c
    else if c.pc >= |code| then Exited(c.s)
    else
      var i := code[c.pc];
      if i.B? then Jump(code, i.target, c.s)
      else if i.BCond? then (if c.s.FlagsSay(i.cc) then Jump(code, i.target, c.s) else At(c.pc + 1, c.s))
      else if i.Bl? then At(c.pc + 1, env.call(i.name, c.s))
      else At(c.pc + 1, ExecArm(i, c.s, env.symbol))
  }

  function ArmRun(code: seq<ArmInstr>, c: ArmStatus, env: Env, n: nat): ArmStatus
    decreases n
  {
    if n == 0 then c else ArmRun(code, ArmStep(code, c, env), env, n - 1)
  }

  lemma {:induction false} ArmRunAdd(code: seq<ArmInstr>, c: ArmStatus, env: Env, n: nat, k: nat)
    ensures ArmRun(code, c, env, n + k) == ArmRun(code, ArmRun(code, c, env, n), env, k)
    decreases n
  {
    if n > 0 { ArmRunAdd(code, ArmStep(code, c, env), env, n - 1, k); }
  }

  lemma {:induction false} StoppedStaysPut(code: seq<ArmInstr>, c: ArmStatus, env: Env, n: nat)
    requires !c.At?
    ensures ArmRun(code, c, env, n) == c
    decreases n
  {
    if n > 0 { StoppedStaysPut(code, c, env, n - 1); }
  }

  lemma OneArmStep(code: seq<ArmInstr>, c: ArmStatus, env: Env)
    ensures ArmRun(code, c, env, 1) == ArmStep(code, c, env)
  {
    assert ArmRun(code, ArmStep(code, c, env), env, 0) == ArmStep(code, c, env);
  }

  /** Straight code placed at a position runs as it executes. */
  lemma {:induction false} RunPlain(code: seq<ArmInstr>, at: nat, ins: seq<ArmInstr>, s: ArmState, env: Env)
    requires at + |ins| <= |code| && code[at..at + |ins|] == ins && Plain(ins)
    ensures ArmRun(code, At(at, s), env, |ins|) == At(at + |ins|, ExecArmAll(ins, s, env.symbol))
    decreases ins
  {
    if ins != [] {
      assert code[at] == ins[0];
      assert code[at + 1..at + 1 + |ins[1..]|] == ins[1..];
      RunPlain(code, at + 1, ins[1..], ExecArm(ins[0], s, env.symbol), env);
    }
  }
}
