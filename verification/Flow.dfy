/** The branch graph of code: only the first terminator of a block ever runs. */
module Flow {
  import opened Words
  import opened Events
  import opened Ir
  import opened IrSemantics
  import opened Reachability

  /** The position of the first terminator, or the length when there is none. */
  function FirstExit(ins: seq<Instr>): (k: nat)
    ensures k <= |ins|
    ensures forall i :: 0 <= i < k ==> !ins[i].IsTerminator()
    ensures k < |ins| ==> ins[k].IsTerminator()
  {
    if ins == [] || ins[0].IsTerminator() then 0
    else
      var k := 1 + FirstExit(ins[1..]);
      assert forall i :: 1 <= i < k ==> ins[i] == ins[1..][i - 1];
      k
  }

  predicate Terminated(ins: seq<Instr>) { FirstExit(ins) < |ins| }

  /** The block up to and including its first terminator. */
  function Truncate(ins: seq<Instr>): seq<Instr> {
    if Terminated(ins) then ins[..FirstExit(ins) + 1] else ins
  }

  /** Where the block can go, as a sequence. */
  function Exits(ins: seq<Instr>): seq<Label> {
    if !Terminated(ins) then []
    else
      match ins[FirstExit(ins)]
      case Br(l) => [l]
      case BrCond(_, t, f, _) => [t, f]
      case _ => []
  }

  function FlowGraph(code: Code): Edges {
    map l | l in code :: Exits(code[l])
  }

  /** Reached from the root by branches that can run. */
  ghost predicate Live(code: Code, root: Label, l: Label) {
    Reachable(FlowGraph(code), root, l)
  }

  /** Where a run from the root can be: in a live block, not past its first terminator. */
  ghost predicate OnPath(code: Code, root: Label, s: Status) {
    s.Running? ==> Live(code, root, s.at) && (s.at in code ==> s.index <= FirstExit(code[s.at]))
  }

  lemma StepStaysOnPath(code: Code, root: Label, s: Status, w: World)
    requires OnPath(code, root, s)
    ensures OnPath(code, root, Step(code, s, w))
  {
    if s.Running? && s.at in code && s.index < |code[s.at]| {
      var g := FlowGraph(code);
      var k := FirstExit(code[s.at]);
      if s.index == k {
        forall l | l in Exits(code[s.at]) ensures Live(code, root, l) {
          ReachableStep(g, root, s.at, l);
        }
        var exits := Exits(code[s.at]);
        match code[s.at][k] {
          case Br(l) => assert exits[0] == l;
          case BrCond(_, t, f, _) => assert exits[0] == t && exits[1] == f;
          case _ =>
        }
      }
    }
  }

  lemma {:induction false} RunStaysOnPath(code: Code, root: Label, s: Status, w: World, n: nat)
    requires OnPath(code, root, s)
    ensures OnPath(code, root, Run(code, s, w, n))
    decreases n
  {
    if n > 0 {
      StepStaysOnPath(code, root, s, w);
      RunStaysOnPath(code, root, Step(code, s, w), w, n - 1);
    }
  }

  /** Code that differs only in dead blocks and after first terminators runs the same, step by step. */
  ghost predicate SameWhereLive(code: Code, code': Code, root: Label) {
    forall l :: Live(code, root, l) ==>
      (l in code <==> l in code') && (l in code ==> code'[l] == code[l] || code'[l] == Truncate(code[l]))
  }

  lemma {:induction false} SameRuns(code: Code, code': Code, root: Label, s: Status, w: World, n: nat)
    requires SameWhereLive(code, code', root) && OnPath(code, root, s)
    ensures Run(code', s, w, n) == Run(code, s, w, n)
    decreases n
  {
    if n > 0 {
      StepStaysOnPath(code, root, s, w);
      SameStep(code, code', root, s, w);
      SameRuns(code, code', root, Step(code, s, w), w, n - 1);
    }
  }

  lemma SameStep(code: Code, code': Code, root: Label, s: Status, w: World)
    requires SameWhereLive(code, code', root) && OnPath(code, root, s)
    ensures Step(code', s, w) == Step(code, s, w)
  {
    if s.Running? && s.at in code && code'[s.at] != code[s.at] {
      var ins := code[s.at];
      assert code'[s.at] == ins[..FirstExit(ins) + 1];
      assert code'[s.at][s.index] == ins[s.index];
    }
  }
}
