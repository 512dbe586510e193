/** What holds of the instructions of every simple statement, of every tested condition and of every plain branch holds
    of every instruction of a function behind its prologue. */
module EveryInstruction {
  import opened Words
  import opened Ir
  import opened IrSemantics
  import opened Translation
  import opened Growth
  import S = Source

  /** A property of an instruction in the block of a label. */
  type Property = (Label, Instr) -> bool

  ghost predicate AllOf(p: Property, l: Label, ins: seq<Instr>) {
    forall i <- ins :: p(l, i)
  }

  /** The code of a tested condition, and the branch on it to later blocks. */
  function Tested(cond: S.Expr, sc: S.Scope, n: nat, t: Label, f: Label, isLoop: bool): seq<Instr> {
    var c := Test(Expr(cond, sc, n), isLoop);
    c.ins + [BrCond(c.opnd, t, f, EQ)]
  }

  ghost predicate SimpleHas(p: Property, l: Label, s: S.Stm, sc: S.Scope, ret: Option<S.Type>, n: nat) {
    !s.Conditional? && !s.Loop? && S.WellTypedStm(s, sc, ret) ==> AllOf(p, l, Simple(s, sc, n).0)
  }

  ghost predicate TestedHas(p: Property, l: Label, c: S.Expr, sc: S.Scope, n: nat, t: Label, f: Label, isLoop: bool) {
    S.WellTyped(c, sc) && S.TypeOf(c, sc) == Some(S.BoolType) && l < t && l < f ==>
        AllOf(p, l, Tested(c, sc, n, t, f, isLoop))
  }

  ghost predicate Admits(p: Property, sc: S.Scope, ret: Option<S.Type>) {
    && (forall l, s, n :: SimpleHas(p, l, s, sc, ret, n))
    && (forall l, c, n, t, f, isLoop :: TestedHas(p, l, c, sc, n, t, f, isLoop))
    && (forall l, x :: p(l, Br(x)))
  }

  /** Every instruction has the property, the first k of the root apart. */
  ghost predicate Everywhere(p: Property, b: Build, root: Label, k: nat) {
    && b.Valid() && root in b.code && k <= |b.code[root]|
    && forall l, j :: l in b.code && 0 <= j < |b.code[l]| && (l == root ==> j >= k) ==> p(l, b.code[l][j])
  }

  lemma EverywhereHas(p: Property, b: Build, root: Label, k: nat)
    requires Everywhere(p, b, root, k)
    ensures b.Valid()
  {
  }

  lemma EverywhereIs(p: Property, b: Build, root: Label, k: nat)
    requires Everywhere(p, b, root, k)
    ensures root in b.code && k <= |b.code[root]|
    ensures forall l, j :: l in b.code && 0 <= j < |b.code[l]| && (l == root ==> j >= k) ==> p(l, b.code[l][j])
  {
  }

  lemma AppendEverywhere(p: Property, b: Build, root: Label, k: nat, l: Label, ins: seq<Instr>, r: nat)
    requires Everywhere(p, b, root, k) && l in b.code && AllOf(p, l, ins) && b.nextReg <= r
    ensures Everywhere(p, b.Append(l, ins).(nextReg := r), root, k)
  {
    var c := b.Append(l, ins).(nextReg := r);
    assert c.code[l] == b.code[l] + ins;
    forall m, j | m in c.code && 0 <= j < |c.code[m]| && (m == root ==> j >= k) ensures p(m, c.code[m][j]) {
      if m == l && j >= |b.code[l]| { assert c.code[l][j] == ins[j - |b.code[l]|]; }
    }
  }

  lemma BlocksEverywhere(p: Property, b: Build, cur: Label, root: Label, k: nat)
    requires Everywhere(p, b, root, k) && cur in b.code
    ensures Everywhere(p, NewIf(b, cur), root, k) && Everywhere(p, NewFor(b, cur), root, k)
  {
    hide NewIf, NewFor;
    NewBlocksCode(b, cur);
    NewIfGrows(b, cur);
    NewForGrows(b, cur);
    BelowNext(b, root);
    MoreEmpty(p, b, NewIf(b, cur), root, k);
    MoreEmpty(p, b, NewFor(b, cur), root, k);
  }

  lemma MoreEmpty(p: Property, b: Build, c: Build, root: Label, k: nat)
    requires Everywhere(p, b, root, k) && c.Valid() && root < b.nextLabel
    requires var n := b.nextLabel; c.code == b.code[n := []][n + 1 := []][n + 2 := []]
    ensures Everywhere(p, c, root, k)
  {
  }

  lemma StmEverywhere(p: Property, s: S.Stm, cur: Label, b: Build, sc: S.Scope, ret: Option<S.Type>, root: Label,
                      k: nat)
    requires Admits(p, sc, ret) && S.WellTypedStm(s, sc, ret) && Everywhere(p, b, root, k) && cur in b.code
    ensures Everywhere(p, Stm(s, cur, b, sc).b, root, k)
    decreases s, 2
  {
    hide Everywhere, AllOf, Simple, Tested, S.WellTyped;
    if s.Conditional? {
      IfEverywhere(p, s, cur, b, sc, ret, root, k);
    } else if s.Loop? {
      ForEverywhere(p, s, cur, b, sc, ret, root, k);
    } else {
      var (ins, next) := Simple(s, sc, b.nextReg);
      assert SimpleHas(p, cur, s, sc, ret, b.nextReg);
      SimpleCounts(s, sc, b.nextReg);
      AppendEverywhere(p, b, root, k, cur, ins, next);
    }
  }

  lemma StmsEverywhere(p: Property, ss: seq<S.Stm>, cur: Label, b: Build, sc: S.Scope, ret: Option<S.Type>,
                       root: Label, k: nat)
    requires Admits(p, sc, ret) && S.WellTypedStms(ss, sc, ret) && Everywhere(p, b, root, k) && cur in b.code
    ensures Everywhere(p, Stms(ss, cur, b, sc).b, root, k)
    decreases ss, 0
  {
    hide Everywhere, Admits, S.WellTyped, Grows, Build.Valid;
    if ss != [] {
      var q := Stm(ss[0], cur, b, sc);
      EverywhereHas(p, b, root, k);
      StmEverywhere(p, ss[0], cur, b, sc, ret, root, k);
      StmGrows(ss[0], cur, b, sc);
      StmsEverywhere(p, ss[1..], q.cur, q.b, sc, ret, root, k);
    }
  }

  lemma BrEverywhere(p: Property, b: Build, sc: S.Scope, ret: Option<S.Type>, root: Label, k: nat, l: Label, x: Label)
    requires Admits(p, sc, ret) && Everywhere(p, b, root, k) && l in b.code
    ensures Everywhere(p, b.Append(l, [Br(x)]), root, k)
  {
    hide Everywhere;
    AppendEverywhere(p, b, root, k, l, [Br(x)], b.nextReg);
  }

  lemma NestedEverywhere(p: Property, ss: seq<S.Stm>, at: Label, b: Build, sc: S.Scope, x: Label, ret: Option<S.Type>,
                         root: Label, k: nat)
    requires Admits(p, sc, ret) && S.WellTypedStms(ss, sc, ret) && Everywhere(p, b, root, k) && at in b.code
    ensures Everywhere(p, Nested(ss, at, b, sc, x), root, k)
    decreases ss, 1
  {
    hide Everywhere, Admits, S.WellTyped, Grows, Build.Valid;
    EverywhereHas(p, b, root, k);
    var q := Stms(ss, at, b, sc);
    StmsEverywhere(p, ss, at, b, sc, ret, root, k);
    StmsGrows(ss, at, b, sc);
    BrEverywhere(p, q.b, sc, ret, root, k, q.cur, x);
  }

  lemma BranchEverywhere(p: Property, b: Build, at: Label, cond: S.Expr, sc: S.Scope, t: Label, f: Label, isLoop: bool,
                         ret: Option<S.Type>, root: Label, k: nat)
    requires Admits(p, sc, ret) && S.WellTyped(cond, sc) && S.TypeOf(cond, sc) == Some(S.BoolType) && at < t && at < f
    requires Everywhere(p, b, root, k) && at in b.code
    ensures Everywhere(p, Branch(b, at, cond, sc, t, f, isLoop), root, k)
  {
    hide Everywhere, Test, Expr, S.WellTyped;
    assert TestedHas(p, at, cond, sc, b.nextReg, t, f, isLoop);
    TestedCounts(cond, sc, b.nextReg, isLoop);
    var c := Test(Expr(cond, sc, b.nextReg), isLoop);
    AppendEverywhere(p, b, root, k, at, Tested(cond, sc, b.nextReg, t, f, isLoop), c.next);
  }

  lemma TestedCounts(cond: S.Expr, sc: S.Scope, n: nat, isLoop: bool)
    ensures n <= Test(Expr(cond, sc, n), isLoop).next
  {
    hide Expr;
    ExprCounts(cond, sc, n);
  }

  lemma IfEverywhere(p: Property, s: S.Stm, cur: Label, b: Build, sc: S.Scope, ret: Option<S.Type>, root: Label, k: nat)
    requires s.Conditional? && Admits(p, sc, ret) && S.WellTypedStm(s, sc, ret)
    requires Everywhere(p, b, root, k) && cur in b.code
    ensures Everywhere(p, If(s, cur, b, sc).b, root, k)
    decreases s, 1
  {
    hide Everywhere, Admits, S.WellTyped, Grows, Build.Valid, NewIf, Branch, Build.Append;
    var t, f, x := b.nextLabel, b.nextLabel + 1, b.nextLabel + 2;
    EverywhereHas(p, b, root, k);
    IfPieces(s, cur, b, sc);
    BelowNext(b, cur);
    BlocksEverywhere(p, b, cur, root, k);
    var b1 := Branch(NewIf(b, cur), cur, s.cond, sc, t, f, false);
    BranchEverywhere(p, NewIf(b, cur), cur, s.cond, sc, t, f, false, ret, root, k);
    var b2 := Nested(s.ifblock, t, b1, sc, x);
    NestedEverywhere(p, s.ifblock, t, b1, sc, x, ret, root, k);
    if s.elseblock.Else? {
      NestedEverywhere(p, s.elseblock.stms, f, b2, sc, x, ret, root, k);
    } else {
      BrEverywhere(p, b2, sc, ret, root, k, f, x);
    }
  }

  lemma ForEverywhere(p: Property, s: S.Stm, cur: Label, b: Build, sc: S.Scope, ret: Option<S.Type>, root: Label,
                      k: nat)
    requires s.Loop? && Admits(p, sc, ret) && S.WellTypedStm(s, sc, ret)
    requires Everywhere(p, b, root, k) && cur in b.code
    ensures Everywhere(p, For(s, cur, b, sc).b, root, k)
    decreases s, 1
  {
    hide Everywhere, Admits, S.WellTyped, Grows, Build.Valid, NewFor, Branch, Build.Append;
    var e, y, x := b.nextLabel, b.nextLabel + 1, b.nextLabel + 2;
    EverywhereHas(p, b, root, k);
    ForPieces(s, cur, b, sc);
    BlocksEverywhere(p, b, cur, root, k);
    var b1 := NewFor(b, cur).Append(cur, [Br(e)]);
    BrEverywhere(p, NewFor(b, cur), sc, ret, root, k, cur, e);
    var b2 := Branch(b1, e, s.cond, sc, y, x, true);
    BranchEverywhere(p, b1, e, s.cond, sc, y, x, true, ret, root, k);
    NestedEverywhere(p, s.block, y, b2, sc, e, ret, root, k);
  }

  /** The whole of a function behind its prologue, which the entry block begins with. */
  lemma FunctionEverywhere(p: Property, f: S.Function, sc: S.Scope, n: Label, r: nat)
    requires Admits(p, sc, f.ret) && S.WellTypedStms(f.stms, sc, f.ret)
    ensures var b := FunctionBody(f, sc, n, r).b;
      Everywhere(p, b, n, |Prologue(f)|) && Prologue(f) <= b.Code(n) && b.Valid()
  {
    hide Everywhere, Admits, S.WellTypedStms, Grows, Build.Valid, Prologue;
    var b0 := StartFunction(f, n, r);
    StartEverywhere(p, f, n, r);
    EverywhereHas(p, b0, n, |Prologue(f)|);
    var q := Stms(f.stms, n, b0, sc);
    StmsEverywhere(p, f.stms, n, b0, sc, f.ret, n, |Prologue(f)|);
    StmsGrows(f.stms, n, b0, sc);
    GrownRoot(n, b0, q.b);
    if f.ret.None? { EndEverywhere(p, f, q, sc, n, |Prologue(f)|); }
    EverywhereHas(p, FunctionBody(f, sc, n, r).b, n, |Prologue(f)|);
  }

  lemma GrownRoot(n: Label, b: Build, c: Build)
    requires Grows(b.nextLabel, n, b, c) && n in b.code
    ensures b.Code(n) <= c.Code(n)
  {
  }

  lemma StartEverywhere(p: Property, f: S.Function, n: Label, r: nat)
    ensures var b := StartFunction(f, n, r);
      Everywhere(p, b, n, |Prologue(f)|) && b.Code(n) == Prologue(f) && n in b.code
  {
    hide Prologue;
    assert [] + Prologue(f) == Prologue(f);
  }

  lemma EndEverywhere(p: Property, f: S.Function, q: Placed, sc: S.Scope, root: Label, k: nat)
    requires f.ret.None? && Admits(p, sc, f.ret) && Everywhere(p, q.b, root, k) && q.cur in q.b.code
    ensures Everywhere(p, EndFunction(f, q).b, root, k)
    ensures q.b.Code(root) <= EndFunction(f, q).b.Code(root)
  {
    hide Everywhere, AllOf;
    assert SimpleHas(p, q.cur, S.Return(None), sc, f.ret, q.b.nextReg);
    AppendEverywhere(p, q.b, root, k, q.cur, ReturnOf(Imm(0, I64), q.b.nextReg), q.b.nextReg + 1);
  }
}
