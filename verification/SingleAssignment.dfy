/** Single assignment over whole functions and programs: the label and register generators never repeat themselves. */
module SingleAssignment {
  import opened Words
  import opened Ir
  import opened IrSemantics
  import opened Translation
  import opened Growth
  import opened Temps
  import S = Source

  ghost predicate DefinesAt(code: Code, l: Label, i: nat, k: nat) {
    l in code && i < |code[l]| && k in DestTemps(code[l][i])
  }

  ghost predicate UsesAt(code: Code, l: Label, i: nat, k: nat) {
    l in code && i < |code[l]| && k in UsedTemps(code[l][i])
  }

  lemma {:induction false} UseHasDef(ins: seq<Instr>, given: set<nat>, i: nat, k: nat) returns (j: nat)
    requires UsesAfter(ins, given) && i < |ins| && k in UsedTemps(ins[i]) && k !in given
    ensures j < i && k in DestTemps(ins[j])
    decreases i
  {
    if i > 0 {
      if k in DestTemps(ins[0]) {
        j := 0;
      } else {
        j := UseHasDef(ins[1..], given + DestTemps(ins[0]), i - 1, k);
        j := j + 1;
      }
    }
  }

  lemma {:induction false} NumberedBounds(ins: seq<Instr>, n: nat, m: nat, i: nat, k: nat)
    requires Numbered(ins, n, m) && i < |ins| && k in DestTemps(ins[i])
    ensures n <= k < m
    decreases i
  {
    var d := DestTemps(ins[0]);
    if d == {} {
      NumberedBounds(ins[1..], n, m, i - 1, k);
    } else if i > 0 {
      var j :| n <= j < m && d == {j} && Numbered(ins[1..], j + 1, m);
      NumberedBounds(ins[1..], j + 1, m, i - 1, k);
    }
  }

  lemma {:induction false} NumberedOnce(ins: seq<Instr>, n: nat, m: nat, i: nat, j: nat, k: nat)
    requires Numbered(ins, n, m) && i <= j < |ins| && k in DestTemps(ins[i]) && k in DestTemps(ins[j])
    ensures i == j
    decreases i
  {
    var d := DestTemps(ins[0]);
    if d == {} {
      NumberedOnce(ins[1..], n, m, i - 1, j - 1, k);
    } else {
      var h :| n <= h < m && d == {h} && Numbered(ins[1..], h + 1, m);
      if i > 0 {
        NumberedOnce(ins[1..], h + 1, m, i - 1, j - 1, k);
      } else if j > 0 {
        NumberedBounds(ins[1..], h + 1, m, j - 1, k);
      }
    }
  }

  // ----- One graph -----

  /** Definitions come from the registers handed out since lo. */
  ghost predicate DefsWithin(b: Build, lo: nat) {
    forall l: Label, i: nat, k: nat :: DefinesAt(b.code, l, i, k) ==> lo <= k < b.nextReg
  }

  /** No temporary is defined by two instructions. */
  ghost predicate DefinedOnce(code: Code) {
    forall l: Label, i: nat, m: Label, j: nat, k: nat :: DefinesAt(code, l, i, k) && DefinesAt(code, m, j, k) ==>
        l == m && i == j
  }

  ghost predicate UsesFollowDefs(code: Code) {
    forall l <- code :: UsesAfter(code[l], {})
  }

  ghost predicate SingleAssigned(b: Build, lo: nat) {
    b.Valid() && lo <= b.nextReg && DefsWithin(b, lo) && DefinedOnce(b.code) && UsesFollowDefs(b.code)
  }

  /** Any use of a temporary comes after its definition, in the same block. */
  lemma UseFollowsDef(b: Build, lo: nat, l: Label, i: nat, k: nat) returns (j: nat)
    requires SingleAssigned(b, lo) && UsesAt(b.code, l, i, k)
    ensures j < i && DefinesAt(b.code, l, j, k)
  {
    j := UseHasDef(b.code[l], {}, i, k);
  }

  lemma AppendedDef(b: Build, l: Label, ins: seq<Instr>, m: Label, j: nat, k: nat)
    requires l in b.code && DefinesAt(b.Append(l, ins).code, m, j, k)
    ensures DefinesAt(b.code, m, j, k) || (m == l && |b.code[l]| <= j < |b.code[l]| + |ins|
                                           && k in DestTemps(ins[j - |b.code[l]|]))
  {
    if m == l {
      assert b.Append(l, ins).code[l] == b.code[l] + ins;
      if j >= |b.code[l]| { assert (b.code[l] + ins)[j] == ins[j - |b.code[l]|]; }
    }
  }

  /** Appending a chunk that uses the next registers. */
  lemma AppendAssigned(b: Build, lo: nat, l: Label, ins: seq<Instr>, next: nat)
    requires SingleAssigned(b, lo) && l in b.code && Chunk(ins, b.nextReg, next)
    ensures SingleAssigned(b.Append(l, ins).(nextReg := next), lo)
  {
    hide Numbered, UsesAfter, DestTemps, UsesFollowDefs;
    AppendUses(b, l, ins);
    var c := b.Append(l, ins).(nextReg := next);
    forall m: Label, j: nat, k: nat | DefinesAt(c.code, m, j, k)
        ensures lo <= k < next && (DefinesAt(b.code, m, j, k) || k >= b.nextReg) {
      AppendedDef(b, l, ins, m, j, k);
      if !DefinesAt(b.code, m, j, k) { NumberedBounds(ins, b.nextReg, next, j - |b.code[l]|, k); }
    }
    forall m: Label, i: nat, o: Label, j: nat, k: nat | DefinesAt(c.code, m, i, k) && DefinesAt(c.code, o, j, k)
        ensures m == o && i == j {
      AppendedDef(b, l, ins, m, i, k);
      AppendedDef(b, l, ins, o, j, k);
      if !DefinesAt(b.code, m, i, k) && !DefinesAt(b.code, o, j, k) {
        var base := |b.code[l]|;
        var first, second := if i <= j then i else j, if i <= j then j else i;
        NumberedOnce(ins, b.nextReg, next, first - base, second - base, k);
      }
    }
  }

  lemma AppendUses(b: Build, l: Label, ins: seq<Instr>)
    requires UsesFollowDefs(b.code) && l in b.code && UsesAfter(ins, {})
    ensures UsesFollowDefs(b.Append(l, ins).code)
  {
    UsesMono(ins, {}, {} + Defs(b.code[l]));
    UsesAppend(b.code[l], ins, {});
  }

  lemma AppendBranchAssigned(b: Build, lo: nat, l: Label, x: Label)
    requires SingleAssigned(b, lo) && l in b.code
    ensures SingleAssigned(b.Append(l, [Br(x)]), lo)
  {
    hide SingleAssigned, Chunk;
    EmptyChunk(b.nextReg);
    ChunkNone([], Br(x), b.nextReg, b.nextReg);
    assert [] + [Br(x)] == [Br(x)];
    AppendAssigned(b, lo, l, [Br(x)], b.nextReg);
  }

  lemma AddBlockAssigned(b: Build, lo: nat, preds: seq<Label>, succs: seq<Label>, exit: Option<Label>)
    requires SingleAssigned(b, lo)
    ensures SingleAssigned(AddBlock(b, preds, succs, exit), lo)
  {
    var c := AddBlock(b, preds, succs, exit);
    forall l: Label, i: nat, k: nat | DefinesAt(c.code, l, i, k) ensures DefinesAt(b.code, l, i, k) {}
  }

  lemma AddSuccsAssigned(b: Build, lo: nat, l: Label, ls: seq<Label>)
    requires SingleAssigned(b, lo) && l in b.code
    ensures SingleAssigned(AddSuccs(b, l, ls), lo)
  {
  }

  lemma NewIfAssigned(b: Build, cur: Label, lo: nat)
    requires SingleAssigned(b, lo) && cur in b.code
    ensures SingleAssigned(NewIf(b, cur), lo)
  {
    hide SingleAssigned;
    var t, f, x, exit := b.nextLabel, b.nextLabel + 1, b.nextLabel + 2, b.LoopExit(cur);
    var b0 := AddSuccs(b, cur, [t, f]);
    var b1 := AddBlock(b0, [cur], [x], exit);
    AddSuccsAssigned(b, lo, cur, [t, f]);
    AddBlockAssigned(b0, lo, [cur], [x], exit);
    AddBlockAssigned(b1, lo, [cur], [x], exit);
    AddBlockAssigned(AddBlock(b1, [cur], [x], exit), lo, [t, f], [], exit);
  }

  lemma NewForAssigned(b: Build, cur: Label, lo: nat)
    requires SingleAssigned(b, lo) && cur in b.code
    ensures SingleAssigned(NewFor(b, cur), lo)
  {
    hide SingleAssigned;
    var e, y, x := b.nextLabel, b.nextLabel + 1, b.nextLabel + 2;
    var b0 := AddSuccs(b, cur, [e]);
    var b1 := AddBlock(b0, [], [y, x], Some(x));
    AddSuccsAssigned(b, lo, cur, [e]);
    AddBlockAssigned(b0, lo, [], [y, x], Some(x));
    AddBlockAssigned(b1, lo, [e], [e], Some(x));
    AddBlockAssigned(AddBlock(b1, [e], [e], Some(x)), lo, [e], [], None);
  }

  lemma BranchAssigned(b: Build, lo: nat, at: Label, cond: S.Expr, sc: S.Scope, t: Label, f: Label, isLoop: bool)
    requires SingleAssigned(b, lo) && at in b.code
    ensures SingleAssigned(Branch(b, at, cond, sc, t, f, isLoop), lo)
  {
    hide SingleAssigned, Chunk, Expr, Test;
    var c := Test(Expr(cond, sc, b.nextReg), isLoop);
    BranchChunk(cond, sc, b.nextReg, t, f, isLoop);
    AppendAssigned(b, lo, at, c.ins + [BrCond(c.opnd, t, f, EQ)], c.next);
  }

  lemma StmAssigned(s: S.Stm, cur: Label, b: Build, sc: S.Scope, lo: nat)
    requires SingleAssigned(b, lo) && cur in b.code
    ensures SingleAssigned(Stm(s, cur, b, sc).b, lo)
    decreases s, 2
  {
    hide SingleAssigned, Chunk, Simple;
    if s.Conditional? {
      IfAssigned(s, cur, b, sc, lo);
    } else if s.Loop? {
      ForAssigned(s, cur, b, sc, lo);
    } else {
      SimpleChunk(s, sc, b.nextReg);
      AppendAssigned(b, lo, cur, Simple(s, sc, b.nextReg).0, Simple(s, sc, b.nextReg).1);
    }
  }

  lemma AssignedValid(b: Build, lo: nat)
    requires SingleAssigned(b, lo)
    ensures b.Valid()
  {
  }

  lemma StmsAssigned(ss: seq<S.Stm>, cur: Label, b: Build, sc: S.Scope, lo: nat)
    requires SingleAssigned(b, lo) && cur in b.code
    ensures SingleAssigned(Stms(ss, cur, b, sc).b, lo)
    decreases ss, 0
  {
    hide SingleAssigned, Grows;
    if ss != [] {
      var p := Stm(ss[0], cur, b, sc);
      AssignedValid(b, lo);
      StmAssigned(ss[0], cur, b, sc, lo);
      StmGrows(ss[0], cur, b, sc);
      StmsAssigned(ss[1..], p.cur, p.b, sc, lo);
    }
  }

  lemma NestedAssigned(ss: seq<S.Stm>, at: Label, b: Build, sc: S.Scope, x: Label, lo: nat)
    requires SingleAssigned(b, lo) && at in b.code
    ensures SingleAssigned(Nested(ss, at, b, sc, x), lo)
    decreases ss, 1
  {
    hide SingleAssigned, Grows;
    var p := Stms(ss, at, b, sc);
    AssignedValid(b, lo);
    StmsAssigned(ss, at, b, sc, lo);
    StmsGrows(ss, at, b, sc);
    AppendBranchAssigned(p.b, lo, p.cur, x);
  }

  lemma IfAssigned(s: S.Stm, cur: Label, b: Build, sc: S.Scope, lo: nat)
    requires s.Conditional? && SingleAssigned(b, lo) && cur in b.code
    ensures SingleAssigned(If(s, cur, b, sc).b, lo)
    decreases s, 1
  {
    hide SingleAssigned, NewIf, Branch, Build.Append, Build.Valid;
    var t, f, x := b.nextLabel, b.nextLabel + 1, b.nextLabel + 2;
    var b0 := NewIf(b, cur);
    var b1 := Branch(b0, cur, s.cond, sc, t, f, false);
    var b2 := Nested(s.ifblock, t, b1, sc, x);
    AssignedValid(b, lo);
    IfPieces(s, cur, b, sc);
    NewIfAssigned(b, cur, lo);
    BranchAssigned(b0, lo, cur, s.cond, sc, t, f, false);
    NestedAssigned(s.ifblock, t, b1, sc, x, lo);
    if s.elseblock.Else? {
      NestedAssigned(s.elseblock.stms, f, b2, sc, x, lo);
    } else {
      AppendBranchAssigned(b2, lo, f, x);
    }
  }

  lemma ForAssigned(s: S.Stm, cur: Label, b: Build, sc: S.Scope, lo: nat)
    requires s.Loop? && SingleAssigned(b, lo) && cur in b.code
    ensures SingleAssigned(For(s, cur, b, sc).b, lo)
    decreases s, 1
  {
    hide SingleAssigned, NewFor, Branch, Build.Append, Build.Valid;
    var e, y, x := b.nextLabel, b.nextLabel + 1, b.nextLabel + 2;
    var b0 := NewFor(b, cur);
    var b1 := b0.Append(cur, [Br(e)]);
    var b2 := Branch(b1, e, s.cond, sc, y, x, true);
    AssignedValid(b, lo);
    ForPieces(s, cur, b, sc);
    NewForAssigned(b, cur, lo);
    AppendBranchAssigned(b0, lo, cur, e);
    BranchAssigned(b1, lo, e, s.cond, sc, y, x, true);
    NestedAssigned(s.block, y, b2, sc, e, lo);
  }

  // ----- Functions -----

  /** The graph of one function: single-assigned, with labels from lowLabel on. */
  ghost predicate FromCounters(b: Build, lowLabel: nat, lowReg: nat) {
    SingleAssigned(b, lowReg) && lowLabel <= b.nextLabel && forall l <- b.code :: lowLabel <= l < b.nextLabel
  }

  lemma {:induction false} ParamsChunk(ps: seq<(string, S.Type)>, n: nat)
    ensures Chunk(ParamInstrs(ps), n, n) && Defs(ParamInstrs(ps)) == {}
  {
    hide Chunk, Numbered, UsesAfter, Defs;
    EmptyChunk(n);
    if ps != [] {
      ParamsChunk(ps[1..], n);
      var slot := Alloca(ParamSlot(ps[0].0));
      var copy := Store(Reg(RawParam(ps[0].0), IrType(ps[0].1)), ParamSlot(ps[0].0));
      ChunkNone([], slot, n, n);
      ChunkNone([] + [slot], copy, n, n);
      ChunkThen([] + [slot] + [copy], ParamInstrs(ps[1..]), n, n, n);
      assert [] + [slot] + [copy] == [slot, copy];
    }
  }

  lemma {:induction false} DeclsChunk(ds: seq<(string, S.Type)>, n: nat)
    ensures Chunk(DeclInstrs(ds), n, n) && Defs(DeclInstrs(ds)) == {}
  {
    hide Chunk, Numbered, UsesAfter, Defs;
    EmptyChunk(n);
    if ds != [] {
      DeclsChunk(ds[1..], n);
      ChunkNone([], Alloca(Local(ds[0].0)), n, n);
      ChunkThen([] + [Alloca(Local(ds[0].0))], DeclInstrs(ds[1..]), n, n, n);
      assert [] + [Alloca(Local(ds[0].0))] == [Alloca(Local(ds[0].0))];
    }
  }

  lemma PrologueChunk(f: S.Function, n: nat)
    ensures Chunk(Prologue(f), n, n)
  {
    hide Chunk, Numbered, UsesAfter, Defs;
    EmptyChunk(n);
    ChunkNone([], Alloca(RetVal), n, n);
    assert [] + [Alloca(RetVal)] == [Alloca(RetVal)];
    ParamsChunk(f.params, n);
    DeclsChunk(f.declarations, n);
    ChunkThen([Alloca(RetVal)], ParamInstrs(f.params), n, n, n);
    ChunkThen([Alloca(RetVal)] + ParamInstrs(f.params), DeclInstrs(f.declarations), n, n, n);
  }

  lemma StartAssigned(f: S.Function, n: nat, r: nat)
    ensures SingleAssigned(StartFunction(f, n, r), r)
  {
    hide Chunk, Prologue;
    var b := Start(n, r);
    assert SingleAssigned(b, r) by { assert b.code == map[n := []]; }
    PrologueChunk(f, r);
    AppendAssigned(b, r, n, Prologue(f), r);
  }

  lemma FunctionAssigned(f: S.Function, sc: S.Scope, n: nat, r: nat)
    ensures FromCounters(FunctionBody(f, sc, n, r).b, n, r)
  {
    hide SingleAssigned, Chunk, Grows, Stms, Build.Valid, StartFunction;
    var b := StartFunction(f, n, r);
    StartAssigned(f, n, r);
    AssignedValid(b, r);
    assert n in b.code && b.code.Keys == {n} && b.nextLabel == n + 1 by { StartKeys(f, n, r); }
    StmsAssigned(f.stms, n, b, sc, r);
    StmsGrows(f.stms, n, b, sc);
    var p := Stms(f.stms, n, b, sc);
    GrownLabels(n, b, p.b);
    if f.ret.None? {
      var ret := ReturnOf(Imm(0, I64), p.b.nextReg);
      EmptyChunk(p.b.nextReg);
      ReturnChunk([], Imm(0, I64), p.b.nextReg, p.b.nextReg);
      assert [] + ret == ret;
      AppendAssigned(p.b, r, p.cur, ret, p.b.nextReg + 1);
    }
  }

  lemma StartKeys(f: S.Function, n: nat, r: nat)
    ensures StartFunction(f, n, r).code.Keys == {n} && StartFunction(f, n, r).nextLabel == n + 1
  {
  }

  lemma GrownLabels(n: Label, b: Build, c: Build)
    requires Grows(n + 1, n, b, c) && b.code.Keys == {n}
    ensures n < c.nextLabel && forall l <- c.code :: n <= l < c.nextLabel
  {
  }

  // ----- Programs -----

  /** The functions of a program in order, the two generators running on from one to the next. */
  function TranslateAll(fs: seq<(S.Function, S.Scope)>, nextLabel: nat, nextReg: nat): seq<Build> {
    if fs == [] then []
    else
      var b := FunctionBody(fs[0].0, fs[0].1, nextLabel, nextReg).b;
      [b] + TranslateAll(fs[1..], b.nextLabel, b.nextReg)
  }

  lemma {:induction false} LaterFunctions(fs: seq<(S.Function, S.Scope)>, n: nat, r: nat, i: nat)
    requires i < |fs|
    ensures |TranslateAll(fs, n, r)| == |fs|
    ensures exists ni: nat, ri: nat :: ni >= n && ri >= r && FromCounters(TranslateAll(fs, n, r)[i], ni, ri)
    decreases fs
  {
    hide FromCounters, FunctionBody;
    var b := FunctionBody(fs[0].0, fs[0].1, n, r).b;
    FunctionAssigned(fs[0].0, fs[0].1, n, r);
    CountersGrow(b, n, r);
    if |fs| > 1 {
      LaterFunctions(fs[1..], b.nextLabel, b.nextReg, if i == 0 then 0 else i - 1);
    }
    if i > 0 {
      var ni: nat, ri: nat :| ni >= b.nextLabel && ri >= b.nextReg
          && FromCounters(TranslateAll(fs[1..], b.nextLabel, b.nextReg)[i - 1], ni, ri);
      assert TranslateAll(fs, n, r)[i] == TranslateAll(fs[1..], b.nextLabel, b.nextReg)[i - 1];
    } else {
      assert TranslateAll(fs, n, r)[0] == b;
    }
  }

  lemma CountersGrow(b: Build, n: nat, r: nat)
    requires FromCounters(b, n, r)
    ensures n <= b.nextLabel && r <= b.nextReg
  {
  }

  lemma {:induction false} FunctionsApart(fs: seq<(S.Function, S.Scope)>, n: nat, r: nat, i: nat, j: nat)
    requires i < j < |fs|
    ensures |TranslateAll(fs, n, r)| == |fs|
    ensures var bi, bj := TranslateAll(fs, n, r)[i], TranslateAll(fs, n, r)[j];
      && (forall l <- bi.code, m <- bj.code :: l < m)
      && (forall l: Label, x: nat, m: Label, y: nat, k: nat, h: nat ::
            DefinesAt(bi.code, l, x, k) && DefinesAt(bj.code, m, y, h) ==> k < h)
    decreases fs
  {
    hide SingleAssigned, FunctionBody;
    var b := FunctionBody(fs[0].0, fs[0].1, n, r).b;
    LaterFunctions(fs, n, r, 0);
    if i > 0 {
      FunctionsApart(fs[1..], b.nextLabel, b.nextReg, i - 1, j - 1);
    } else {
      FunctionAssigned(fs[0].0, fs[0].1, n, r);
      LaterFunctions(fs[1..], b.nextLabel, b.nextReg, j - 1);
      var nj: nat, rj: nat :| nj >= b.nextLabel && rj >= b.nextReg
          && FromCounters(TranslateAll(fs[1..], b.nextLabel, b.nextReg)[j - 1], nj, rj);
      AssignedDefs(b, r);
      AssignedDefs(TranslateAll(fs, n, r)[j], rj);
    }
  }

  lemma AssignedDefs(b: Build, lo: nat)
    requires SingleAssigned(b, lo)
    ensures DefsWithin(b, lo)
  {
  }

  /** Over a whole program all labels are distinct, each temporary has at most one defining instruction, and
      every use of one comes after its definition in the same block. */
  lemma ProgramIsSingleAssigned(fs: seq<(S.Function, S.Scope)>, i: nat, j: nat)
    requires i < |fs| && j < |fs|
    ensures |TranslateAll(fs, 0, 0)| == |fs|
    ensures var bi, bj := TranslateAll(fs, 0, 0)[i].code, TranslateAll(fs, 0, 0)[j].code;
      && (forall l :: l in bi && l in bj ==> i == j)
      && (forall l: Label, x: nat, m: Label, y: nat, k: nat :: DefinesAt(bi, l, x, k) && DefinesAt(bj, m, y, k) ==>
          i == j && l == m && x == y)
      && (forall l: Label, y: nat, k: nat :: UsesAt(bi, l, y, k) ==> exists x: nat :: x < y && DefinesAt(bi, l, x, k))
  {
    hide DefinesAt, UsesAt, Build.Valid, DefsWithin, UsesFollowDefs;
    LaterFunctions(fs, 0, 0, i);
    var ni: nat, ri: nat :| FromCounters(TranslateAll(fs, 0, 0)[i], ni, ri);
    var b := TranslateAll(fs, 0, 0)[i];
    if i < j { FunctionsApart(fs, 0, 0, i, j); }
    if j < i { FunctionsApart(fs, 0, 0, j, i); }
    forall l: Label, y: nat, k: nat | UsesAt(b.code, l, y, k)
        ensures exists x: nat :: x < y && DefinesAt(b.code, l, x, k) {
      var x := UseFollowsDef(b, ri, l, y, k);
    }
  }
}
