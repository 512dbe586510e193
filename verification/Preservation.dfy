/** Semantic preservation: the blocks generated for a statement run as the statement does. */
module Preservation {
  import opened Words
  import opened Events
  import opened Ir
  import opened IrSemantics
  import opened Translation
  import opened Growth
  import opened ExprPreservation
  import S = Source

  /** Every block of b is, instruction for instruction, the beginning of the block of g with the same label. */
  ghost predicate Embedded(b: Build, g: Code) {
    forall l <- b.code :: l in g && b.code[l] <= g[l]
  }

  lemma EmbeddedBefore(base: Label, cur: Label, b: Build, c: Build, g: Code)
    requires Grows(base, cur, b, c) && Embedded(c, g)
    ensures Embedded(b, g)
  {
    forall l <- b.code ensures l in g && b.code[l] <= g[l] {
      PrefixTrans(b.code[l], c.code[l], g[l]);
    }
  }

  /** After n steps from a status, the run is where the source outcome says: at the given point of the graph
      with related memory, finished with the returned value, gone wrong, or still going after at least fuel steps. */
  ghost predicate Arrives(out: S.Outcome, g: Code, w: World, from: Status, n: nat, im: IrMem,
                          to: Label, index: nat, sc: S.Scope, fuel: nat) {
    match out
    case Done(m) => Run(g, from, w, n) == Running(to, index, im) && Related(m, im, sc) && Typed(m, sc)
    case Returned(m, v) => Run(g, from, w, n) == Finished(im, v) && Related(m, im, sc)
    case Wrong => Run(g, from, w, n) == Faulted
    case OutOfFuel => n >= fuel && Run(g, from, w, n).Running?
  }

  /** Run n steps to a point, then arrive from there. */
  lemma ArrivesAfter(out: S.Outcome, g: Code, w: World, from: Status, n: nat, mid: Status, k: nat, im: IrMem,
                     to: Label, index: nat, sc: S.Scope, fuel: nat, fuel': nat)
    requires Run(g, from, w, n) == mid && Arrives(out, g, w, mid, k, im, to, index, sc, fuel) && fuel' <= n + fuel
    ensures Arrives(out, g, w, from, n + k, im, to, index, sc, fuel')
  {
    RunAdd(g, from, w, n, k);
  }

  lemma RunOne(g: Code, s: Status, w: World)
    ensures Run(g, s, w, 1) == Step(g, s, w)
  {
    assert Run(g, Step(g, s, w), w, 0) == Step(g, s, w);
  }

  lemma Slice<T>(a: seq<T>, b: seq<T>, c: seq<T>)
    requires a + b <= c
    ensures |a| + |b| <= |c| && c[|a|..|a| + |b|] == b
    ensures forall i :: 0 <= i < |b| ==> c[|a| + i] == b[i]
  {
    assert forall i :: 0 <= i < |b| ==> (a + b)[|a| + i] == b[i];
  }

  // ----- Statements that add no block -----

  /** Straight-line code placed after the first k instructions of a block. */
  lemma PlacedStraight(g: Code, l: Label, before: seq<Instr>, ins: seq<Instr>, after: seq<Instr>, im: IrMem, w: World)
    requires l in g && before + (ins + after) <= g[l] && Straight(ins)
    ensures Run(g, Running(l, |before|, im), w, |ins|) ==
            match ExecAll(ins, im, w) case None => Faulted case Some(m1) => Running(l, |before| + |ins|, m1)
  {
    Slice(before, ins + after, g[l]);
    assert g[l][|before|..|before| + |ins|] == ins by {
      assert (ins + after)[..|ins|] == ins;
    }
    RunStraight(g, l, |before|, ins, im, w);
  }

  lemma ReturnRuns(g: Code, l: Label, k: nat, v: Operand, r: nat, x: int, im: IrMem, w: World) returns (im': IrMem)
    requires l in g && k + 3 <= |g[l]| && im.Val(v) == Some(x)
    requires g[l][k..k + 3] == ReturnOf(v, r)
    ensures Run(g, Running(l, k, im), w, 3) == Finished(im', x)
    ensures im'.globals == im.globals && im'.log == im.log
    ensures forall e: Entry :: e != RetVal && !e.Temp? ==>
      (e in im.vars <==> e in im'.vars) && (e in im.vars ==> im.vars[e] == im'.vars[e])
  {
    var a := im.Set(RetVal, x);
    im' := a.Set(Temp(r), x);
    var ret := g[l][k..k + 3];
    assert ret[0] == g[l][k] && ret[1] == g[l][k + 1] && ret[2] == g[l][k + 2];
    assert g[l][k] == Store(v, RetVal) && g[l][k + 1] == Load(Temp(r), RetVal) && g[l][k + 2] == Ret(Reg(Temp(r), I64));
    assert Step(g, Running(l, k, im), w) == Running(l, k + 1, a);
    assert Step(g, Running(l, k + 1, a), w) == Running(l, k + 2, im');
    assert Step(g, Running(l, k + 2, im'), w) == Finished(im', x);
    assert Run(g, Running(l, k, im), w, 3) == Run(g, Running(l, k + 1, a), w, 2);
    assert Run(g, Running(l, k + 1, a), w, 2) == Run(g, Running(l, k + 2, im'), w, 1);
    RunOne(g, Running(l, k + 2, im'), w);
  }

  lemma StoreKeeps(x: string, v: int, m: S.Memory, im: IrMem, sc: S.Scope)
    requires GoodScope(sc) && Related(m, im, sc) && Typed(m, sc)
    requires sc.Declared(x) && (sc.VarType(x) == S.BoolType ==> IsBit(v))
    ensures Related(m.Set(x, v, sc), im.Set(Resolve(x, sc), v), sc) && Typed(m.Set(x, v, sc), sc)
  {
    assert forall y <- sc.locals :: Resolve(y, sc) == Resolve(x, sc) ==> x in sc.locals && x == y;
  }

  /** The straight-line part of a simple statement, with its effect on related memory. */
  ghost predicate SimpleComputes(ins: seq<Instr>, out: S.Outcome, im: IrMem, sc: S.Scope, w: World) {
    && Straight(ins)
    && match out
       case Done(m) => ExecAll(ins, im, w).Some? && Related(m, ExecAll(ins, im, w).value, sc) && Typed(m, sc)
       case Wrong => ExecAll(ins, im, w) == None
       case _ => false
  }

  lemma AssignmentComputes(x: string, e: S.Expr, m: S.Memory, im: IrMem, sc: S.Scope, w: World, n: nat, fuel: nat)
    requires S.WellTypedStm(S.Assignment(x, e), sc, None) && Ready(m, im, sc, w)
    ensures SimpleComputes(Simple(S.Assignment(x, e), sc, n).0, S.Exec(S.Assignment(x, e), m, sc, w, fuel), im, sc, w)
  {
    ExprComputes(e, m, im, sc, w, n);
    var r := Expr(e, sc, n);
    var store := Store(r.opnd, Resolve(x, sc));
    ExecAllAppend(r.ins, [store], im, w);
    match S.Eval(e, m, sc, w) {
      case Stuck =>
      case Value(v, m1) =>
        var a := ExecAll(r.ins, im, w).value;
        ExecOne(store, a, w);
        StoreKeeps(x, v, m1, a, sc);
    }
  }

  lemma PrintComputes(text: string, es: seq<S.Expr>, m: S.Memory, im: IrMem, sc: S.Scope, w: World, n: nat, fuel: nat)
    requires S.WellTypedAll(es, sc) && Ready(m, im, sc, w)
    ensures SimpleComputes(Simple(S.Print(text, es), sc, n).0, S.Exec(S.Print(text, es), m, sc, w, fuel), im, sc, w)
  {
    ExprsCompute(es, m, im, sc, w, n);
    var r := Exprs(es, sc, n);
    ExecAllAppend(r.ins, [Printf(text, r.opnds)], im, w);
    match S.EvalAll(es, m, sc, w) {
      case Stuck =>
      case Value(vs, m1) => ExecOne(Printf(text, r.opnds), ExecAll(r.ins, im, w).value, w);
    }
  }

  lemma InvocationComputes(f: string, es: seq<S.Expr>, m: S.Memory, im: IrMem, sc: S.Scope, w: World, n: nat, fuel: nat)
    requires S.WellTypedAll(es, sc) && f in sc.funcs && Ready(m, im, sc, w)
    ensures SimpleComputes(Simple(S.Invocation(f, es), sc, n).0, S.Exec(S.Invocation(f, es), m, sc, w, fuel), im, sc, w)
  {
    ExprsCompute(es, m, im, sc, w, n);
    var r := Exprs(es, sc, n);
    ExecAllAppend(r.ins, [Call(f, r.opnds)], im, w);
    match S.EvalAll(es, m, sc, w) {
      case Stuck =>
      case Value(vs, m1) => ExecOne(Call(f, r.opnds), ExecAll(r.ins, im, w).value, w);
    }
  }

  lemma ReadComputes(x: string, m: S.Memory, im: IrMem, sc: S.Scope, w: World, n: nat, fuel: nat)
    requires S.WellTypedStm(S.Read(x), sc, None) && Ready(m, im, sc, w)
    ensures SimpleComputes(Simple(S.Read(x), sc, n).0, S.Exec(S.Read(x), m, sc, w, fuel), im, sc, w)
  {
    var v := w.input(m.log);
    ExecOne(Scanf(Resolve(x, sc)), im, w);
    var m1 := m.(log := m.log + [Scanned(v)]);
    StoreKeeps(x, v, m1, im.(log := im.log + [Scanned(v)]), sc);
  }

  lemma SimpleRuns(s: S.Stm, cur: Label, b: Build, sc: S.Scope, ret: Option<S.Type>, g: Code,
                   m: S.Memory, im: IrMem, w: World, fuel: nat) returns (n: nat, im': IrMem)
    requires !s.Conditional? && !s.Loop? && cur in b.code
    requires S.WellTypedStm(s, sc, ret) && Ready(m, im, sc, w)
    requires cur in g && b.Code(cur) + Simple(s, sc, b.nextReg).0 <= g[cur]
    ensures Arrives(S.Exec(s, m, sc, w, fuel), g, w, Running(cur, |b.Code(cur)|, im), n, im',
                    cur, |b.Code(cur)| + |Simple(s, sc, b.nextReg).0|, sc, fuel)
  {
    var before := b.Code(cur);
    var ins := Simple(s, sc, b.nextReg).0;
    if s.Return? {
      n, im' := ReturnStmRuns(s, cur, before, sc, ret, g, m, im, w, b.nextReg, fuel);
    } else {
      match s {
        case Assignment(x, e) => AssignmentComputes(x, e, m, im, sc, w, b.nextReg, fuel);
        case Print(text, es) => PrintComputes(text, es, m, im, sc, w, b.nextReg, fuel);
        case Read(x) => ReadComputes(x, m, im, sc, w, b.nextReg, fuel);
        case Invocation(f, es) => InvocationComputes(f, es, m, im, sc, w, b.nextReg, fuel);
      }
      assert ins + [] == ins;
      PlacedStraight(g, cur, before, ins, [], im, w);
      n := |ins|;
      im' := if ExecAll(ins, im, w).Some? then ExecAll(ins, im, w).value else im;
    }
  }

  lemma ReturnStmRuns(s: S.Stm, cur: Label, before: seq<Instr>, sc: S.Scope, ret: Option<S.Type>, g: Code,
                      m: S.Memory, im: IrMem, w: World, r0: nat, fuel: nat) returns (n: nat, im': IrMem)
    requires s.Return? && S.WellTypedStm(s, sc, ret) && Ready(m, im, sc, w)
    requires cur in g && before + Simple(s, sc, r0).0 <= g[cur]
    ensures Arrives(S.Exec(s, m, sc, w, fuel), g, w, Running(cur, |before|, im), n, im', cur, |before|, sc, fuel)
  {
    match s.value {
      case None =>
        assert ReturnOf(Imm(0, I64), r0) == [] + ReturnOf(Imm(0, I64), r0);
        n, im' := ReturnValueRuns(S.Value(0, m), Emitted([], Imm(0, I64), r0), cur, before, sc, None, g, im, w, r0,
                                  fuel);
      case Some(e) =>
        ExprComputes(e, m, im, sc, w, r0);
        n, im' := ReturnValueRuns(S.Eval(e, m, sc, w), Expr(e, sc, r0), cur, before, sc, S.TypeOf(e, sc), g, im, w, r0,
                                  fuel);
    }
  }

  lemma ReturnValueRuns(ev: S.Evaluation<int>, e: Emitted, cur: Label, before: seq<Instr>, sc: S.Scope,
                        t: Option<S.Type>, g: Code, im: IrMem, w: World, r0: nat, fuel: nat)
    returns (n: nat, im': IrMem)
    requires Computes(ev, e, r0, im, t, sc, w) && GoodScope(sc)
    requires cur in g && before + (e.ins + ReturnOf(e.opnd, e.next)) <= g[cur]
    ensures Arrives(match ev case Stuck => S.Wrong case Value(v, m1) => S.Returned(m1, v),
                    g, w, Running(cur, |before|, im), n, im', cur, |before|, sc, fuel)
  {
    hide Exec, ExecAll, Run, Related, Typed, ReturnOf, Keeps;
    var tail := ReturnOf(e.opnd, e.next);
    ReturnOfLength(e.opnd, e.next);
    PlacedStraight(g, cur, before, e.ins, tail, im, w);
    n, im' := |e.ins|, im;
    if ev.Value? {
      var a := ExecAll(e.ins, im, w).value;
      assert before + (e.ins + tail) == (before + e.ins) + tail;
      Slice(before + e.ins, tail, g[cur]);
      im' := ReturnRuns(g, cur, |before| + |e.ins|, e.opnd, e.next, ev.value, a, w);
      RunAdd(g, Running(cur, |before|, im), w, |e.ins|, 3);
      RelatedAfterReturn(ev.mem, a, im', sc);
      n := |e.ins| + 3;
    }
  }

  lemma ReturnOfLength(v: Operand, r: nat)
    ensures |ReturnOf(v, r)| == 3
  {
  }

  lemma RelatedAfterReturn(m: S.Memory, a: IrMem, b: IrMem, sc: S.Scope)
    requires Related(m, a, sc) && GoodScope(sc) && b.globals == a.globals && b.log == a.log
    requires forall e: Entry :: e != RetVal && !e.Temp? ==>
      (e in a.vars <==> e in b.vars) && (e in a.vars ==> a.vars[e] == b.vars[e])
    ensures Related(m, b, sc)
  {
  }

  // ----- Conditions -----

  lemma BrRuns(g: Code, l: Label, k: nat, t: Label, im: IrMem, w: World)
    requires l in g && k < |g[l]| && g[l][k] == Br(t)
    ensures Run(g, Running(l, k, im), w, 1) == Running(t, 0, im)
  {
    RunOne(g, Running(l, k, im), w);
  }

  lemma BranchIsTest(b: Build, at: Label, cond: S.Expr, sc: S.Scope, t: Label, f: Label, isLoop: bool)
    ensures var c := Test(Expr(cond, sc, b.nextReg), isLoop);
      Branch(b, at, cond, sc, t, f, isLoop).Code(at) == b.Code(at) + (c.ins + [BrCond(c.opnd, t, f, EQ)])
    ensures forall l :: l != at ==> Branch(b, at, cond, sc, t, f, isLoop).Code(l) == b.Code(l)
  {
  }

  /** Truncating and selecting leave a truth value what it was. */
  lemma TestComputes(ev: S.Evaluation<int>, c: Emitted, m: S.Memory, im: IrMem, sc: S.Scope, w: World, n: nat,
                     isLoop: bool)
    requires Computes(ev, c, n, im, Some(S.BoolType), sc, w) && Ready(m, im, sc, w)
    ensures Computes(ev, Test(c, isLoop), n, im, Some(S.BoolType), sc, w)
  {
    var t := Some(S.BoolType);
    if c.opnd.Reg? && if isLoop then c.opnd.ty == I64 else c.opnd.ty != I1 {
      var trunc := Trunc(Temp(c.next), c.opnd);
      ThenOne(ev, c, n, m, im, t, sc, w, trunc, ev, I1, t);
      SelectComputes(ev, Emitted(c.ins + [trunc], Reg(Temp(c.next), I1), c.next + 1), n, m, im, sc, w, isLoop);
    } else {
      SelectComputes(ev, c, n, m, im, sc, w, isLoop);
    }
  }

  lemma SelectComputes(ev: S.Evaluation<int>, c: Emitted, n: nat, m: S.Memory, im: IrMem, sc: S.Scope, w: World,
                       isLoop: bool)
    requires Computes(ev, c, n, im, Some(S.BoolType), sc, w) && Ready(m, im, sc, w)
    ensures var sel := Select(Temp(c.next), c.opnd, Imm(1, I1), Imm(0, I1));
      Computes(ev, Emitted(c.ins + [sel], if isLoop then c.opnd else Reg(Temp(c.next), I1), c.next + 1), n, im,
               Some(S.BoolType), sc, w)
  {
    var sel := Select(Temp(c.next), c.opnd, Imm(1, I1), Imm(0, I1));
    ThenOne(ev, c, n, m, im, Some(S.BoolType), sc, w, sel, ev, I1, Some(S.BoolType));
    if ev.Value? {
      var a := ExecAll(c.ins, im, w).value;
      ExecAllAppend(c.ins, [sel], im, w);
      ExecOne(sel, a, w);
      KeepsVal(c.opnd, c.next, a, a.Set(Temp(c.next), ev.value));
    }
  }

  /** From the start of the test the run reaches the block the condition's value picks. */
  lemma BranchRuns(b: Build, at: Label, cond: S.Expr, sc: S.Scope, t: Label, f: Label, isLoop: bool, g: Code,
                   m: S.Memory, im: IrMem, w: World) returns (n: nat, im': IrMem)
    requires at in b.code && Embedded(Branch(b, at, cond, sc, t, f, isLoop), g)
    requires S.WellTyped(cond, sc) && S.TypeOf(cond, sc) == Some(S.BoolType) && Ready(m, im, sc, w)
    ensures match S.Eval(cond, m, sc, w)
      case Stuck => Run(g, Running(at, |b.Code(at)|, im), w, n) == Faulted
      case Value(v, m1) =>
        && n >= 1
        && Run(g, Running(at, |b.Code(at)|, im), w, n) == Running(if v == 1 then t else f, 0, im')
        && Ready(m1, im', sc, w)
  {
    var c := Branch(b, at, cond, sc, t, f, isLoop);
    BranchIsTest(b, at, cond, sc, t, f, isLoop);
    assert at in c.code;
    var e := Expr(cond, sc, b.nextReg);
    ExprComputes(cond, m, im, sc, w, b.nextReg);
    TestComputes(S.Eval(cond, m, sc, w), e, m, im, sc, w, b.nextReg, isLoop);
    n, im' := TestRuns(S.Eval(cond, m, sc, w), g, at, b.Code(at), Test(e, isLoop), b.nextReg, t, f, im, sc, w);
  }

  lemma TestRuns(ev: S.Evaluation<int>, g: Code, at: Label, before: seq<Instr>, c: Emitted, r: nat,
                 t: Label, f: Label, im: IrMem, sc: S.Scope, w: World) returns (n: nat, im': IrMem)
    requires at in g && before + (c.ins + [BrCond(c.opnd, t, f, EQ)]) <= g[at]
    requires Computes(ev, c, r, im, Some(S.BoolType), sc, w) && GoodScope(sc) && TypedWorld(w, sc)
    ensures match ev
      case Stuck => Run(g, Running(at, |before|, im), w, n) == Faulted
      case Value(x, m1) =>
        && n >= 1
        && Run(g, Running(at, |before|, im), w, n) == Running(if x == 1 then t else f, 0, im')
        && Ready(m1, im', sc, w)
  {
    hide Exec, ExecAll, Run, Related, Typed, Keeps, TypedWorld, GoodScope, Straight;
    var ins := c.ins;
    var br := BrCond(c.opnd, t, f, EQ);
    PlacedStraight(g, at, before, ins, [br], im, w);
    n, im' := |ins|, im;
    if ev.Value? {
      im' := ExecAll(ins, im, w).value;
      assert before + (ins + [br]) == (before + ins) + [br];
      Slice(before + ins, [br], g[at]);
      assert g[at][|before| + |ins|] == br;
      RunOne(g, Running(at, |before| + |ins|, im'), w);
      RunAdd(g, Running(at, |before|, im), w, |ins|, 1);
      n := |ins| + 1;
    }
  }

  // ----- Control flow -----

  lemma {:induction false} StmRuns(s: S.Stm, cur: Label, b: Build, sc: S.Scope, ret: Option<S.Type>, g: Code,
                                   m: S.Memory, im: IrMem, w: World, fuel: nat) returns (n: nat, im': IrMem)
    requires b.Valid() && cur in b.code && S.WellTypedStm(s, sc, ret) && Ready(m, im, sc, w)
    requires Embedded(Stm(s, cur, b, sc).b, g)
    ensures var p := Stm(s, cur, b, sc);
      Arrives(S.Exec(s, m, sc, w, fuel), g, w, Running(cur, |b.Code(cur)|, im), n, im', p.cur, |p.b.Code(p.cur)|, sc,
              fuel)
    decreases fuel, s, 3
  {
    if s.Conditional? {
      n, im' := IfRuns(s, cur, b, sc, ret, g, m, im, w, fuel);
    } else if s.Loop? {
      n, im' := ForRuns(s, cur, b, sc, ret, g, m, im, w, fuel);
    } else {
      SimplePlaced(s, cur, b, sc, g);
      n, im' := SimpleRuns(s, cur, b, sc, ret, g, m, im, w, fuel);
    }
  }

  lemma SimplePlaced(s: S.Stm, cur: Label, b: Build, sc: S.Scope, g: Code)
    requires cur in b.code && !s.Conditional? && !s.Loop? && Embedded(Stm(s, cur, b, sc).b, g)
    ensures cur in g && b.Code(cur) + Simple(s, sc, b.nextReg).0 <= g[cur]
    ensures var p := Stm(s, cur, b, sc); p.cur == cur && |p.b.Code(cur)| == |b.Code(cur)| + |Simple(s, sc, b.nextReg).0|
  {
    var p := Stm(s, cur, b, sc);
    assert p.b.Code(cur) == b.Code(cur) + Simple(s, sc, b.nextReg).0;
    assert cur in p.b.code;
  }

  lemma {:induction false} StmsRun(ss: seq<S.Stm>, cur: Label, b: Build, sc: S.Scope, ret: Option<S.Type>, g: Code,
                                   m: S.Memory, im: IrMem, w: World, fuel: nat) returns (n: nat, im': IrMem)
    requires b.Valid() && cur in b.code && S.WellTypedStms(ss, sc, ret) && Ready(m, im, sc, w)
    requires Embedded(Stms(ss, cur, b, sc).b, g)
    ensures var p := Stms(ss, cur, b, sc);
      Arrives(S.ExecAll(ss, m, sc, w, fuel), g, w, Running(cur, |b.Code(cur)|, im), n, im', p.cur, |p.b.Code(p.cur)|,
              sc, fuel)
    decreases fuel, ss, 0
  {
    hide Grows, Embedded, Related, Typed, TypedWorld, Simple, Build.Valid, NewIf, NewFor, Branch, Build.Append;
    if ss == [] {
      n, im' := 0, im;
    } else {
      var p := Stm(ss[0], cur, b, sc);
      var q := Stms(ss[1..], p.cur, p.b, sc);
      StmGrows(ss[0], cur, b, sc);
      GrowsKeys(b.nextLabel, cur, b, p.b);
      StmsGrows(ss[1..], p.cur, p.b, sc);
      EmbeddedBefore(p.b.nextLabel, p.cur, p.b, q.b, g);
      n, im' := StmRuns(ss[0], cur, b, sc, ret, g, m, im, w, fuel);
      var out := S.Exec(ss[0], m, sc, w, fuel);
      if out.Done? {
        var k;
        var at := Running(p.cur, |p.b.Code(p.cur)|, im');
        var n0 := n;
        k, im' := StmsRun(ss[1..], p.cur, p.b, sc, ret, g, out.mem, im', w, fuel);
        ArrivesAfter(S.ExecAll(ss[1..], out.mem, sc, w, fuel), g, w, Running(cur, |b.Code(cur)|, im), n0, at, k, im',
                     q.cur, |q.b.Code(q.cur)|, sc, fuel, fuel);
        n := n0 + k;
      }
    }
  }

  /** A nested statement list runs from the start of its block to the start of the block it branches to. */
  lemma {:induction false} NestedRuns(ss: seq<S.Stm>, at: Label, b: Build, sc: S.Scope, x: Label, ret: Option<S.Type>,
                                      g: Code, m: S.Memory, im: IrMem, w: World, fuel: nat) returns (n: nat, im': IrMem)
    requires b.Valid() && at in b.code && b.Code(at) == [] && S.WellTypedStms(ss, sc, ret) && Ready(m, im, sc, w)
    requires Embedded(Nested(ss, at, b, sc, x), g)
    ensures Arrives(S.ExecAll(ss, m, sc, w, fuel), g, w, Running(at, 0, im), n, im', x, 0, sc, fuel)
    decreases fuel, ss, 1
  {
    hide Grows, Embedded, Related, Typed, TypedWorld, Build.Valid, Build.Append;
    var p := Stms(ss, at, b, sc);
    StmsGrows(ss, at, b, sc);
    GrowsKeys(b.nextLabel, at, b, p.b);
    NestedPlaced(p, x, g);
    n, im' := StmsRun(ss, at, b, sc, ret, g, m, im, w, fuel);
    var out := S.ExecAll(ss, m, sc, w, fuel);
    if out.Done? {
      BrRuns(g, p.cur, |p.b.Code(p.cur)|, x, im', w);
      RunAdd(g, Running(at, 0, im), w, n, 1);
      n := n + 1;
    }
  }

  lemma NestedPlaced(p: Placed, x: Label, g: Code)
    requires p.b.Valid() && p.cur in p.b.code && Embedded(p.b.Append(p.cur, [Br(x)]), g)
    ensures Embedded(p.b, g)
    ensures p.cur in g && |p.b.Code(p.cur)| < |g[p.cur]| && g[p.cur][|p.b.Code(p.cur)|] == Br(x)
  {
    AppendGrows(0, p.cur, p.b, p.cur, [Br(x)]);
    EmbeddedBefore(0, p.cur, p.b, p.b.Append(p.cur, [Br(x)]), g);
    assert p.cur in p.b.Append(p.cur, [Br(x)]).code;
    Slice(p.b.Code(p.cur), [Br(x)], g[p.cur]);
  }

  /** A block other than the one a nested list starts in keeps its code. */
  lemma NestedLeaves(ss: seq<S.Stm>, at: Label, b: Build, sc: S.Scope, x: Label, l: Label)
    requires b.Valid() && at in b.code && l in b.code
    ensures Grows(b.nextLabel, at, b, Nested(ss, at, b, sc, x))
    ensures l != at ==> Nested(ss, at, b, sc, x).Code(l) == b.Code(l)
  {
    GrowsRefl(b.nextLabel, at, b);
    NestedGrows(b.nextLabel, at, b, b, ss, at, sc, x);
  }

  lemma NewIfCode(b: Build, cur: Label)
    requires b.Valid() && cur in b.code
    ensures var t := b.nextLabel; var c := NewIf(b, cur);
      c.Code(cur) == b.Code(cur) && c.Code(t) == [] && c.Code(t + 1) == [] && c.Code(t + 2) == []
  {
  }

  lemma NewForCode(b: Build, cur: Label)
    requires b.Valid() && cur in b.code
    ensures var e := b.nextLabel; var c := NewFor(b, cur);
      c.Code(cur) == b.Code(cur) && c.Code(e) == [] && c.Code(e + 1) == [] && c.Code(e + 2) == []
  {
  }

  /** Where the four pieces of a translated conditional sit in the final graph. */
  lemma IfPlaced(s: S.Stm, cur: Label, b: Build, sc: S.Scope, g: Code)
    requires b.Valid() && cur in b.code && s.Conditional? && Embedded(If(s, cur, b, sc).b, g)
    ensures var t, f, x := b.nextLabel, b.nextLabel + 1, b.nextLabel + 2;
      var b0 := NewIf(b, cur);
      var b1 := Branch(b0, cur, s.cond, sc, t, f, false);
      var b2 := Nested(s.ifblock, t, b1, sc, x);
      var b3 := if s.elseblock.Else? then Nested(s.elseblock.stms, f, b2, sc, x) else b2.Append(f, [Br(x)]);
      && cur in b0.code && b0.Code(cur) == b.Code(cur) && Embedded(b1, g)
      && b1.Valid() && t in b1.code && b1.Code(t) == [] && Embedded(b2, g)
      && b2.Valid() && f in b2.code && b2.Code(f) == [] && Embedded(b3, g)
      && b3.Code(x) == []
  {
    hide *;
    var t, f, x := b.nextLabel, b.nextLabel + 1, b.nextLabel + 2;
    var base := b.nextLabel;
    var b0 := NewIf(b, cur);
    var b1 := Branch(b0, cur, s.cond, sc, t, f, false);
    var b2 := Nested(s.ifblock, t, b1, sc, x);
    var b3 := if s.elseblock.Else? then Nested(s.elseblock.stms, f, b2, sc, x) else b2.Append(f, [Br(x)]);
    EmbeddedIf(s, cur, b, sc, g);
    NewIfCode(b, cur);
    IfBranched(s, cur, b, sc);
    BranchIsTest(b0, cur, s.cond, sc, t, f, false);
    NestedLeaves(s.ifblock, t, b1, sc, x, f);
    NestedLeaves(s.ifblock, t, b1, sc, x, x);
    GrowsKeys(b1.nextLabel, t, b1, b2);
    assert f in b2.code && x in b2.code;
    if s.elseblock.Else? {
      NestedLeaves(s.elseblock.stms, f, b2, sc, x, x);
    } else {
      AppendGrows(b2.nextLabel, f, b2, f, [Br(x)]);
      AppendLeaves(b2, f, [Br(x)], x);
    }
    EmbeddedBefore(b2.nextLabel, f, b2, b3, g);
    EmbeddedBefore(b1.nextLabel, t, b1, b2, g);
    BelowNext(b, cur);
  }

  lemma AppendLeaves(b: Build, at: Label, ins: seq<Instr>, l: Label)
    requires l != at
    ensures b.Append(at, ins).Code(l) == b.Code(l)
  {
  }

  lemma EmbeddedIf(s: S.Stm, cur: Label, b: Build, sc: S.Scope, g: Code)
    requires s.Conditional? && Embedded(If(s, cur, b, sc).b, g)
    ensures var t, f, x := b.nextLabel, b.nextLabel + 1, b.nextLabel + 2;
      var b2 := Nested(s.ifblock, t, Branch(NewIf(b, cur), cur, s.cond, sc, t, f, false), sc, x);
      Embedded(if s.elseblock.Else? then Nested(s.elseblock.stms, f, b2, sc, x) else b2.Append(f, [Br(x)]), g)
  {
    hide Embedded, Branch, NewIf, Build.Append;
  }

  lemma EmbeddedFor(s: S.Stm, cur: Label, b: Build, sc: S.Scope, g: Code)
    requires s.Loop? && Embedded(For(s, cur, b, sc).b, g)
    ensures var e, y, x := b.nextLabel, b.nextLabel + 1, b.nextLabel + 2;
      var b2 := Branch(NewFor(b, cur).Append(cur, [Br(e)]), e, s.cond, sc, y, x, true);
      Embedded(Nested(s.block, y, b2, sc, e), g)
  {
    hide Embedded, Branch, NewFor, Build.Append;
  }

  lemma ForPlaced(s: S.Stm, cur: Label, b: Build, sc: S.Scope, g: Code)
    requires b.Valid() && cur in b.code && s.Loop? && Embedded(For(s, cur, b, sc).b, g)
    ensures var e, y, x := b.nextLabel, b.nextLabel + 1, b.nextLabel + 2;
      var b0 := NewFor(b, cur);
      var b1 := b0.Append(cur, [Br(e)]);
      var b2 := Branch(b1, e, s.cond, sc, y, x, true);
      var b3 := Nested(s.block, y, b2, sc, e);
      && cur in g && |b.Code(cur)| < |g[cur]| && g[cur][|b.Code(cur)|] == Br(e)
      && e in b1.code && b1.Code(e) == [] && Embedded(b2, g)
      && b2.Valid() && y in b2.code && b2.Code(y) == [] && Embedded(b3, g)
      && b3.Code(x) == []
  {
    hide *;
    var e, y, x := b.nextLabel, b.nextLabel + 1, b.nextLabel + 2;
    var base := b.nextLabel;
    var b0 := NewFor(b, cur);
    var b1 := b0.Append(cur, [Br(e)]);
    var b2 := Branch(b1, e, s.cond, sc, y, x, true);
    var b3 := Nested(s.block, y, b2, sc, e);
    EmbeddedFor(s, cur, b, sc, g);
    ForBranched(s, cur, b, sc);
    NewForCode(b, cur);
    BelowNext(b, cur);
    AppendLeaves(b0, cur, [Br(e)], e);
    AppendLeaves(b0, cur, [Br(e)], y);
    AppendLeaves(b0, cur, [Br(e)], x);
    BranchIsTest(b1, e, s.cond, sc, y, x, true);
    NestedLeaves(s.block, y, b2, sc, e, x);
    EmbeddedBefore(b2.nextLabel, y, b2, b3, g);
    EmbeddedBefore(base, cur, b1, b2, g);
    AppendPlaced(b0, cur, [Br(e)], g);
  }

  lemma AppendPlaced(b: Build, l: Label, ins: seq<Instr>, g: Code)
    requires l in b.code && Embedded(b.Append(l, ins), g) && |ins| == 1
    ensures l in g && |b.Code(l)| < |g[l]| && g[l][|b.Code(l)|] == ins[0]
  {
    assert l in b.Append(l, ins).code;
    Slice(b.code[l], ins, g[l]);
  }

  lemma {:induction false} IfRuns(s: S.Stm, cur: Label, b: Build, sc: S.Scope, ret: Option<S.Type>, g: Code,
                                  m: S.Memory, im: IrMem, w: World, fuel: nat) returns (n: nat, im': IrMem)
    requires b.Valid() && cur in b.code && S.WellTypedStm(s, sc, ret) && Ready(m, im, sc, w) && s.Conditional?
    requires Embedded(If(s, cur, b, sc).b, g)
    ensures var p := If(s, cur, b, sc);
      Arrives(S.Exec(s, m, sc, w, fuel), g, w, Running(cur, |b.Code(cur)|, im), n, im', p.cur, |p.b.Code(p.cur)|, sc,
              fuel)
    decreases fuel, s, 2
  {
    hide Grows, Embedded, Related, Typed, TypedWorld, Simple, Build.Valid, NewIf, Branch, Build.Append, Build.Code,
        S.WellTyped, S.Eval;
    var t, f, x := b.nextLabel, b.nextLabel + 1, b.nextLabel + 2;
    var b0 := NewIf(b, cur);
    var b1 := Branch(b0, cur, s.cond, sc, t, f, false);
    var b2 := Nested(s.ifblock, t, b1, sc, x);
    IfPlaced(s, cur, b, sc, g);
    var from := Running(cur, |b.Code(cur)|, im);
    n, im' := BranchRuns(b0, cur, s.cond, sc, t, f, false, g, m, im, w);
    match S.Eval(s.cond, m, sc, w) {
      case Stuck =>
      case Value(v, m1) =>
        var n0, k, out := n, 0, S.Exec(s, m, sc, w, fuel);
        if v == 1 {
          k, im' := NestedRuns(s.ifblock, t, b1, sc, x, ret, g, m1, im', w, fuel);
          ArrivesAfter(out, g, w, from, n0, Run(g, from, w, n0), k, im', x, 0, sc, fuel, fuel);
        } else {
          k, im' := ElseRuns(s.elseblock, f, b2, sc, x, ret, g, m1, im', w, fuel);
          ArrivesAfter(out, g, w, from, n0, Run(g, from, w, n0), k, im', x, 0, sc, fuel, fuel);
        }
        n := n0 + k;
    }
  }

  lemma {:induction false} ElseRuns(els: S.Else, f: Label, b: Build, sc: S.Scope, x: Label, ret: Option<S.Type>,
                                    g: Code, m: S.Memory, im: IrMem, w: World, fuel: nat) returns (n: nat, im': IrMem)
    requires b.Valid() && f in b.code && b.Code(f) == [] && Ready(m, im, sc, w)
    requires els.Else? ==> S.WellTypedStms(els.stms, sc, ret)
    requires Embedded(if els.Else? then Nested(els.stms, f, b, sc, x) else b.Append(f, [Br(x)]), g)
    ensures Arrives(if els.Else? then S.ExecAll(els.stms, m, sc, w, fuel) else S.Done(m),
                    g, w, Running(f, 0, im), n, im', x, 0, sc, fuel)
    decreases fuel, els, 2
  {
    if els.Else? {
      n, im' := NestedRuns(els.stms, f, b, sc, x, ret, g, m, im, w, fuel);
    } else {
      AppendPlaced(b, f, [Br(x)], g);
      n, im' := 1, im;
      BrRuns(g, f, 0, x, im, w);
    }
  }

  lemma {:induction false} ForRuns(s: S.Stm, cur: Label, b: Build, sc: S.Scope, ret: Option<S.Type>, g: Code,
                                   m: S.Memory, im: IrMem, w: World, fuel: nat) returns (n: nat, im': IrMem)
    requires b.Valid() && cur in b.code && S.WellTypedStm(s, sc, ret) && Ready(m, im, sc, w) && s.Loop?
    requires Embedded(For(s, cur, b, sc).b, g)
    ensures var p := For(s, cur, b, sc);
      Arrives(S.Exec(s, m, sc, w, fuel), g, w, Running(cur, |b.Code(cur)|, im), n, im', p.cur, |p.b.Code(p.cur)|, sc,
              fuel)
    decreases fuel, s, 2
  {
    hide Grows, Embedded, Related, Typed, TypedWorld, Simple, Build.Valid, NewFor, Branch, Build.Append, Build.Code,
        S.WellTyped, S.Eval;
    var e, y, x := b.nextLabel, b.nextLabel + 1, b.nextLabel + 2;
    var b1 := NewFor(b, cur).Append(cur, [Br(e)]);
    ForPlaced(s, cur, b, sc, g);
    BrRuns(g, cur, |b.Code(cur)|, e, im, w);
    n, im' := IterationsRun(s, e, y, x, b1, sc, ret, g, m, im, w, fuel);
    ArrivesAfter(S.Exec(s, m, sc, w, fuel), g, w, Running(cur, |b.Code(cur)|, im), 1, Running(e, 0, im), n, im', x, 0,
                 sc, fuel, fuel);
    n := 1 + n;
  }

  /** A loop from the start of its entry block, one iteration after another. */
  lemma {:induction false} IterationsRun(s: S.Stm, e: Label, y: Label, x: Label, b: Build, sc: S.Scope,
                                         ret: Option<S.Type>, g: Code, m: S.Memory, im: IrMem, w: World, fuel: nat)
    returns (n: nat, im': IrMem)
    requires s.Loop? && S.WellTypedStm(s, sc, ret) && Ready(m, im, sc, w)
    requires e in b.code && b.Code(e) == [] && Embedded(Branch(b, e, s.cond, sc, y, x, true), g)
    requires var b2 := Branch(b, e, s.cond, sc, y, x, true);
      b2.Valid() && y in b2.code && b2.Code(y) == [] && Embedded(Nested(s.block, y, b2, sc, e), g)
    ensures Arrives(S.Exec(s, m, sc, w, fuel), g, w, Running(e, 0, im), n, im', x, 0, sc, fuel)
    decreases fuel, s, 1
  {
    hide Grows, Embedded, Related, Typed, TypedWorld, Simple, Build.Valid, Branch, Build.Append, Build.Code,
        S.WellTyped, S.Eval, Nested;
    var from := Running(e, 0, im);
    if fuel == 0 {
      n, im' := 0, im;
    } else {
      n, im' := BranchRuns(b, e, s.cond, sc, y, x, true, g, m, im, w);
      match S.Eval(s.cond, m, sc, w) {
        case Stuck =>
        case Value(v, m1) =>
          if v == 1 {
            var b2 := Branch(b, e, s.cond, sc, y, x, true);
            var n0, k, j := n, 0, 0;
            k, im' := NestedRuns(s.block, y, b2, sc, e, ret, g, m1, im', w, fuel - 1);
            var body := S.ExecAll(s.block, m1, sc, w, fuel - 1);
            ArrivesAfter(body, g, w, from, n0, Run(g, from, w, n0), k, im', e, 0, sc, fuel - 1, fuel);
            n := n0 + k;
            if body.Done? {
              var im1 := im';
              j, im' := IterationsRun(s, e, y, x, b, sc, ret, g, body.mem, im1, w, fuel - 1);
              ArrivesAfter(S.Exec(s, body.mem, sc, w, fuel - 1), g, w, from, n, Running(e, 0, im1), j, im', x, 0, sc,
                           fuel - 1, fuel);
              n := n + j;
            }
          }
      }
    }
  }
}
