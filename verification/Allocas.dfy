/** Every slot of a function is allocated, once, at the start of its entry block and before anything mentions it. */
module Allocas {
  import opened Words
  import opened Ir
  import opened IrSemantics
  import opened Translation
  import opened Growth
  import opened EveryInstruction
  import S = Source

  /** What lives in memory of its own: the return slot, locals, and the slots parameters are copied to. */
  predicate IsSlot(e: Entry) { e.RetVal? || e.Local? || e.ParamSlot? }

  /** Loads it, stores to it, scans into it, or lists it otherwise. */
  predicate Touches(i: Instr, e: Entry) {
    (i.Load? && i.src == e) || (i.Store? && i.dst == e) || (i.Scanf? && i.param == e) || e in i.Vars()
  }

  /** The parameters and locals are all named differently. */
  predicate DistinctNames(f: S.Function) {
    var names := Names(f.params) + Names(f.declarations);
    forall i, j :: 0 <= i < j < |names| ==> names[i] != names[j]
  }

  // ----- What the body touches -----

  predicate InScope(e: Entry, sc: S.Scope) {
    match e
    case RetVal => true
    case ParamSlot(x) => x in sc.params
    case Local(x) => x !in sc.params && x in sc.locals
    case _ => true
  }

  ghost predicate TouchesScope(i: Instr, sc: S.Scope) {
    !i.Alloca? && forall e: Entry :: IsSlot(e) && Touches(i, e) ==> InScope(e, sc)
  }

  ghost predicate AllTouchScope(ins: seq<Instr>, sc: S.Scope) {
    forall i <- ins :: TouchesScope(i, sc)
  }

  predicate NoSlot(op: Operand) { op.Reg? ==> op.entry.Temp? }

  predicate NoSlots(ops: seq<Operand>) { forall op <- ops :: NoSlot(op) }

  lemma ResolveInScope(x: string, sc: S.Scope)
    ensures InScope(Resolve(x, sc), sc)
  {
  }

  lemma {:induction false} ArgsTouchNothing(ops: seq<Operand>, e: Entry)
    requires NoSlots(ops) && e in AllVars(ops)
    ensures e.Temp?
  {
    assert ops[0] in ops;
    if e !in ops[0].Vars() { ArgsTouchNothing(ops[1..], e); }
  }

  lemma CallTouchesScope(i: Instr, ops: seq<Operand>, sc: S.Scope)
    requires NoSlots(ops) && (i == CallAssign(Temp(0), "", ops) || i.CallAssign? || i.Call? || i.Printf?)
    requires i.CallAssign? ==> i.dest.Temp? && i.args == ops
    requires i.Call? ==> i.args == ops
    requires i.Printf? ==> i.flags == ops
    ensures TouchesScope(i, sc)
  {
    forall e: Entry | IsSlot(e) && Touches(i, e) ensures InScope(e, sc) {
      if e in AllVars(ops) { ArgsTouchNothing(ops, e); }
    }
  }

  /** Arithmetic, comparisons, selects and truncations of temporaries and immediates. */
  predicate OnTemps(i: Instr) {
    match i
    case BinOp(d, _, a, b) => d.Temp? && NoSlot(a) && NoSlot(b)
    case ICmp(d, _, a, b) => d.Temp? && NoSlot(a) && NoSlot(b)
    case Select(d, c, a, b) => d.Temp? && NoSlot(c) && NoSlot(a) && NoSlot(b)
    case Trunc(d, v) => d.Temp? && NoSlot(v)
    case _ => false
  }

  lemma OnTempsTouchesScope(i: Instr, sc: S.Scope)
    requires OnTemps(i)
    ensures TouchesScope(i, sc)
  {
  }

  lemma AllOnTemps(ins: seq<Instr>, sc: S.Scope)
    requires forall i <- ins :: OnTemps(i)
    ensures AllTouchScope(ins, sc)
  {
    hide TouchesScope, OnTemps;
    forall i <- ins ensures TouchesScope(i, sc) { OnTempsTouchesScope(i, sc); }
  }

  lemma CombineTouchesScope(op: S.Operator, a: Operand, b: Operand, n: nat, sc: S.Scope)
    requires NoSlot(a) && NoSlot(b)
    ensures var c := Combine(op, a, b, n); AllTouchScope(c.ins, sc) && NoSlot(c.opnd)
  {
    hide AllTouchScope;
    var c := Combine(op, a, b, n);
    assert forall i <- c.ins :: OnTemps(i);
    AllOnTemps(c.ins, sc);
  }

  lemma {:induction false} ExprTouchesScope(e: S.Expr, sc: S.Scope, n: nat)
    ensures var c := Expr(e, sc, n); AllTouchScope(c.ins, sc) && NoSlot(c.opnd)
    decreases e, 1
  {
    match e
    case IntLit(_) =>
    case BoolLit(_) =>
    case Var(x) => ResolveInScope(x, sc);
    case Paren(e1) => ExprTouchesScope(e1, sc, n);
    case Neg(e1) => ExprTouchesScope(e1, sc, n);
    case Not(e1) => ExprTouchesScope(e1, sc, n);
    case Binary(first, ops, rest) =>
      ExprTouchesScope(first, sc, n);
      RestTouchesScope(Expr(first, sc, n), ops, rest, sc);
    case Invoke(f, args) =>
      var r := Exprs(args, sc, n);
      ExprsTouchScope(args, sc, n);
      CallTouchesScope(CallAssign(Temp(r.next), f, r.opnds), r.opnds, sc);
  }

  lemma {:induction false} ExprsTouchScope(es: seq<S.Expr>, sc: S.Scope, n: nat)
    ensures var c := Exprs(es, sc, n); AllTouchScope(c.ins, sc) && NoSlots(c.opnds)
    decreases es, 0
  {
    if es != [] {
      ExprTouchesScope(es[0], sc, n);
      ExprsTouchScope(es[1..], sc, Expr(es[0], sc, n).next);
    }
  }

  lemma {:induction false} RestTouchesScope(sofar: Emitted, ops: seq<S.Operator>, rest: seq<S.Expr>, sc: S.Scope)
    requires AllTouchScope(sofar.ins, sc) && NoSlot(sofar.opnd)
    ensures var c := Rest(sofar, ops, rest, sc); AllTouchScope(c.ins, sc) && NoSlot(c.opnd)
    decreases rest, 0
  {
    if rest != [] && ops != [] {
      var r := Expr(rest[0], sc, sofar.next);
      ExprTouchesScope(rest[0], sc, sofar.next);
      var c := Combine(ops[0], sofar.opnd, r.opnd, r.next);
      CombineTouchesScope(ops[0], sofar.opnd, r.opnd, r.next, sc);
      RestTouchesScope(Emitted(sofar.ins + r.ins + c.ins, c.opnd, c.next), ops[1..], rest[1..], sc);
    }
  }

  lemma SimpleTouchesScope(s: S.Stm, sc: S.Scope, n: nat)
    requires !s.Conditional? && !s.Loop?
    ensures AllTouchScope(Simple(s, sc, n).0, sc)
  {
    hide Expr, Exprs;
    match s
    case Assignment(x, e) =>
      ExprTouchesScope(e, sc, n);
      ResolveInScope(x, sc);
    case Print(text, es) =>
      var r := Exprs(es, sc, n);
      ExprsTouchScope(es, sc, n);
      CallTouchesScope(Printf(text, r.opnds), r.opnds, sc);
    case Read(x) => ResolveInScope(x, sc);
    case Invocation(f, es) =>
      var r := Exprs(es, sc, n);
      ExprsTouchScope(es, sc, n);
      CallTouchesScope(Call(f, r.opnds), r.opnds, sc);
    case Return(None) =>
    case Return(Some(e)) => ExprTouchesScope(e, sc, n);
  }

  lemma TestedTouchesScope(cond: S.Expr, sc: S.Scope, n: nat, t: Label, f: Label, isLoop: bool)
    ensures AllTouchScope(Tested(cond, sc, n, t, f, isLoop), sc)
  {
    hide Expr;
    ExprTouchesScope(cond, sc, n);
  }

  lemma BodyTouchesScope(sc: S.Scope, ret: Option<S.Type>) returns (p: Property)
    ensures forall l, i :: p(l, i) <==> TouchesScope(i, sc)
    ensures Admits(p, sc, ret)
  {
    hide TouchesScope, Simple, Tested, Expr;
    p := (l, i) => TouchesScope(i, sc);
    forall l, s, n ensures SimpleHas(p, l, s, sc, ret, n) {
      if !s.Conditional? && !s.Loop? { SimpleTouchesScope(s, sc, n); }
    }
    forall l, c, n, t, f, isLoop ensures TestedHas(p, l, c, sc, n, t, f, isLoop) {
      TestedTouchesScope(c, sc, n, t, f, isLoop);
    }
    forall l, x ensures p(l, Br(x)) { BranchTouchesNothing(x, sc); }
  }

  lemma BranchTouchesNothing(x: Label, sc: S.Scope)
    ensures TouchesScope(Br(x), sc)
  {
  }

  // ----- What the prologue allocates -----

  lemma {:induction false} ParamsLength(ps: seq<(string, S.Type)>)
    ensures |ParamInstrs(ps)| == 2 * |ps| && |Names(ps)| == |ps|
  {
    if ps != [] { ParamsLength(ps[1..]); }
  }

  lemma {:induction false} ParamInstrsAt(ps: seq<(string, S.Type)>, i: nat)
    requires i < |ps|
    ensures |ParamInstrs(ps)| == 2 * |ps| && |Names(ps)| == |ps| && Names(ps)[i] == ps[i].0
    ensures ParamInstrs(ps)[2 * i] == Alloca(ParamSlot(ps[i].0))
    ensures ParamInstrs(ps)[2 * i + 1] == Store(Reg(RawParam(ps[i].0), IrType(ps[i].1)), ParamSlot(ps[i].0))
  {
    ParamsLength(ps);
    if i > 0 { ParamInstrsAt(ps[1..], i - 1); }
  }

  lemma {:induction false} DeclInstrsAt(ds: seq<(string, S.Type)>)
    ensures |DeclInstrs(ds)| == |ds| && |Names(ds)| == |ds|
    ensures forall i :: 0 <= i < |ds| ==> Names(ds)[i] == ds[i].0 && DeclInstrs(ds)[i] == Alloca(Local(ds[i].0))
    ensures forall x :: x in TypesOf(ds) <==> x in Names(ds)
  {
    if ds != [] { DeclInstrsAt(ds[1..]); }
  }

  /** Where the prologue has the alloca of a slot. */
  ghost predicate AllocatedAt(pro: seq<Instr>, e: Entry, j: nat) {
    && j < |pro| && pro[j] == Alloca(e)
    && (forall q :: 0 <= q < |pro| && pro[q] == Alloca(e) ==> q == j)
    && (forall q :: 0 <= q < |pro| && Touches(pro[q], e) ==> j < q)
  }

  /** The pieces of the prologue, by position. */
  ghost predicate PrologueAt(f: S.Function, q: nat, i: nat) {
    var pro, k := Prologue(f), |f.params|;
    && |pro| == 1 + 2 * k + |f.declarations| && q < |pro|
    && if q == 0 then pro[q] == Alloca(RetVal)
       else if q <= 2 * k then
         i < k && (q == 1 + 2 * i || q == 2 + 2 * i) &&
         pro[q] == if q == 1 + 2 * i then Alloca(ParamSlot(f.params[i].0))
                   else Store(Reg(RawParam(f.params[i].0), IrType(f.params[i].1)), ParamSlot(f.params[i].0))
       else i < |f.declarations| && q == 1 + 2 * k + i && pro[q] == Alloca(Local(f.declarations[i].0))
  }

  lemma PrologueLength(f: S.Function)
    ensures |Prologue(f)| == 1 + 2 * |f.params| + |f.declarations|
  {
    ParamsLength(f.params);
    DeclInstrsAt(f.declarations);
  }

  lemma PrologueCases(f: S.Function, q: nat) returns (i: nat)
    requires q < |Prologue(f)|
    ensures PrologueAt(f, q, i)
  {
    ParamsLength(f.params);
    DeclInstrsAt(f.declarations);
    var k := |f.params|;
    i := if q == 0 then 0 else if q <= 2 * k then (q - 1) / 2 else q - 1 - 2 * k;
    if 0 < q <= 2 * k {
      ParamInstrsAt(f.params, i);
      assert Prologue(f)[q] == ParamInstrs(f.params)[q - 1];
    }
  }

  lemma NamesDiffer(f: S.Function, i: nat, j: nat)
    requires DistinctNames(f)
    ensures i < |f.params| && j < |f.params| && i != j ==> f.params[i].0 != f.params[j].0
    ensures i < |f.declarations| && j < |f.declarations| && i != j ==> f.declarations[i].0 != f.declarations[j].0
  {
    DeclInstrsAt(f.params);
    DeclInstrsAt(f.declarations);
    var names, k := Names(f.params) + Names(f.declarations), |f.params|;
    if i < k && j < k && i != j { assert names[i] == f.params[i].0 && names[j] == f.params[j].0; }
    if i < |f.declarations| && j < |f.declarations| && i != j {
      assert names[k + i] == f.declarations[i].0 && names[k + j] == f.declarations[j].0;
    }
  }

  lemma PrologueTouches(e: Entry)
    requires IsSlot(e)
    ensures forall d :: !Touches(Alloca(d), e)
    ensures forall x, t, d {:trigger Store(Reg(RawParam(x), t), d)} ::
      Touches(Store(Reg(RawParam(x), t), d), e) ==> d == e
  {
  }

  lemma RetValAllocated(f: S.Function)
    ensures AllocatedAt(Prologue(f), RetVal, 0)
  {
    hide Prologue, Touches;
    PrologueTouches(RetVal);
    PrologueLength(f);
    var i0 := PrologueCases(f, 0);
    forall q: nat | q < |Prologue(f)| && (Prologue(f)[q] == Alloca(RetVal) || Touches(Prologue(f)[q], RetVal))
      ensures q == 0
    {
      var i := PrologueCases(f, q);
    }
  }

  lemma ParamAllocated(f: S.Function, k: nat)
    requires DistinctNames(f) && k < |f.params|
    ensures AllocatedAt(Prologue(f), ParamSlot(f.params[k].0), 1 + 2 * k)
  {
    hide Prologue, DistinctNames, Touches;
    PrologueLength(f);
    var pro, e := Prologue(f), ParamSlot(f.params[k].0);
    PrologueTouches(e);
    var i0 := PrologueCases(f, 1 + 2 * k);
    forall q: nat | q < |pro| ensures pro[q] == Alloca(e) ==> q == 1 + 2 * k
      ensures Touches(pro[q], e) ==> q == 2 + 2 * k
    {
      var i := PrologueCases(f, q);
      NamesDiffer(f, i, k);
    }
  }

  lemma LocalAllocated(f: S.Function, k: nat)
    requires DistinctNames(f) && k < |f.declarations|
    ensures AllocatedAt(Prologue(f), Local(f.declarations[k].0), 1 + 2 * |f.params| + k)
  {
    hide Prologue, DistinctNames, Touches;
    PrologueLength(f);
    var pro, e := Prologue(f), Local(f.declarations[k].0);
    PrologueTouches(e);
    var i0 := PrologueCases(f, 1 + 2 * |f.params| + k);
    forall q: nat | q < |pro| ensures pro[q] == Alloca(e) ==> q == 1 + 2 * |f.params| + k
      ensures !Touches(pro[q], e)
    {
      var i := PrologueCases(f, q);
      NamesDiffer(f, i, k);
    }
  }

  /** The slots a function declares: its return slot, one for each parameter, and its locals. */
  predicate Declares(f: S.Function, e: Entry) {
    match e
    case RetVal => true
    case ParamSlot(x) => exists p <- f.params :: p.0 == x
    case Local(x) => exists d <- f.declarations :: d.0 == x
    case _ => false
  }

  lemma DeclaredAllocated(f: S.Function, e: Entry) returns (j: nat)
    requires DistinctNames(f) && Declares(f, e)
    ensures AllocatedAt(Prologue(f), e, j)
  {
    hide AllocatedAt, Prologue;
    match e
    case RetVal =>
      j := 0;
      RetValAllocated(f);
    case ParamSlot(x) =>
      var p :| p in f.params && p.0 == x;
      var k :| 0 <= k < |f.params| && f.params[k] == p;
      j := 1 + 2 * k;
      ParamAllocated(f, k);
    case Local(x) =>
      var d :| d in f.declarations && d.0 == x;
      var k :| 0 <= k < |f.declarations| && f.declarations[k] == d;
      j := 1 + 2 * |f.params| + k;
      LocalAllocated(f, k);
  }

  lemma ScopeIsDeclared(f: S.Function, globals: map<string, S.Type>, funcs: map<string, S.Signature>, e: Entry)
    requires IsSlot(e) && InScope(e, ScopeOf(f, globals, funcs))
    ensures Declares(f, e)
  {
    DeclInstrsAt(f.params);
    DeclInstrsAt(f.declarations);
    match e
    case ParamSlot(x) =>
      var k :| 0 <= k < |f.params| && Names(f.params)[k] == x;
      assert f.params[k] in f.params;
    case Local(x) =>
      var k :| 0 <= k < |f.declarations| && Names(f.declarations)[k] == x;
      assert f.declarations[k] in f.declarations;
    case _ =>
  }

  // ----- Whole functions -----

  /** Every slot that any block of a function loads, stores, scans into or mentions otherwise has exactly one alloca in
      the function. It is in the entry block, and before every mention there. */
  lemma SlotsAllocatedOnce(f: S.Function, globals: map<string, S.Type>, funcs: map<string, S.Signature>, n: Label,
                           r: nat, l: Label, k: nat, e: Entry)
    returns (j: nat)
    requires DistinctNames(f) && S.WellTypedStms(f.stms, ScopeOf(f, globals, funcs), f.ret) && IsSlot(e)
    requires var code := FunctionBody(f, ScopeOf(f, globals, funcs), n, r).b.code;
      l in code && k < |code[l]| && Touches(code[l][k], e)
    ensures var code := FunctionBody(f, ScopeOf(f, globals, funcs), n, r).b.code;
      && n in code && j < |code[n]| && code[n][j] == Alloca(e) && (l == n ==> j < k)
      && forall m, q :: m in code && 0 <= q < |code[m]| && code[m][q] == Alloca(e) ==> m == n && q == j
  {
    hide Prologue, FunctionBody, S.WellTypedStms, Touches, DistinctNames, Declares, InScope, IsSlot, ScopeOf;
    var sc := ScopeOf(f, globals, funcs);
    var code := FunctionBody(f, sc, n, r).b.code;
    var pro := Prologue(f);
    var p := BodyTouchesScope(sc, f.ret);
    FunctionEverywhere(p, f, sc, n, r);
    EverywhereIs(p, FunctionBody(f, sc, n, r).b, n, |pro|);
    if l == n && k < |pro| {
      assert code[n][k] == pro[k];
      PrologueDeclares(f, k, e);
    } else {
      assert TouchesScope(code[l][k], sc);
      ScopeIsDeclared(f, globals, funcs, e);
    }
    j := DeclaredAllocated(f, e);
    assert code[n][j] == pro[j];
    forall m, q | m in code && 0 <= q < |code[m]| && code[m][q] == Alloca(e) ensures m == n && q == j {
      if m == n && q < |pro| { assert code[n][q] == pro[q]; }
    }
  }

  lemma PrologueDeclares(f: S.Function, q: nat, e: Entry)
    requires q < |Prologue(f)| && IsSlot(e) && (Touches(Prologue(f)[q], e) || Prologue(f)[q] == Alloca(e))
    ensures Declares(f, e)
  {
    hide Prologue;
    var i := PrologueCases(f, q);
    if i < |f.params| { assert f.params[i] in f.params; }
    if i < |f.declarations| { assert f.declarations[i] in f.declarations; }
  }

  /** A function allocates exactly what it declares, each slot once. */
  lemma AllocatesWhatItDeclares(f: S.Function, globals: map<string, S.Type>, funcs: map<string, S.Signature>, n: Label,
                                r: nat, e: Entry)
    requires DistinctNames(f) && S.WellTypedStms(f.stms, ScopeOf(f, globals, funcs), f.ret) && IsSlot(e)
    ensures var code := FunctionBody(f, ScopeOf(f, globals, funcs), n, r).b.code;
      && (Declares(f, e) <==> exists l, j :: l in code && 0 <= j < |code[l]| && code[l][j] == Alloca(e))
      && forall l, j, m, q ::
           l in code && m in code && 0 <= j < |code[l]| && 0 <= q < |code[m]| && code[l][j] == code[m][q] == Alloca(e)
           ==> l == m && j == q
  {
    hide Prologue, FunctionBody, S.WellTypedStms, Touches, DistinctNames, Declares, InScope, IsSlot, ScopeOf;
    var sc := ScopeOf(f, globals, funcs);
    var code := FunctionBody(f, sc, n, r).b.code;
    var pro := Prologue(f);
    var p := BodyTouchesScope(sc, f.ret);
    FunctionEverywhere(p, f, sc, n, r);
    EverywhereIs(p, FunctionBody(f, sc, n, r).b, n, |pro|);
    forall l, j | l in code && 0 <= j < |code[l]| && code[l][j] == Alloca(e)
      ensures l == n && j < |pro| && pro[j] == Alloca(e)
    {
      if l == n && j < |pro| { assert code[n][j] == pro[j]; }
    }
    if Declares(f, e) {
      var j := DeclaredAllocated(f, e);
      assert code[n][j] == pro[j];
    } else if l, j :| l in code && 0 <= j < |code[l]| && code[l][j] == Alloca(e) {
      PrologueDeclares(f, j, e);
    }
  }
}
