/** Temporaries are single-assignment: one definition each, over the whole program, before and in the block of every
    use. */
module Temps {
  import opened Words
  import opened Ir
  import opened IrSemantics
  import opened Translation
  import opened Growth
  import S = Source

  function EntryTemps(e: Entry): set<nat> { if e.Temp? then {e.n} else {} }

  function OperandTemps(op: Operand): set<nat> { if op.Reg? then EntryTemps(op.entry) else {} }

  function AllOperandTemps(ops: seq<Operand>): set<nat> {
    if ops == [] then {} else OperandTemps(ops[0]) + AllOperandTemps(ops[1..])
  }

  /** The temporary an instruction defines. */
  function DestTemps(i: Instr): set<nat> {
    match i
    case BinOp(d, _, _, _) => EntryTemps(d)
    case ICmp(d, _, _, _) => EntryTemps(d)
    case Select(d, _, _, _) => EntryTemps(d)
    case Trunc(d, _) => EntryTemps(d)
    case Load(d, _) => EntryTemps(d)
    case CallAssign(d, _, _) => EntryTemps(d)
    case _ => {}
  }

  /** The temporaries an instruction reads, or names as a location. */
  function UsedTemps(i: Instr): set<nat> {
    match i
    case BinOp(_, _, a, b) => OperandTemps(a) + OperandTemps(b)
    case ICmp(_, _, a, b) => OperandTemps(a) + OperandTemps(b)
    case Select(_, c, a, b) => OperandTemps(c) + OperandTemps(a) + OperandTemps(b)
    case Trunc(_, v) => OperandTemps(v)
    case Load(_, s) => EntryTemps(s)
    case Store(v, d) => OperandTemps(v) + EntryTemps(d)
    case Alloca(d) => EntryTemps(d)
    case Printf(_, fs) => AllOperandTemps(fs)
    case Scanf(p) => EntryTemps(p)
    case Call(_, args) => AllOperandTemps(args)
    case CallAssign(_, _, args) => AllOperandTemps(args)
    case Br(_) => {}
    case BrCond(c, _, _, _) => OperandTemps(c)
    case Ret(v) => OperandTemps(v)
  }

  /** The definitions of a chunk of code are numbered upwards, from n and below next. */
  predicate Numbered(ins: seq<Instr>, n: nat, next: nat) {
    if ins == [] then n <= next
    else
      var d := DestTemps(ins[0]);
      if d == {} then Numbered(ins[1..], n, next)
      else exists k | n <= k < next :: d == {k} && Numbered(ins[1..], k + 1, next)
  }

  function Defs(ins: seq<Instr>): set<nat> {
    if ins == [] then {} else DestTemps(ins[0]) + Defs(ins[1..])
  }

  /** Every use is of a temporary given or defined by an earlier instruction. */
  predicate UsesAfter(ins: seq<Instr>, given: set<nat>) {
    ins == [] || (UsedTemps(ins[0]) <= given && UsesAfter(ins[1..], given + DestTemps(ins[0])))
  }

  lemma {:induction false} NumberedAppend(a: seq<Instr>, b: seq<Instr>, n: nat, k: nat, m: nat)
    requires Numbered(a, n, k) && Numbered(b, k, m) && k <= m
    ensures Numbered(a + b, n, m)
    decreases a
  {
    if a == [] {
      assert a + b == b;
      NumberedFrom(b, n, k, m);
    } else {
      assert (a + b)[1..] == a[1..] + b;
      var d := DestTemps(a[0]);
      if d == {} {
        NumberedAppend(a[1..], b, n, k, m);
      } else {
        var j :| n <= j < k && d == {j} && Numbered(a[1..], j + 1, k);
        NumberedAppend(a[1..], b, j + 1, k, m);
      }
    }
  }

  lemma {:induction false} NumberedFrom(b: seq<Instr>, n: nat, k: nat, m: nat)
    requires Numbered(b, k, m) && n <= k
    ensures Numbered(b, n, m)
    decreases b
  {
    if b != [] && DestTemps(b[0]) == {} { NumberedFrom(b[1..], n, k, m); }
  }

  lemma {:induction false} DefsAppend(a: seq<Instr>, b: seq<Instr>)
    ensures Defs(a + b) == Defs(a) + Defs(b)
  {
    if a == [] {
      assert a + b == b;
    } else {
      assert (a + b)[1..] == a[1..] + b;
      DefsAppend(a[1..], b);
    }
  }

  lemma {:induction false} UsesAppend(a: seq<Instr>, b: seq<Instr>, given: set<nat>)
    requires UsesAfter(a, given) && UsesAfter(b, given + Defs(a))
    ensures UsesAfter(a + b, given)
    decreases a
  {
    if a == [] {
      assert a + b == b;
      assert given + {} == given;
    } else {
      assert (a + b)[1..] == a[1..] + b;
      assert given + Defs(a) == given + DestTemps(a[0]) + Defs(a[1..]);
      UsesAppend(a[1..], b, given + DestTemps(a[0]));
    }
  }

  lemma {:induction false} UsesMono(a: seq<Instr>, given: set<nat>, given': set<nat>)
    requires UsesAfter(a, given) && given <= given'
    ensures UsesAfter(a, given')
    decreases a
  {
    if a != [] { UsesMono(a[1..], given + DestTemps(a[0]), given' + DestTemps(a[0])); }
  }

  // ----- Expressions -----

  /** A chunk that defines its own temporaries, in order, before using them. */
  ghost predicate Chunk(ins: seq<Instr>, n: nat, next: nat) {
    n <= next && Numbered(ins, n, next) && UsesAfter(ins, {})
  }

  ghost predicate ChunkWith(ins: seq<Instr>, used: set<nat>, n: nat, next: nat) {
    Chunk(ins, n, next) && used <= Defs(ins)
  }

  lemma ChunkAppend(a: seq<Instr>, b: seq<Instr>, n: nat, k: nat, m: nat)
    requires Chunk(a, n, k) && k <= m && Numbered(b, k, m) && UsesAfter(b, Defs(a))
    ensures Chunk(a + b, n, m) && Defs(a + b) == Defs(a) + Defs(b)
  {
    NumberedAppend(a, b, n, k, m);
    assert {} + Defs(a) == Defs(a);
    UsesAppend(a, b, {});
    DefsAppend(a, b);
  }

  /** Two chunks in a row; the second uses nothing of the first. */
  lemma ChunkThen(a: seq<Instr>, b: seq<Instr>, n: nat, k: nat, m: nat)
    requires Chunk(a, n, k) && Chunk(b, k, m)
    ensures Chunk(a + b, n, m) && Defs(a + b) == Defs(a) + Defs(b)
  {
    UsesMono(b, {}, Defs(a));
    ChunkAppend(a, b, n, k, m);
  }

  lemma OneInstr(i: Instr, k: nat, given: set<nat>)
    requires DestTemps(i) == {k} && UsedTemps(i) <= given
    ensures Numbered([i], k, k + 1) && UsesAfter([i], given) && Defs([i]) == {k}
  {
    assert [i][1..] == [];
    assert Numbered([], k + 1, k + 1) && UsesAfter([], given + {k});
  }

  lemma NoDest(i: Instr, k: nat, given: set<nat>)
    requires DestTemps(i) == {} && UsedTemps(i) <= given
    ensures Numbered([i], k, k) && UsesAfter([i], given) && Defs([i]) == {}
  {
    assert [i][1..] == [];
    assert Numbered([], k, k) && UsesAfter([], given + {});
  }

  /** A chunk and one more instruction that defines the next temporary from what the chunk defines. */
  lemma ChunkOne(a: seq<Instr>, i: Instr, n: nat, k: nat)
    requires Chunk(a, n, k) && DestTemps(i) == {k} && UsedTemps(i) <= Defs(a)
    ensures Chunk(a + [i], n, k + 1) && Defs(a + [i]) == Defs(a) + {k}
  {
    OneInstr(i, k, Defs(a));
    ChunkAppend(a, [i], n, k, k + 1);
  }

  lemma ChunkNone(a: seq<Instr>, i: Instr, n: nat, k: nat)
    requires Chunk(a, n, k) && DestTemps(i) == {} && UsedTemps(i) <= Defs(a)
    ensures Chunk(a + [i], n, k) && Defs(a + [i]) == Defs(a)
  {
    NoDest(i, k, Defs(a));
    ChunkAppend(a, [i], n, k, k);
  }

  lemma NotTemp(x: string, sc: S.Scope)
    ensures EntryTemps(Resolve(x, sc)) == {}
  {
  }

  lemma ExprChunk(e: S.Expr, sc: S.Scope, n: nat)
    ensures var r := Expr(e, sc, n); ChunkWith(r.ins, OperandTemps(r.opnd), n, r.next)
    decreases e, 1
  {
    hide Chunk, Numbered, UsesAfter, Defs, Resolve, Combine;
    EmptyChunk(n);
    match e
    case IntLit(_) =>
    case BoolLit(_) =>
    case Var(x) =>
      NotTemp(x, sc);
      ChunkOne([], Load(Temp(n), Resolve(x, sc)), n, n);
      assert [] + [Load(Temp(n), Resolve(x, sc))] == [Load(Temp(n), Resolve(x, sc))];
    case Paren(e1) => ExprChunk(e1, sc, n);
    case Neg(e1) =>
      var r := Expr(e1, sc, n);
      ExprChunk(e1, sc, n);
      ChunkOne(r.ins, BinOp(Temp(r.next), MUL, Imm(-1, I64), r.opnd), n, r.next);
    case Not(e1) =>
      var r := Expr(e1, sc, n);
      var ty := if r.opnd.Reg? then r.opnd.ty else UnknownTy;
      ExprChunk(e1, sc, n);
      ChunkOne(r.ins, ICmp(Temp(r.next), EQ, r.opnd, Imm(0, ty)), n, r.next);
    case Binary(first, ops, rest) =>
      ExprChunk(first, sc, n);
      RestChunk(Expr(first, sc, n), n, ops, rest, sc);
    case Invoke(f, args) =>
      var r := Exprs(args, sc, n);
      ExprsChunk(args, sc, n);
      ChunkOne(r.ins, CallAssign(Temp(r.next), f, r.opnds), n, r.next);
  }

  lemma EmptyChunk(n: nat)
    ensures Chunk([], n, n) && Defs([]) == {}
  {
  }

  lemma ExprsChunk(es: seq<S.Expr>, sc: S.Scope, n: nat)
    ensures var r := Exprs(es, sc, n); ChunkWith(r.ins, AllOperandTemps(r.opnds), n, r.next)
    decreases es, 0
  {
    hide Chunk, Numbered, UsesAfter, Defs;
    EmptyChunk(n);
    if es != [] {
      var r := Expr(es[0], sc, n);
      var rs := Exprs(es[1..], sc, r.next);
      ExprChunk(es[0], sc, n);
      ExprsChunk(es[1..], sc, r.next);
      ChunkThen(r.ins, rs.ins, n, r.next, rs.next);
      assert ([r.opnd] + rs.opnds)[1..] == rs.opnds;
    }
  }

  lemma RestChunk(sofar: Emitted, n: nat, ops: seq<S.Operator>, rest: seq<S.Expr>, sc: S.Scope)
    requires ChunkWith(sofar.ins, OperandTemps(sofar.opnd), n, sofar.next)
    ensures var r := Rest(sofar, ops, rest, sc); ChunkWith(r.ins, OperandTemps(r.opnd), n, r.next)
    decreases rest, 0
  {
    hide Chunk, Numbered, UsesAfter, Defs, Combine;
    if rest != [] && ops != [] {
      var r := Expr(rest[0], sc, sofar.next);
      ExprChunk(rest[0], sc, sofar.next);
      ChunkThen(sofar.ins, r.ins, n, sofar.next, r.next);
      var c := Combine(ops[0], sofar.opnd, r.opnd, r.next);
      CombineChunk(sofar.ins + r.ins, ops[0], sofar.opnd, r.opnd, n, r.next);
      RestChunk(Emitted(sofar.ins + r.ins + c.ins, c.opnd, c.next), n, ops[1..], rest[1..], sc);
    }
  }

  /** Widening an operand of a chunk. */
  lemma WidenChunk(ins: seq<Instr>, v: Operand, n: nat, k: nat, j: nat) returns (next: nat)
    requires ChunkWith(ins, OperandTemps(v), n, j) && j <= k
    ensures var (more, v') := Widen(v, k);
      ChunkWith(ins + more, OperandTemps(v'), n, next) && Defs(ins) <= Defs(ins + more)
    ensures next == if v.Type() == I64 then j else k + 1
  {
    hide Chunk, Numbered, UsesAfter, Defs;
    next := j;
    if v.Type() == I64 {
      assert ins + [] == ins;
    } else {
      ChunkLater(ins, n, j, k);
      ChunkOne(ins, Select(Temp(k), v, Imm(1, I64), Imm(0, I64)), n, k);
      next := k + 1;
    }
  }

  lemma {:induction false} NumberedUpTo(a: seq<Instr>, n: nat, j: nat, k: nat)
    requires Numbered(a, n, j) && j <= k
    ensures Numbered(a, n, k)
    decreases a
  {
    if a != [] {
      var d := DestTemps(a[0]);
      if d == {} {
        NumberedUpTo(a[1..], n, j, k);
      } else {
        var i :| n <= i < j && d == {i} && Numbered(a[1..], i + 1, j);
        NumberedUpTo(a[1..], i + 1, j, k);
      }
    }
  }

  lemma ChunkLater(a: seq<Instr>, n: nat, j: nat, k: nat)
    requires Chunk(a, n, j) && j <= k
    ensures Chunk(a, n, k)
  {
    NumberedUpTo(a, n, j, k);
  }

  lemma CombineChunk(ins: seq<Instr>, op: S.Operator, a: Operand, b: Operand, n: nat, k: nat)
    requires ChunkWith(ins, OperandTemps(a) + OperandTemps(b), n, k)
    ensures var c := Combine(op, a, b, k); ChunkWith(ins + c.ins, OperandTemps(c.opnd), n, c.next)
  {
    hide Chunk, Numbered, UsesAfter, Defs, Widen;
    if op.IsComparison() {
      ChunkOne(ins, ICmp(Temp(k), CondOf(op), a, b), n, k);
    } else if op.IsBoolOp() {
      var (insA, a') := Widen(a, k);
      var (insB, b') := Widen(b, k + 1);
      var dest := if b.Type() != I64 then k + 2 else k + 1;
      var j := WidenChunk(ins, a, n, k, k);
      var i := WidenChunk(ins + insA, b, n, k + 1, j);
      ChunkLater(ins + insA + insB, n, i, dest);
      ChunkOne(ins + insA + insB, BinOp(Temp(dest), BinOpOf(op), a', b'), n, dest);
      assert ins + (insA + insB + [BinOp(Temp(dest), BinOpOf(op), a', b')]) ==
          ins + insA + insB + [BinOp(Temp(dest), BinOpOf(op), a', b')];
    } else {
      ChunkOne(ins, BinOp(Temp(k), BinOpOf(op), a, b), n, k);
    }
  }

  // ----- Statements -----

  lemma ReturnChunk(ins: seq<Instr>, v: Operand, n: nat, k: nat)
    requires ChunkWith(ins, OperandTemps(v), n, k)
    ensures Chunk(ins + ReturnOf(v, k), n, k + 1)
  {
    hide Chunk, Numbered, UsesAfter, Defs;
    var store, load, ret := Store(v, RetVal), Load(Temp(k), RetVal), Ret(Reg(Temp(k), I64));
    ChunkNone(ins, store, n, k);
    ChunkOne(ins + [store], load, n, k);
    ChunkNone(ins + [store] + [load], ret, n, k + 1);
    assert ins + ReturnOf(v, k) == ins + [store] + [load] + [ret];
  }

  lemma SimpleChunk(s: S.Stm, sc: S.Scope, n: nat)
    requires !s.Conditional? && !s.Loop?
    ensures var (ins, next) := Simple(s, sc, n); Chunk(ins, n, next)
  {
    hide Chunk, Numbered, UsesAfter, Defs, Expr, Exprs, Resolve;
    EmptyChunk(n);
    match s
    case Assignment(x, e) =>
      var r := Expr(e, sc, n);
      ExprChunk(e, sc, n);
      NotTemp(x, sc);
      ChunkNone(r.ins, Store(r.opnd, Resolve(x, sc)), n, r.next);
    case Print(text, es) =>
      var r := Exprs(es, sc, n);
      ExprsChunk(es, sc, n);
      ChunkNone(r.ins, Printf(text, r.opnds), n, r.next);
    case Read(x) =>
      NotTemp(x, sc);
      ChunkNone([], Scanf(Resolve(x, sc)), n, n);
      assert [] + [Scanf(Resolve(x, sc))] == [Scanf(Resolve(x, sc))];
    case Invocation(f, es) =>
      var r := Exprs(es, sc, n);
      ExprsChunk(es, sc, n);
      ChunkNone(r.ins, Call(f, r.opnds), n, r.next);
    case Return(None) =>
      ReturnChunk([], Imm(0, I64), n, n);
      assert [] + ReturnOf(Imm(0, I64), n) == ReturnOf(Imm(0, I64), n);
    case Return(Some(e)) =>
      var r := Expr(e, sc, n);
      ExprChunk(e, sc, n);
      ReturnChunk(r.ins, r.opnd, n, r.next);
  }

  lemma BranchChunk(cond: S.Expr, sc: S.Scope, n: nat, t: Label, f: Label, isLoop: bool)
    ensures var c := Test(Expr(cond, sc, n), isLoop); Chunk(c.ins + [BrCond(c.opnd, t, f, EQ)], n, c.next)
  {
    hide Chunk, Numbered, UsesAfter, Defs, Expr;
    var e := Expr(cond, sc, n);
    ExprChunk(cond, sc, n);
    var c := Test(e, isLoop);
    var truncate := e.opnd.Reg? && if isLoop then e.opnd.ty == I64 else e.opnd.ty != I1;
    if truncate {
      ChunkOne(e.ins, Trunc(Temp(e.next), e.opnd), n, e.next);
      ChunkOne(e.ins + [Trunc(Temp(e.next), e.opnd)],
               Select(Temp(e.next + 1), Reg(Temp(e.next), I1), Imm(1, I1), Imm(0, I1)), n, e.next + 1);
    } else {
      ChunkOne(e.ins, Select(Temp(e.next), e.opnd, Imm(1, I1), Imm(0, I1)), n, e.next);
    }
    ChunkNone(c.ins, BrCond(c.opnd, t, f, EQ), n, c.next);
  }
}
