/** The translation as it runs: blocks are appended to and linked in place while the generators advance. Every method
    ends with the graph that the translation function gives. */
module Compile {
  import opened Words
  import opened Ir
  import opened IrSemantics
  import opened Translation
  import opened Cfg
  import opened BlockGraph
  import S = Source

  // ----- Expressions -----

  method CompileExpr(e: S.Expr, sc: S.Scope, prog: Program) returns (ins: seq<Instr>, opnd: Operand)
    requires S.WellTyped(e, sc)
    modifies prog`registerCounter
    ensures Emitted(ins, opnd, prog.registerCounter) == Expr(e, sc, old(prog.registerCounter))
    decreases e, 1
  {
    match e
    case IntLit(v) => ins, opnd := [], Imm(v, IntTy);
    case BoolLit(t) => ins, opnd := [], Imm(Bit(t), BoolTy);
    case Var(x) =>
      var reg := prog.RegisterGen();
      ins, opnd := [Load(reg, Resolve(x, sc))], Reg(reg, VarTy(x, sc));
    case Paren(e1) => ins, opnd := CompileExpr(e1, sc, prog);
    case Neg(e1) =>
      ins, opnd := CompileExpr(e1, sc, prog);
      var reg := prog.RegisterGen();
      ins, opnd := ins + [BinOp(reg, MUL, Imm(-1, I64), opnd)], Reg(reg, I64);
    case Not(e1) =>
      ins, opnd := CompileExpr(e1, sc, prog);
      var reg := prog.RegisterGen();
      var ty := if opnd.Reg? then opnd.ty else UnknownTy;
      ins, opnd := ins + [ICmp(reg, EQ, opnd, Imm(0, ty))], Reg(reg, I1);
    case Binary(first, ops, rest) =>
      ins, opnd := CompileBinary(e, sc, prog);
    case Invoke(f, args) =>
      var opnds;
      ins, opnds := CompileExprs(args, sc, prog);
      var reg := prog.RegisterGen();
      ins, opnd := ins + [CallAssign(reg, f, opnds)], Reg(reg, VarTy(f, sc));
  }

  method CompileExprs(es: seq<S.Expr>, sc: S.Scope, prog: Program) returns (ins: seq<Instr>, opnds: seq<Operand>)
    requires S.WellTypedAll(es, sc)
    modifies prog`registerCounter
    ensures EmittedAll(ins, opnds, prog.registerCounter) == Exprs(es, sc, old(prog.registerCounter))
    decreases es, 0
  {
    ins, opnds := [], [];
    for i := 0 to |es|
      invariant S.WellTypedAll(es[i..], sc)
      invariant var r := Exprs(es[i..], sc, prog.registerCounter);
        Exprs(es, sc, old(prog.registerCounter)) == EmittedAll(ins + r.ins, opnds + r.opnds, r.next)
    {
      ghost var r := Exprs(es[i..], sc, prog.registerCounter);
      var ins1, opnd1 := CompileExpr(es[i], sc, prog);
      assert es[i..][1..] == es[i + 1..];
      ghost var rs := Exprs(es[i + 1..], sc, prog.registerCounter);
      assert r == EmittedAll(ins1 + rs.ins, [opnd1] + rs.opnds, rs.next);
      assert ins + (ins1 + rs.ins) == ins + ins1 + rs.ins && opnds + ([opnd1] + rs.opnds) == opnds + [opnd1] + rs.opnds;
      ins, opnds := ins + ins1, opnds + [opnd1];
    }
    assert es[|es|..] == [] && ins + [] == ins && opnds + [] == opnds;
  }

  /** The fold over the operators, rebinding the register that holds the result so far. */
  method CompileBinary(e: S.Expr, sc: S.Scope, prog: Program) returns (ins: seq<Instr>, opnd: Operand)
    requires e.Binary? && S.WellTyped(e, sc)
    modifies prog`registerCounter
    ensures Emitted(ins, opnd, prog.registerCounter) == Expr(e, sc, old(prog.registerCounter))
    decreases e, 0
  {
    ghost var sofar := Expr(e.first, sc, prog.registerCounter);
    ins, opnd := CompileExpr(e.first, sc, prog);
    var ops, rest := e.ops, e.rest;
    for i := 0 to |rest|
      invariant S.WellTypedAll(rest[i..], sc)
      invariant Rest(Emitted(ins, opnd, prog.registerCounter), ops[i..], rest[i..], sc) == Rest(sofar, ops, rest, sc)
    {
      var ins1, opnd1 := CompileExpr(rest[i], sc, prog);
      var ins2, opnd2 := CompileOp(ops[i], opnd, opnd1, prog);
      assert rest[i..][1..] == rest[i + 1..] && ops[i..][1..] == ops[i + 1..];
      ins, opnd := ins + ins1 + ins2, opnd2;
    }
  }

  method CompileOp(op: S.Operator, a: Operand, b: Operand, prog: Program) returns (ins: seq<Instr>, opnd: Operand)
    modifies prog`registerCounter
    ensures Emitted(ins, opnd, prog.registerCounter) == Combine(op, a, b, old(prog.registerCounter))
  {
    ins := [];
    var left, right := a, b;
    var selectReg, restSelReg := RetVal, RetVal;
    if op.IsBoolOp() {
      selectReg := prog.RegisterGen();
      if right.Type() != I64 { restSelReg := prog.RegisterGen(); }
    }
    var dest := prog.RegisterGen();
    if op.IsComparison() {
      return [ICmp(dest, CondOf(op), left, right)], Reg(dest, I1);
    }
    if op.IsBoolOp() {
      if left.Type() != I64 {
        ins := ins + [Select(selectReg, left, Imm(1, I64), Imm(0, I64))];
        left := Reg(selectReg, I64);
      }
      if right.Type() != I64 {
        ins := ins + [Select(restSelReg, right, Imm(1, I64), Imm(0, I64))];
        right := Reg(restSelReg, I64);
      }
    }
    ins := ins + [BinOp(dest, BinOpOf(op), left, right)];
    opnd := Reg(dest, I64);
  }

  // ----- Statements -----

  method CompileSimple(s: S.Stm, sc: S.Scope, ghost ret: Option<S.Type>, prog: Program) returns (ins: seq<Instr>)
    requires !s.Conditional? && !s.Loop? && S.WellTypedStm(s, sc, ret)
    modifies prog`registerCounter
    ensures (ins, prog.registerCounter) == Simple(s, sc, old(prog.registerCounter))
  {
    match s
    case Assignment(x, e) =>
      var opnd;
      ins, opnd := CompileExpr(e, sc, prog);
      ins := ins + [Store(opnd, Resolve(x, sc))];
    case Print(text, es) =>
      var opnds;
      ins, opnds := CompileExprs(es, sc, prog);
      ins := ins + [Printf(text, opnds)];
    case Read(x) => ins := [Scanf(Resolve(x, sc))];
    case Invocation(f, es) =>
      var opnds;
      ins, opnds := CompileExprs(es, sc, prog);
      ins := ins + [Call(f, opnds)];
    case Return(None) =>
      var reg := prog.RegisterGen();
      ins := [Store(Imm(0, I64), RetVal), Load(reg, RetVal), Ret(Reg(reg, I64))];
    case Return(Some(e)) =>
      var opnd;
      ins, opnd := CompileExpr(e, sc, prog);
      var reg := prog.RegisterGen();
      ins := ins + [Store(opnd, RetVal)] + [Load(reg, RetVal)] + [Ret(Reg(reg, I64))];
      ghost var r := Expr(e, sc, old(prog.registerCounter));
      assert ins == r.ins + ReturnOf(r.opnd, r.next);
  }

  method CompileTest(cond: S.Expr, sc: S.Scope, isLoop: bool, prog: Program) returns (ins: seq<Instr>, opnd: Operand)
    requires S.WellTyped(cond, sc)
    modifies prog`registerCounter
    ensures Emitted(ins, opnd, prog.registerCounter) == Test(Expr(cond, sc, old(prog.registerCounter)), isLoop)
  {
    hide Expr;
    ins, opnd := CompileExpr(cond, sc, prog);
    if opnd.Reg? && (if isLoop then opnd.ty == I64 else opnd.ty != I1) {
      var truncReg := prog.RegisterGen();
      ins := ins + [Trunc(truncReg, opnd)];
      opnd := Reg(truncReg, I1);
    }
    var selReg := prog.RegisterGen();
    ins := ins + [Select(selReg, opnd, Imm(1, I1), Imm(0, I1))];
    if !isLoop { opnd := Reg(selReg, I1); }
  }

  /** The condition of a conditional or a loop, the select on it and the branch, at the end of at. */
  method CompileBranch(at: Block, cond: S.Expr, t: Label, f: Label, isLoop: bool, func: FuncDef, prog: Program,
                       sc: S.Scope, ghost b: Build)
    requires func.Is(b) && prog.InStep(b) && Owns(func.blocks, at) && S.WellTyped(cond, sc)
    modifies at`instrs, prog`registerCounter
    ensures func.Is(Branch(b, at.lbl, cond, sc, t, f, isLoop)) && prog.InStep(Branch(b, at.lbl, cond, sc, t, f, isLoop))
  {
    hide FuncDef.Is, Test, Expr;
    var ins, opnd := CompileTest(cond, sc, isLoop, prog);
    func.Append(at, ins + [BrCond(opnd, t, f, EQ)], b, prog.registerCounter);
  }

  method CompileStm(s: S.Stm, block: Block, func: FuncDef, prog: Program, sc: S.Scope, ghost ret: Option<S.Type>,
                    ghost b: Build)
    returns (cur: Block)
    requires func.Is(b) && prog.InStep(b) && Owns(func.blocks, block) && S.WellTypedStm(s, sc, ret)
    modifies func, prog, func.blocks.Values
    ensures fresh(func.blocks.Values - old(func.blocks.Values)) && Keeps(old(func.blocks), func.blocks)
    ensures Owns(func.blocks, cur) && cur.lbl == Stm(s, block.lbl, b, sc).cur
    ensures func.Is(Stm(s, block.lbl, b, sc).b) && prog.InStep(Stm(s, block.lbl, b, sc).b)
    decreases s, 1
  {
    hide FuncDef.Is, Simple;
    if s.Conditional? {
      cur := CompileIf(s, block, func, prog, sc, ret, b);
    } else if s.Loop? {
      cur := CompileFor(s, block, func, prog, sc, ret, b);
    } else {
      var ins := CompileSimple(s, sc, ret, prog);
      func.Append(block, ins, b, prog.registerCounter);
      cur := block;
    }
  }

  /** Statements one after the other, rebinding the current block. */
  method CompileStms(ss: seq<S.Stm>, block: Block, func: FuncDef, prog: Program, sc: S.Scope,
                     ghost ret: Option<S.Type>, ghost b: Build)
    returns (cur: Block)
    requires func.Is(b) && prog.InStep(b) && Owns(func.blocks, block) && S.WellTypedStms(ss, sc, ret)
    modifies func, prog, func.blocks.Values
    ensures fresh(func.blocks.Values - old(func.blocks.Values)) && Keeps(old(func.blocks), func.blocks)
    ensures Owns(func.blocks, cur) && cur.lbl == Stms(ss, block.lbl, b, sc).cur
    ensures func.Is(Stms(ss, block.lbl, b, sc).b) && prog.InStep(Stms(ss, block.lbl, b, sc).b)
    decreases ss, 0
  {
    hide FuncDef.Is;
    cur := block;
    ghost var c := b;
    for i := 0 to |ss|
      invariant func.Is(c) && prog.InStep(c) && Owns(func.blocks, cur) && S.WellTypedStms(ss[i..], sc, ret)
      invariant fresh(func.blocks.Values - old(func.blocks.Values)) && Keeps(old(func.blocks), func.blocks)
      invariant Stms(ss[i..], cur.lbl, c, sc) == Stms(ss, block.lbl, b, sc)
    {
      ghost var p := Stm(ss[i], cur.lbl, c, sc);
      assert ss[i..][1..] == ss[i + 1..];
      cur := CompileStm(ss[i], cur, func, prog, sc, ret, c);
      c := p.b;
    }
  }

  /** A nested statement list in its own block, then a branch to x. */
  method CompileNested(ss: seq<S.Stm>, at: Block, x: Label, func: FuncDef, prog: Program, sc: S.Scope,
                       ghost ret: Option<S.Type>, ghost b: Build)
    requires func.Is(b) && prog.InStep(b) && Owns(func.blocks, at) && S.WellTypedStms(ss, sc, ret)
    modifies func, prog, func.blocks.Values
    ensures fresh(func.blocks.Values - old(func.blocks.Values)) && Keeps(old(func.blocks), func.blocks)
    ensures func.Is(Nested(ss, at.lbl, b, sc, x)) && prog.InStep(Nested(ss, at.lbl, b, sc, x))
    decreases ss, 1
  {
    hide FuncDef.Is;
    var last := CompileStms(ss, at, func, prog, sc, ret, b);
    func.Append(last, [Br(x)], Stms(ss, at.lbl, b, sc).b, prog.registerCounter);
  }

  method CompileIf(s: S.Stm, block: Block, func: FuncDef, prog: Program, sc: S.Scope, ghost ret: Option<S.Type>,
                   ghost b: Build)
    returns (cur: Block)
    requires func.Is(b) && prog.InStep(b) && Owns(func.blocks, block) && s.Conditional? && S.WellTypedStm(s, sc, ret)
    modifies func, prog, func.blocks.Values
    ensures fresh(func.blocks.Values - old(func.blocks.Values)) && Keeps(old(func.blocks), func.blocks)
    ensures Owns(func.blocks, cur) && cur.lbl == If(s, block.lbl, b, sc).cur
    ensures func.Is(If(s, block.lbl, b, sc).b) && prog.InStep(If(s, block.lbl, b, sc).b)
    decreases s, 0, 1
  {
    hide FuncDef.Is, NewIf, Branch, Build.Append, Program.InStep, If, Nested, Stm, Stms, For, S.WellTyped;
    IfIs(s, block.lbl, b, sc);
    var t, f, x := func.PlaceIf(block, prog, b);
    ghost var b0 := NewIf(b, block.lbl);
    CompileBranch(block, s.cond, t.lbl, f.lbl, false, func, prog, sc, b0);
    ghost var b1 := Branch(b0, block.lbl, s.cond, sc, t.lbl, f.lbl, false);
    CompileNested(s.ifblock, t, x.lbl, func, prog, sc, ret, b1);
    CompileElse(s, f, x.lbl, func, prog, sc, ret, Nested(s.ifblock, t.lbl, b1, sc, x.lbl));
    cur := x;
  }

  lemma IfIs(s: S.Stm, l: Label, b: Build, sc: S.Scope)
    requires s.Conditional?
    ensures var t, f, x := b.nextLabel, b.nextLabel + 1, b.nextLabel + 2;
      var b2 := Nested(s.ifblock, t, Branch(NewIf(b, l), l, s.cond, sc, t, f, false), sc, x);
      If(s, l, b, sc) == Placed(if s.elseblock.Else? then Nested(s.elseblock.stms, f, b2, sc, x)
                                else b2.Append(f, [Br(x)]), x)
  {
  }

  method CompileElse(s: S.Stm, f: Block, x: Label, func: FuncDef, prog: Program, sc: S.Scope,
                     ghost ret: Option<S.Type>, ghost b: Build)
    requires func.Is(b) && prog.InStep(b) && Owns(func.blocks, f) && s.Conditional? && S.WellTypedStm(s, sc, ret)
    modifies func, prog, func.blocks.Values
    ensures fresh(func.blocks.Values - old(func.blocks.Values)) && Keeps(old(func.blocks), func.blocks)
    ensures var c := if s.elseblock.Else? then Nested(s.elseblock.stms, f.lbl, b, sc, x) else b.Append(f.lbl, [Br(x)]);
      func.Is(c) && prog.InStep(c)
    decreases s, 0, 0
  {
    hide FuncDef.Is, Build.Append, Program.InStep;
    if s.elseblock.Else? {
      CompileNested(s.elseblock.stms, f, x, func, prog, sc, ret, b);
    } else {
      CompileBr(f, x, func, prog, b);
    }
  }

  method CompileBr(at: Block, x: Label, func: FuncDef, prog: Program, ghost b: Build)
    requires func.Is(b) && prog.InStep(b) && Owns(func.blocks, at)
    modifies at`instrs
    ensures func.Is(b.Append(at.lbl, [Br(x)])) && prog.InStep(b.Append(at.lbl, [Br(x)]))
  {
    hide FuncDef.Is;
    func.Append(at, [Br(x)], b, prog.registerCounter);
  }

  method CompileFor(s: S.Stm, block: Block, func: FuncDef, prog: Program, sc: S.Scope, ghost ret: Option<S.Type>,
                    ghost b: Build)
    returns (cur: Block)
    requires func.Is(b) && prog.InStep(b) && Owns(func.blocks, block) && s.Loop? && S.WellTypedStm(s, sc, ret)
    modifies func, prog, func.blocks.Values
    ensures fresh(func.blocks.Values - old(func.blocks.Values)) && Keeps(old(func.blocks), func.blocks)
    ensures Owns(func.blocks, cur) && cur.lbl == For(s, block.lbl, b, sc).cur
    ensures func.Is(For(s, block.lbl, b, sc).b) && prog.InStep(For(s, block.lbl, b, sc).b)
    decreases s, 0
  {
    hide FuncDef.Is, NewFor, Branch, Build.Append, Program.InStep;
    var entry, body, exit := func.PlaceFor(block, prog, b);
    ghost var b0 := NewFor(b, block.lbl);
    CompileBr(block, entry.lbl, func, prog, b0);
    ghost var b1 := b0.Append(block.lbl, [Br(entry.lbl)]);
    CompileBranch(entry, s.cond, body.lbl, exit.lbl, true, func, prog, sc, b1);
    ghost var b2 := Branch(b1, entry.lbl, s.cond, sc, body.lbl, exit.lbl, true);
    CompileNested(s.block, body, entry.lbl, func, prog, sc, ret, b2);
    cur := exit;
  }
}
