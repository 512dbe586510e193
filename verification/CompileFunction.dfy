/** A whole function translated in place, cleaned up or padded, and the order its blocks are printed in. */
module CompileFunction {
  import opened Words
  import opened Events
  import opened Ir
  import opened IrSemantics
  import opened Translation
  import opened Growth
  import opened Preservation
  import opened FunctionPreservation
  import opened Shape
  import opened Reachability
  import opened Flow
  import opened DeadCode
  import opened FunctionBlocks
  import opened RemovalRounds
  import opened Cfg
  import opened BlockGraph
  import opened BreadthFirst
  import opened Compile
  import opened Optimise
  import S = Source

  method CompilePrologue(f: S.Function) returns (ins: seq<Instr>)
    ensures ins == Prologue(f)
  {
    ins := [Alloca(RetVal)];
    for i := 0 to |f.params|
      invariant [Alloca(RetVal)] + ParamInstrs(f.params) == ins + ParamInstrs(f.params[i..])
    {
      var p := f.params[i];
      assert f.params[i..][1..] == f.params[i + 1..];
      ins := ins + [Alloca(ParamSlot(p.0)), Store(Reg(RawParam(p.0), IrType(p.1)), ParamSlot(p.0))];
    }
    assert f.params[|f.params|..] == [];
    for i := 0 to |f.declarations|
      invariant Prologue(f) == ins + DeclInstrs(f.declarations[i..])
    {
      assert f.declarations[i..][1..] == f.declarations[i + 1..];
      ins := ins + [Alloca(Local(f.declarations[i].0))];
    }
    assert f.declarations[|f.declarations|..] == [];
  }

  method CompileStart(f: S.Function, prog: Program) returns (func: FuncDef)
    modifies prog`labelCounter
    ensures fresh(func) && fresh(func.blocks.Values) && Owns(func.blocks, func.entry)
    ensures func.entry.lbl == old(prog.labelCounter)
    ensures var b := StartFunction(f, old(prog.labelCounter), prog.registerCounter);
      func.Is(b) && b.nextLabel == prog.labelCounter && b.nextReg == prog.registerCounter
  {
    hide Prologue, Start, StartFunction, FuncDef.Is, Shows, WellLinked, Sound, Build.Append, AddBlock;
    ghost var n := prog.labelCounter;
    var firstBlock := NewBlock(prog);
    func := new FuncDef(firstBlock);
    func.AddBlock(firstBlock.lbl, firstBlock);
    assert func.blocks == map[][n := firstBlock] && n in func.blocks && func.blocks[n] == firstBlock;
    StartIs(func, firstBlock, n, prog.registerCounter);
    var ins := CompilePrologue(f);
    StartAppended(f, n, prog.registerCounter);
    func.Append(firstBlock, ins, Start(n, prog.registerCounter), prog.registerCounter);
  }

  lemma StartAppended(f: S.Function, n: Label, r: nat)
    ensures var b := StartFunction(f, n, r);
      Start(n, r).Append(n, Prologue(f)).(nextReg := r) == b && b.nextLabel == n + 1 && b.nextReg == r
  {
  }

  lemma StartIs(func: FuncDef, block: Block, n: Label, r: nat)
    requires func.blocks == map[][n := block] && block.lbl == n
    requires block.instrs == [] && block.preds == [] && block.succs == [] && block.toForExit == null
    ensures func.Is(Start(n, r)) && func.blocks.Values == {block}
  {
    assert func.blocks[n] == block;
    assert Start(n, r).code.Keys == {n};
    assert ShowsAt(block, Start(n, r), n);
    assert Sound(func.blocks, block);
  }

  /** Prologue, statements, and a final return when there is no result type. */
  method CompileBody(f: S.Function, sc: S.Scope, prog: Program) returns (func: FuncDef)
    requires S.WellTypedStms(f.stms, sc, f.ret)
    modifies prog
    ensures fresh(func) && fresh(func.blocks.Values) && Owns(func.blocks, func.entry)
    ensures func.entry.lbl == old(prog.labelCounter)
    ensures var p := FunctionBody(f, sc, old(prog.labelCounter), old(prog.registerCounter));
      func.Is(p.b) && prog.InStep(p.b)
  {
    hide FuncDef.Is, Stms, StartFunction, S.WellTypedStms;
    ghost var n := prog.labelCounter;
    ghost var r := prog.registerCounter;
    func := CompileStart(f, prog);
    var cur := CompileStms(f.stms, func.entry, func, prog, sc, f.ret, StartFunction(f, n, r));
    if f.ret.None? {
      ghost var p := Stms(f.stms, n, StartFunction(f, n, r), sc);
      var reg := prog.RegisterGen();
      func.Append(cur, [Store(Imm(0, I64), RetVal), Load(reg, RetVal), Ret(Reg(reg, I64))], p.b, prog.registerCounter);
    }
  }

  /** Blocks left empty get a branch to themselves. */
  method PadBlocks(func: FuncDef, ghost b: Build)
    requires func.Is(b)
    modifies func.blocks.Values
    ensures WellLinked(func.blocks) && CodeOf(func.blocks) == Padded(b.code)
    ensures forall l <- func.blocks :: func.blocks[l].succs == old(func.blocks[l].succs)
  {
    hide Labels, LabelOf, CodeOf, Padded;
    AllShown(func.blocks, b);
    LinkedSound(func.blocks);
    PadAll(func, b);
    PaddedCode(func.blocks, b);
  }

  method PadAll(func: FuncDef, ghost b: Build)
    requires forall l <- func.blocks :: func.blocks[l].lbl == l && func.blocks[l].instrs == b.Code(l)
    modifies func.blocks.Values
    ensures forall l <- func.blocks :: func.blocks[l].instrs == PaddedBlock(b, l)
    ensures forall l <- func.blocks ::
      && func.blocks[l].succs == old(func.blocks[l].succs) && func.blocks[l].preds == old(func.blocks[l].preds)
      && func.blocks[l].toForExit == old(func.blocks[l].toForExit)
  {
    ghost var g := func.blocks;
    var keys := func.blocks.Keys;
    while keys != {}
      invariant keys <= g.Keys && func.blocks == g
      invariant forall l <- g :: g[l].instrs == (if l in keys then b.Code(l) else PaddedBlock(b, l))
      invariant forall l <- g ::
        g[l].succs == old(g[l].succs) && g[l].preds == old(g[l].preds) && g[l].toForExit == old(g[l].toForExit)
    {
      var l :| l in keys;
      keys := keys - {l};
      PadBlock(func.blocks[l]);
    }
  }

  function PaddedBlock(b: Build, l: Label): seq<Instr> {
    if b.Code(l) == [] then [Br(l)] else b.Code(l)
  }

  method PadBlock(block: Block)
    modifies block`instrs
    ensures block.instrs == if old(block.instrs) == [] then [Br(block.lbl)] else old(block.instrs)
  {
    if |block.instrs| == 0 { block.AddInstr(Br(block.lbl)); }
  }

  lemma PaddedCode(g: map<Label, Block>, b: Build)
    requires g.Keys == b.code.Keys && forall l <- g :: g[l].instrs == PaddedBlock(b, l)
    ensures CodeOf(g) == Padded(b.code)
  {
  }

  /** How the blocks g of a compiled function, of which some are still registered, relate to the graph b. */
  ghost predicate Compiled(g: map<Label, Block>, func: FuncDef, b: Build, optimize: bool)
    reads func, g.Values
  {
    && WellLinked(g) && Owns(g, func.entry) && func.blocks.Keys <= g.Keys
        && (forall l <- func.blocks :: func.blocks[l] == g[l])
    && if optimize then
         && Eliminated(b, func.entry.lbl, func.blocks.Keys, CodeOf(func.blocks), EdgesOf(g))
         && func.blocks.Keys == Survivors(b.code, func.entry.lbl, ROUNDS)
       else func.blocks == g && CodeOf(g) == Padded(b.code) && EdgesOf(g) == b.succs
  }

  method TranslateFunction(f: S.Function, sc: S.Scope, prog: Program, optimize: bool)
    returns (func: FuncDef, ghost g: map<Label, Block>)
    requires S.WellTypedStms(f.stms, sc, f.ret)
    modifies prog
    ensures fresh(func) && fresh(g.Values) && func.entry.lbl == old(prog.labelCounter)
    ensures var b := FunctionBody(f, sc, old(prog.labelCounter), old(prog.registerCounter)).b;
      && prog.InStep(b) && Compiled(g, func, b, optimize)
      && (optimize ==> LeftByWalks(func.blocks.Keys, b.code, func.entry.lbl))
      && (optimize ==> forall l, j :: l in func.blocks && 0 <= j < |func.blocks[l].instrs| - 1 ==>
            !func.blocks[l].instrs[j].IsTerminator())
      && (!optimize ==> forall l :: l in func.blocks ==>
            l in b.code && func.blocks[l].instrs == if b.code[l] == [] then [Br(l)] else b.code[l])
  {
    hide FuncDef.Is, FunctionBody, S.WellTypedStms, Eliminated, Live, WellLinked, CodeOf, EdgesOf, Padded, Survivors;
    hide LeftByWalks, NoSelfTest, Truncate;
    ghost var b := FunctionBody(f, sc, prog.labelCounter, prog.registerCounter).b;
    func := CompileBody(f, sc, prog);
    if optimize {
      LiveBlocksExist(f, sc, old(prog.labelCounter), old(prog.registerCounter));
      FunctionHasNoSelfTest(f, sc, old(prog.labelCounter), old(prog.registerCounter));
      g := EliminateDeadCode(func, b);
      CutFunction(func, b);
    } else {
      g := func.blocks;
      EdgesShown(func, b);
      PadBlocks(func, b);
      SameEdges(g, b.succs);
      PaddedFunction(func, b);
    }
  }

  lemma CutFunction(func: FuncDef, b: Build)
    requires exists succs' :: Eliminated(b, func.entry.lbl, func.blocks.Keys, CodeOf(func.blocks), succs')
    ensures forall l, j :: l in func.blocks && 0 <= j < |func.blocks[l].instrs| - 1 ==>
      !func.blocks[l].instrs[j].IsTerminator()
  {
    hide Truncate, Live;
    var succs' :| Eliminated(b, func.entry.lbl, func.blocks.Keys, CodeOf(func.blocks), succs');
    forall l, j | l in func.blocks && 0 <= j < |func.blocks[l].instrs| - 1
      ensures !func.blocks[l].instrs[j].IsTerminator()
    {
      assert l in CodeOf(func.blocks) && CodeOf(func.blocks)[l] == func.blocks[l].instrs;
      CutAtFirst(b.code[l]);
    }
  }

  lemma PaddedFunction(func: FuncDef, b: Build)
    requires CodeOf(func.blocks) == Padded(b.code)
    ensures forall l :: l in func.blocks ==>
      l in b.code && func.blocks[l].instrs == if b.code[l] == [] then [Br(l)] else b.code[l]
  {
    forall l | l in func.blocks
      ensures l in b.code && func.blocks[l].instrs == if b.code[l] == [] then [Br(l)] else b.code[l]
    {
      assert l in CodeOf(func.blocks) && CodeOf(func.blocks)[l] == func.blocks[l].instrs;
    }
  }

  /** The blocks left by TranslateFunction, optimised or not, behave as the source call does. */
  lemma CompiledRuns(g: map<Label, Block>, func: FuncDef, f: S.Function, sc: S.Scope, n: Label, r: nat, optimize: bool,
                     w: World, args: map<string, int>, globals: Globals, log: seq<Event>, fuel: nat)
    returns (k: nat, im: IrMem)
    requires Compiled(g, func, FunctionBody(f, sc, n, r).b, optimize) && func.entry.lbl == n
    requires GoodCall(f, sc, w, args, globals)
    ensures var p := FunctionBody(f, sc, n, r);
      CallArrives(S.RunFunction(f, args, globals, log, sc, w, fuel), CodeOf(func.blocks), w,
                  Running(n, 0, Entry0(args, globals, log)), k, im, p.cur, |p.b.Code(p.cur)|, fuel)
  {
    hide FunctionBody, GoodCall, Eliminated, Survivors, CallArrives, WellLinked, S.RunFunction;
    var b := FunctionBody(f, sc, n, r).b;
    if optimize {
      k, im := OptimisedFunctionRuns(f, sc, n, r, func.blocks.Keys, CodeOf(func.blocks), EdgesOf(g), w, args, globals,
                                     log, fuel);
    } else {
      PaddedEmbeds(b);
      k, im := FunctionRuns(f, sc, n, r, CodeOf(func.blocks), w, args, globals, log, fuel);
    }
  }

  lemma LiveBlocksExist(f: S.Function, sc: S.Scope, n: Label, r: nat)
    ensures var b := FunctionBody(f, sc, n, r).b; forall l :: Live(b.code, n, l) ==> l in b.code
  {
    hide Shaped, Live, FunctionBody;
    var b := FunctionBody(f, sc, n, r).b;
    var dom := FunctionShaped(f, sc, n, r);
    forall l | Live(b.code, n, l) ensures l in b.code { LiveIsBlock(b, dom, n, l); }
  }

  lemma EdgesShown(func: FuncDef, b: Build)
    requires func.Is(b)
    ensures b.succs.Keys == func.blocks.Keys && forall l <- func.blocks :: b.succs[l] == Labels(func.blocks[l].succs)
  {
    AllShown(func.blocks, b);
  }

  lemma SameEdges(g: map<Label, Block>, succs: map<Label, seq<Label>>)
    requires succs.Keys == g.Keys && forall l <- g :: succs[l] == Labels(g[l].succs)
    ensures EdgesOf(g) == succs
  {
    hide Labels;
  }

  /** The blocks a compiled function is printed with: without optimisation all of its blocks, each once, and with them
      every branch target; with it at least every block that can run, cut after its first terminator. */
  method PrintOrder(func: FuncDef, ghost g: map<Label, Block>, ghost f: S.Function, ghost sc: S.Scope, ghost n: Label,
                    ghost r: nat, ghost optimize: bool)
    returns (out: seq<Block>)
    requires Compiled(g, func, FunctionBody(f, sc, n, r).b, optimize) && func.entry.lbl == n
    ensures OwnsAll(g, out) && NoDup(Labels(out))
    ensures var b := FunctionBody(f, sc, n, r).b;
      if optimize then
        forall l :: Live(b.code, n, l) ==>
          l in Labels(out) && l in func.blocks && func.blocks[l].instrs == Truncate(b.Code(l))
      else
        && (forall l :: l in Labels(out) <==> l in func.blocks)
        && (forall block <- out, v :: v in AllTargets(block.instrs) ==> v in Labels(out))
  {
    hide FunctionBody, Eliminated, Survivors, Live, Reachable, Labels, Sound, Truncate, AllTargets, NoDup,
        CompletelyEmitted;
    assert Closed(g) by { LinkedClosed(g); }
    out := InOrderBlocks(func.entry, g);
    ghost var b := FunctionBody(f, sc, n, r).b;
    if optimize {
      forall l | Live(b.code, n, l) ensures l in Labels(out) && l in func.blocks
          && func.blocks[l].instrs == Truncate(b.Code(l)) {
        LiveBlocksAreEmitted(f, sc, n, r, func.blocks.Keys, CodeOf(func.blocks), EdgesOf(g), l);
        EliminatedCode(b, n, func.blocks.Keys, CodeOf(func.blocks), EdgesOf(g), l);
      }
    } else {
      EmissionIsComplete(f, sc, n, r);
      AllPrinted(g, b, n, Labels(out));
      forall block <- out, v | v in AllTargets(block.instrs) ensures v in Labels(out) {
        assert Owns(g, block);
        PrintedTarget(g, b, n, block.lbl, v);
      }
    }
  }

  lemma LinkedClosed(g: map<Label, Block>)
    requires WellLinked(g)
    ensures Closed(g)
  {
  }

  lemma EliminatedCode(b: Build, root: Label, registered: set<Label>, code': Code, succs': Edges, l: Label)
    requires Eliminated(b, root, registered, code', succs') && l in code'
    ensures code'[l] == Truncate(b.Code(l))
  {
  }

  lemma AllPrinted(g: map<Label, Block>, b: Build, root: Label, order: seq<Label>)
    requires CompletelyEmitted(b, root) && InOrder(b.succs, root, order) && CodeOf(g) == Padded(b.code)
    ensures forall l :: l in order <==> l in g
  {
    hide Reachable;
    assert g.Keys == CodeOf(g).Keys == b.code.Keys;
  }

  lemma PrintedTarget(g: map<Label, Block>, b: Build, root: Label, u: Label, v: Label)
    requires CompletelyEmitted(b, root) && CodeOf(g) == Padded(b.code) && u in g && v in AllTargets(g[u].instrs)
    ensures v in g
  {
    hide Reachable, AllTargets;
    assert u in CodeOf(g) && CodeOf(g)[u] == g[u].instrs;
    assert g.Keys == CodeOf(g).Keys == b.code.Keys;
  }
}
