/** Semantic preservation for whole functions, in both directions. */
module FunctionPreservation {
  import opened Words
  import opened Events
  import opened Ir
  import opened IrSemantics
  import opened Translation
  import opened Growth
  import opened ExprPreservation
  import opened Preservation
  import S = Source

  predicate DistinctNames(ds: seq<(string, S.Type)>) {
    forall i, j :: 0 <= i < j < |ds| ==> ds[i].0 != ds[j].0
  }

  /** A checked function called with an argument for each parameter, bools being 0 or 1. */
  ghost predicate GoodCall(f: S.Function, sc: S.Scope, w: World, args: map<string, int>, globals: Globals) {
    && sc == ScopeOf(f, sc.globals, sc.funcs)
    && DistinctNames(f.params + f.declarations)
    && S.WellTypedStms(f.stms, sc, f.ret)
    && TypedWorld(w, sc) && TypedGlobals(globals, sc)
    && (forall x :: x in args <==> x in sc.params)
    && (forall x <- args :: x in sc.locals && sc.locals[x] == S.BoolType ==> IsBit(args[x]))
  }

  /** What the caller hands over: the raw parameters, and nothing else of this function. */
  function Entry0(args: map<string, int>, globals: Globals, log: seq<Event>): IrMem {
    IrMem(map x | x in args :: RawParam(x) := args[x], globals, log)
  }

  lemma {:induction false} NamesMember(ds: seq<(string, S.Type)>, x: string)
    ensures x in Names(ds) <==> x in TypesOf(ds)
    ensures x in Names(ds) <==> exists i :: 0 <= i < |ds| && ds[i].0 == x
  {
    if ds != [] {
      NamesMember(ds[1..], x);
      if exists i :: 0 <= i < |ds| && ds[i].0 == x {
        var i :| 0 <= i < |ds| && ds[i].0 == x;
        if i > 0 { assert ds[1..][i - 1].0 == x; }
      }
      if x in Names(ds[1..]) {
        var i :| 0 <= i < |ds[1..]| && ds[1..][i].0 == x;
        assert ds[i + 1].0 == x;
      }
    }
  }

  lemma GoodCallScope(f: S.Function, sc: S.Scope, w: World, args: map<string, int>, globals: Globals)
    requires GoodCall(f, sc, w, args, globals)
    ensures GoodScope(sc)
    ensures forall x <- sc.locals :: x in sc.params || x in Names(f.declarations)
    ensures forall x :: x in Names(f.params) <==> x in args
  {
    forall x <- sc.params ensures x in sc.locals { NamesMember(f.params, x); }
    forall x <- sc.locals ensures x in sc.params || x in Names(f.declarations) {
      NamesMember(f.params, x);
      NamesMember(f.declarations, x);
    }
  }

  /** Two memories that differ at most in the slots of the given parameters. */
  ghost predicate SlotsOnly(ps: seq<(string, S.Type)>, im: IrMem, im': IrMem) {
    && im.globals == im'.globals && im.log == im'.log
    && forall e: Entry :: (e.ParamSlot? ==> e.name !in Names(ps)) ==>
         (e in im.vars <==> e in im'.vars) && (e in im.vars ==> im.vars[e] == im'.vars[e])
  }

  /** The prologue copies each raw parameter into its slot. */
  lemma {:induction false} ParamsRun(ps: seq<(string, S.Type)>, im: IrMem, w: World) returns (im': IrMem)
    requires forall x <- Names(ps) :: RawParam(x) in im.vars
    ensures Straight(ParamInstrs(ps)) && ExecAll(ParamInstrs(ps), im, w) == Some(im')
    ensures SlotsOnly(ps, im, im')
    ensures forall x <- Names(ps) :: ParamSlot(x) in im'.vars && im'.vars[ParamSlot(x)] == im.vars[RawParam(x)]
  {
    if ps == [] {
      im' := im;
    } else {
      var x := ps[0].0;
      assert x in Names(ps) && forall y <- Names(ps[1..]) :: y in Names(ps);
      var im1 := im.Set(ParamSlot(x), im.vars[RawParam(x)]);
      im' := ParamsRun(ps[1..], im1, w);
      ParamRuns(ps[0], im, w);
      ExecAllAppend(ParamInstrs([ps[0]]), ParamInstrs(ps[1..]), im, w);
      assert ParamInstrs(ps) == ParamInstrs([ps[0]]) + ParamInstrs(ps[1..]) by { ParamInstrsOne(ps[0]); }
    }
  }

  lemma ParamInstrsOne(p: (string, S.Type))
    ensures ParamInstrs([p]) == [Alloca(ParamSlot(p.0)), Store(Reg(RawParam(p.0), IrType(p.1)), ParamSlot(p.0))]
  {
    assert [p][1..] == [];
  }

  lemma ParamRuns(p: (string, S.Type), im: IrMem, w: World)
    requires RawParam(p.0) in im.vars
    ensures Straight(ParamInstrs([p]))
    ensures ExecAll(ParamInstrs([p]), im, w) == Some(im.Set(ParamSlot(p.0), im.vars[RawParam(p.0)]))
  {
    var alloca := Alloca(ParamSlot(p.0));
    var store := Store(Reg(RawParam(p.0), IrType(p.1)), ParamSlot(p.0));
    ParamInstrsOne(p);
    ExecOne(alloca, im, w);
    ExecOne(store, im, w);
    ExecAllAppend([alloca], [store], im, w);
    assert [alloca] + [store] == [alloca, store];
  }

  lemma {:induction false} DeclsRun(ds: seq<(string, S.Type)>, im: IrMem, w: World)
    ensures Straight(DeclInstrs(ds)) && ExecAll(DeclInstrs(ds), im, w) == Some(im)
  {
    if ds != [] {
      DeclsRun(ds[1..], im, w);
      ExecOne(Alloca(Local(ds[0].0)), im, w);
      ExecAllAppend([Alloca(Local(ds[0].0))], DeclInstrs(ds[1..]), im, w);
    }
  }

  lemma PrologueRuns(f: S.Function, sc: S.Scope, w: World, args: map<string, int>, globals: Globals, log: seq<Event>)
    returns (im: IrMem)
    requires GoodCall(f, sc, w, args, globals)
    ensures Straight(Prologue(f)) && ExecAll(Prologue(f), Entry0(args, globals, log), w) == Some(im)
    ensures Ready(S.Memory(args, globals, log), im, sc, w)
  {
    GoodCallScope(f, sc, w, args, globals);
    var im0 := Entry0(args, globals, log);
    im := ParamsRun(f.params, im0, w);
    DeclsRun(f.declarations, im, w);
    ExecOne(Alloca(RetVal), im0, w);
    ExecAllAppend([Alloca(RetVal)], ParamInstrs(f.params), im0, w);
    ExecAllAppend([Alloca(RetVal)] + ParamInstrs(f.params), DeclInstrs(f.declarations), im0, w);
    forall x <- sc.locals
      ensures (x in args <==> Resolve(x, sc) in im.vars) && (x in args ==> im.vars[Resolve(x, sc)] == args[x])
    {
      if x !in args { assert Resolve(x, sc) == Local(x) && Local(x) !in im0.vars; }
    }
  }

  /** Where a whole call of the function is after n steps, given what the source call does. */
  ghost predicate CallArrives(out: S.Outcome, g: Code, w: World, from: Status, n: nat, im: IrMem,
                              to: Label, index: nat, fuel: nat) {
    match out
    case Done(m) => Run(g, from, w, n) == Running(to, index, im)
    case Returned(m, v) => Run(g, from, w, n) == Finished(im, v) && m.globals == im.globals && m.log == im.log
    case Wrong => Run(g, from, w, n) == Faulted
    case OutOfFuel => n >= fuel && Run(g, from, w, n).Running?
  }

  lemma StartFunctionBlocks(f: S.Function, nextLabel: nat, nextReg: nat)
    ensures var b := StartFunction(f, nextLabel, nextReg);
      b.Valid() && nextLabel in b.code && b.Code(nextLabel) == Prologue(f) && b.nextLabel == nextLabel + 1
  {
  }

  /** The body of a function behaves, from its entry block, exactly as a call of the source function: it
      returns the same value with the same globals and events, goes wrong, or keeps running. */
  lemma {:induction false} FunctionRuns(f: S.Function, sc: S.Scope, nextLabel: nat, nextReg: nat, g: Code, w: World,
                                        args: map<string, int>, globals: Globals, log: seq<Event>, fuel: nat)
    returns (n: nat, im: IrMem)
    requires GoodCall(f, sc, w, args, globals)
    requires Embedded(FunctionBody(f, sc, nextLabel, nextReg).b, g)
    ensures var p := FunctionBody(f, sc, nextLabel, nextReg);
      CallArrives(S.RunFunction(f, args, globals, log, sc, w, fuel), g, w,
                  Running(nextLabel, 0, Entry0(args, globals, log)), n, im, p.cur, |p.b.Code(p.cur)|, fuel)
  {
    hide S.WellTypedStms, TypedWorld, TypedGlobals, StartFunction, EndFunction, Stms, S.ExecAll, Grows, Embedded, Exec,
        ExecAll,
         ScopeOf, Prologue, Entry0, Build.Valid, Build.Code, Run;
    var p := Stms(f.stms, nextLabel, StartFunction(f, nextLabel, nextReg), sc);
    StartFunctionBlocks(f, nextLabel, nextReg);
    StmsGrows(f.stms, nextLabel, StartFunction(f, nextLabel, nextReg), sc);
    GrowsKeys(nextLabel + 1, nextLabel, StartFunction(f, nextLabel, nextReg), p.b);
    EndPlaced(f, p, g);
    n, im := BodyRuns(f, sc, nextLabel, nextReg, g, w, args, globals, log, fuel);
    EndFunctionEnds(f, p);
    if f.ret.None? && S.ExecAll(f.stms, S.Memory(args, globals, log), sc, w, fuel).Done? {
      var a := im;
      im := ReturnRuns(g, p.cur, |p.b.Code(p.cur)|, Imm(0, I64), p.b.nextReg, 0, a, w);
      RunAdd(g, Running(nextLabel, 0, Entry0(args, globals, log)), w, n, 3);
      n := n + 3;
    }
  }

  lemma EndFunctionEnds(f: S.Function, p: Placed)
    ensures f.ret.Some? ==> EndFunction(f, p) == p
  {
  }

  /** The prologue, then the statements. */
  lemma {:induction false} BodyRuns(f: S.Function, sc: S.Scope, nextLabel: nat, nextReg: nat, g: Code, w: World,
                                    args: map<string, int>, globals: Globals, log: seq<Event>, fuel: nat)
    returns (n: nat, im: IrMem)
    requires GoodCall(f, sc, w, args, globals)
    requires Embedded(Stms(f.stms, nextLabel, StartFunction(f, nextLabel, nextReg), sc).b, g)
    ensures var p := Stms(f.stms, nextLabel, StartFunction(f, nextLabel, nextReg), sc);
      Arrives(S.ExecAll(f.stms, S.Memory(args, globals, log), sc, w, fuel), g, w,
              Running(nextLabel, 0, Entry0(args, globals, log)), n, im, p.cur, |p.b.Code(p.cur)|, sc, fuel)
  {
    hide S.WellTypedStms, TypedWorld, TypedGlobals, StartFunction, Stms, S.ExecAll, Grows, Embedded, Exec, ExecAll,
         ScopeOf, Prologue, Entry0, Build.Valid, Build.Code, Run, Arrives;
    var im0 := Entry0(args, globals, log);
    var b := StartFunction(f, nextLabel, nextReg);
    var p := Stms(f.stms, nextLabel, b, sc);
    StartFunctionBlocks(f, nextLabel, nextReg);
    StmsGrows(f.stms, nextLabel, b, sc);
    EmbeddedBefore(nextLabel + 1, nextLabel, b, p.b, g);
    var im1 := PrologueRuns(f, sc, w, args, globals, log);
    ProloguePlaced(b, g, nextLabel, Prologue(f), im0, w);
    var k;
    k, im := StmsRun(f.stms, nextLabel, b, sc, f.ret, g, S.Memory(args, globals, log), im1, w, fuel);
    ArrivesAfter(S.ExecAll(f.stms, S.Memory(args, globals, log), sc, w, fuel), g, w, Running(nextLabel, 0, im0),
                 |Prologue(f)|, Running(nextLabel, |Prologue(f)|, im1), k, im, p.cur, |p.b.Code(p.cur)|, sc, fuel,
                     fuel);
    n := |Prologue(f)| + k;
  }

  lemma ProloguePlaced(b: Build, g: Code, l: Label, ins: seq<Instr>, im: IrMem, w: World)
    requires l in b.code && b.Code(l) == ins && Embedded(b, g) && Straight(ins)
    ensures Run(g, Running(l, 0, im), w, |ins|) ==
            match ExecAll(ins, im, w) case None => Faulted case Some(m1) => Running(l, |ins|, m1)
  {
    assert [] + (ins + []) == ins;
    PlacedStraight(g, l, [], ins, [], im, w);
  }

  lemma EndPlaced(f: S.Function, p: Placed, g: Code)
    requires p.b.Valid() && p.cur in p.b.code && Embedded(EndFunction(f, p).b, g)
    ensures Embedded(p.b, g)
    ensures f.ret.None? ==>
              var k := |p.b.Code(p.cur)|;
              p.cur in g && k + 3 <= |g[p.cur]| && g[p.cur][k..k + 3] == ReturnOf(Imm(0, I64), p.b.nextReg)
  {
    if f.ret.None? {
      var ret := ReturnOf(Imm(0, I64), p.b.nextReg);
      AppendGrows(0, p.cur, p.b, p.cur, ret);
      assert Embedded(p.b.Append(p.cur, ret), g);
      EmbeddedBefore(0, p.cur, p.b, p.b.Append(p.cur, ret), g);
      assert p.cur in p.b.Append(p.cur, ret).code;
      Slice(p.b.code[p.cur], ret, g[p.cur]);
    }
  }

  // ----- The other direction -----

  /** The code as emitted without optimisation: a block left empty branches to itself. */
  function Padded(code: Code): Code {
    map l | l in code :: if code[l] == [] then [Br(l)] else code[l]
  }

  lemma PaddedEmbeds(b: Build)
    ensures Embedded(b, Padded(b.code))
  {
  }

  lemma {:induction false} FinishedOnce(g: Code, s: Status, w: World, n: nat, k: nat)
    requires n <= k && !Run(g, s, w, n).Running?
    ensures Run(g, s, w, k) == Run(g, s, w, n)
  {
    RunAdd(g, s, w, n, k - n);
    StoppedStays(g, Run(g, s, w, n), w, k - n);
  }

  /** From the end of the last block a run never finishes: it has fallen off the block, or spins in it. */
  lemma {:induction false} EndNeverFinishes(code: Code, l: Label, im: IrMem, w: World, k: nat)
    requires l in code
    ensures !Run(Padded(code), Running(l, |code[l]|, im), w, k).Finished?
  {
    var g := Padded(code);
    if k > 0 {
      if code[l] == [] {
        assert g[l] == [Br(l)];
        assert Step(g, Running(l, 0, im), w) == Running(l, 0, im);
        EndNeverFinishes(code, l, im, w, k - 1);
      } else {
        assert g[l] == code[l];
        StoppedStays(g, Faulted, w, k - 1);
      }
    }
  }

  /** If the generated function finishes with a value, the source call returns that value, with the same
      globals and events. */
  lemma {:induction false} FunctionRunsBack(f: S.Function, sc: S.Scope, nextLabel: nat, nextReg: nat, w: World,
                                            args: map<string, int>, globals: Globals, log: seq<Event>, k: nat,
                                            im: IrMem, v: int)
    returns (fuel: nat, m: S.Memory)
    requires GoodCall(f, sc, w, args, globals)
    requires Run(Padded(FunctionBody(f, sc, nextLabel, nextReg).b.code),
                 Running(nextLabel, 0, Entry0(args, globals, log)), w, k) == Finished(im, v)
    ensures S.RunFunction(f, args, globals, log, sc, w, fuel) == S.Returned(m, v)
    ensures m.globals == im.globals && m.log == im.log
  {
    hide FunctionBody, GoodCall, S.RunFunction, Embedded, Run, Padded;
    var p := FunctionBody(f, sc, nextLabel, nextReg);
    var g := Padded(p.b.code);
    var from := Running(nextLabel, 0, Entry0(args, globals, log));
    PaddedEmbeds(p.b);
    fuel := k + 1;
    var n, im' := FunctionRuns(f, sc, nextLabel, nextReg, g, w, args, globals, log, fuel);
    var out := S.RunFunction(f, args, globals, log, sc, w, fuel);
    if n <= k && !Run(g, from, w, n).Running? { FinishedOnce(g, from, w, n, k); }
    if k <= n { FinishedOnce(g, from, w, k, n); }
    if out.Done? {
      BodyHasCur(f, sc, nextLabel, nextReg);
      RunAdd(g, from, w, n, k - n);
      EndNeverFinishes(p.b.code, p.cur, im', w, k - n);
    }
    m := if out.Returned? then out.mem else S.Memory(args, globals, log);
  }

  lemma BodyHasCur(f: S.Function, sc: S.Scope, nextLabel: nat, nextReg: nat)
    ensures var p := FunctionBody(f, sc, nextLabel, nextReg); p.b.Valid() && p.cur in p.b.code && nextLabel in p.b.code
  {
    hide Stms, StartFunction, Grows;
    var b := StartFunction(f, nextLabel, nextReg);
    StartFunctionBlocks(f, nextLabel, nextReg);
    StmsGrows(f.stms, nextLabel, b, sc);
    var p := Stms(f.stms, nextLabel, b, sc);
    GrowsKeys(b.nextLabel, nextLabel, b, p.b);
    if f.ret.None? {
      AppendGrows(0, p.cur, p.b, p.cur, ReturnOf(Imm(0, I64), p.b.nextReg));
      GrowsKeys(0, p.cur, p.b, p.b.Append(p.cur, ReturnOf(Imm(0, I64), p.b.nextReg)));
    }
  }
}
