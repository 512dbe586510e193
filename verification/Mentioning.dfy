/** The entries an instruction lists are all that its effect depends on and all that it changes. */
module Mentioning {
  import opened Words
  import opened Events
  import opened Ir
  import opened IrSemantics
  import opened Temps
  import opened LinearScan
  import opened LiveRanges

  /** Same globals and events, and the same values of some entries. */
  ghost predicate AgreeOn(vs: seq<Entry>, m: IrMem, m': IrMem) {
    m.globals == m'.globals && m.log == m'.log && forall v <- vs :: m.Get(v) == m'.Get(v)
  }

  /** Entries other than these have the values they had. */
  ghost predicate ChangesOnly(vs: seq<Entry>, m: IrMem, n: IrMem) {
    forall e: Entry :: !e.Global? && e !in vs ==> n.Get(e) == m.Get(e)
  }

  /** Two steps that cannot be told apart, from memories that agree on what the instruction lists: both fault, return
      the same value, branch to the same block, or go on with the same values in what it lists; the rest is kept. */
  ghost predicate SameStep(vs: seq<Entry>, m: IrMem, m': IrMem, s: Status, s': Status) {
    match (s, s')
    case (Faulted, Faulted) => true
    case (Finished(n, v), Finished(n', v')) => v == v' && n == m && n' == m'
    case (Running(l, k, n), Running(l', k', n')) =>
      l == l' && k == k' && AgreeOn(vs, n, n') && ChangesOnly(vs, m, n) && ChangesOnly(vs, m', n')
    case _ => false
  }

  lemma OperandAgrees(op: Operand, vs: seq<Entry>, m: IrMem, m': IrMem)
    requires AgreeOn(vs, m, m') && forall v <- op.Vars() :: v in vs
    ensures m.Val(op) == m'.Val(op)
  {
    if op.Reg? && !op.entry.Global? { assert op.entry in op.Vars(); }
  }

  lemma EntryAgrees(e: Entry, vs: seq<Entry>, m: IrMem, m': IrMem)
    requires AgreeOn(vs, m, m') && (!e.Global? ==> e in vs)
    ensures m.Get(e) == m'.Get(e)
  {
  }

  lemma {:induction false} OperandsAgree(ops: seq<Operand>, vs: seq<Entry>, m: IrMem, m': IrMem)
    requires AgreeOn(vs, m, m') && forall v <- AllVars(ops) :: v in vs
    ensures m.Vals(ops) == m'.Vals(ops)
  {
    if ops != [] {
      OperandAgrees(ops[0], vs, m, m');
      OperandsAgree(ops[1..], vs, m, m');
    }
  }

  /** Writing the same value keeps the agreement, and changes one entry. */
  lemma SetAgrees(e: Entry, x: int, vs: seq<Entry>, m: IrMem, m': IrMem)
    requires AgreeOn(vs, m, m') && (!e.Global? ==> e in vs)
    ensures AgreeOn(vs, m.Set(e, x), m'.Set(e, x))
    ensures ChangesOnly(vs, m, m.Set(e, x)) && ChangesOnly(vs, m', m'.Set(e, x))
  {
  }

  /** Same for the effect of an instruction that falls through. */
  ghost predicate SameEffect(vs: seq<Entry>, m: IrMem, m': IrMem, out: Option<IrMem>, out': Option<IrMem>) {
    (out.Some? <==> out'.Some?)
    && (out.Some? ==>
          AgreeOn(vs, out.value, out'.value) && ChangesOnly(vs, m, out.value) && ChangesOnly(vs, m', out'.value))
  }

  lemma SetOptAgrees(e: Entry, x: Option<int>, vs: seq<Entry>, m: IrMem, m': IrMem)
    requires AgreeOn(vs, m, m') && (!e.Global? ==> e in vs)
    ensures SameEffect(vs, m, m', SetOpt(m, e, x), SetOpt(m', e, x))
  {
    if x.Some? { SetAgrees(e, x.value, vs, m, m'); }
  }

  lemma CallAgrees(f: string, xs: seq<int>, vs: seq<Entry>, m: IrMem, m': IrMem, w: World)
    requires AgreeOn(vs, m, m')
    ensures var (x, n) := DoCall(f, xs, m, w); var (x', n') := DoCall(f, xs, m', w);
      x == x' && AgreeOn(vs, n, n') && ChangesOnly(vs, m, n) && ChangesOnly(vs, m', n')
  {
    var (x, n) := DoCall(f, xs, m, w);
    var (x', n') := DoCall(f, xs, m', w);
    forall v <- vs ensures n.Get(v) == n'.Get(v) { assert m.Get(v) == m'.Get(v); }
  }

  lemma ExecDependsOnMentioned(i: Instr, m: IrMem, m': IrMem, w: World)
    requires !i.IsTerminator() && AgreeOn(i.Vars(), m, m')
    ensures SameEffect(i.Vars(), m, m', Exec(i, m, w), Exec(i, m', w))
  {
    hide AgreeOn, ChangesOnly, IrMem.Get, IrMem.Set, IrMem.Val, BinOpValue, SetOpt, DoCall;
    var vs := i.Vars();
    match i
    case BinOp(d, op, a, b) =>
      OperandAgrees(a, vs, m, m');
      OperandAgrees(b, vs, m, m');
      if m.Val(a).Some? && m.Val(b).Some? {
        SetOptAgrees(d, BinOpValue(op, m.Val(a).value, m.Val(b).value), vs, m, m');
      }
    case ICmp(d, cc, a, b) =>
      OperandAgrees(a, vs, m, m');
      OperandAgrees(b, vs, m, m');
      if m.Val(a).Some? && m.Val(b).Some? { SetAgrees(d, Bit(cc.Holds(m.Val(a).value, m.Val(b).value)), vs, m, m'); }
    case Select(d, c, a, b) =>
      OperandAgrees(c, vs, m, m');
      OperandAgrees(a, vs, m, m');
      OperandAgrees(b, vs, m, m');
      if m.Val(c).Some? { SetOptAgrees(d, m.Val(if m.Val(c).value == 1 then a else b), vs, m, m'); }
    case Trunc(d, v) =>
      OperandAgrees(v, vs, m, m');
      if m.Val(v).Some? { SetAgrees(d, m.Val(v).value % 2, vs, m, m'); }
    case Load(d, s) =>
      EntryAgrees(s, vs, m, m');
      SetOptAgrees(d, m.Get(s), vs, m, m');
    case Store(v, d) =>
      OperandAgrees(v, vs, m, m');
      SetOptAgrees(d, m.Val(v), vs, m, m');
    case Alloca(_) => Unchanged(vs, m, m');
    case Printf(text, flags) =>
      OperandsAgree(flags, vs, m, m');
      if m.Vals(flags).Some? { LogAgrees(Printed(text, m.Vals(flags).value), vs, m, m'); }
    case Scanf(p) =>
      SameLog(vs, m, m');
      var v := w.input(m.log);
      LogAgrees(Scanned(v), vs, m, m');
      ScanAgrees(p, v, vs, m, m');
    case Call(f, args) =>
      OperandsAgree(args, vs, m, m');
      if m.Vals(args).Some? { CallAgrees(f, m.Vals(args).value, vs, m, m', w); }
    case CallAssign(d, f, args) =>
      OperandsAgree(args, vs, m, m');
      if m.Vals(args).Some? { CallAssignAgrees(d, f, m.Vals(args).value, vs, m, m', w); }
  }

  lemma Unchanged(vs: seq<Entry>, m: IrMem, m': IrMem)
    ensures ChangesOnly(vs, m, m) && ChangesOnly(vs, m', m')
  {
  }

  lemma SameLog(vs: seq<Entry>, m: IrMem, m': IrMem)
    requires AgreeOn(vs, m, m')
    ensures m.log == m'.log
  {
  }

  lemma LogAgrees(event: Event, vs: seq<Entry>, m: IrMem, m': IrMem)
    requires AgreeOn(vs, m, m')
    ensures var n, n' := m.(log := m.log + [event]), m'.(log := m'.log + [event]);
      AgreeOn(vs, n, n') && ChangesOnly(vs, m, n) && ChangesOnly(vs, m', n')
  {
    var n, n' := m.(log := m.log + [event]), m'.(log := m'.log + [event]);
    forall v <- vs ensures n.Get(v) == n'.Get(v) { assert m.Get(v) == m'.Get(v); }
  }

  lemma ScanAgrees(p: Entry, v: int, vs: seq<Entry>, m: IrMem, m': IrMem)
    requires AgreeOn(vs, m, m') && (!p.Global? ==> p in vs)
    ensures var n, n' := m.(log := m.log + [Scanned(v)]).Set(p, v), m'.(log := m'.log + [Scanned(v)]).Set(p, v);
      AgreeOn(vs, n, n') && ChangesOnly(vs, m, n) && ChangesOnly(vs, m', n')
  {
    hide AgreeOn;
    var n, n' := m.(log := m.log + [Scanned(v)]), m'.(log := m'.log + [Scanned(v)]);
    LogAgrees(Scanned(v), vs, m, m');
    SetAgrees(p, v, vs, n, n');
  }

  lemma CallAssignAgrees(d: Entry, f: string, xs: seq<int>, vs: seq<Entry>, m: IrMem, m': IrMem, w: World)
    requires AgreeOn(vs, m, m') && (!d.Global? ==> d in vs)
    ensures var (x, n) := DoCall(f, xs, m, w); var (x', n') := DoCall(f, xs, m', w);
      var o, o' := n.Set(d, x), n'.Set(d, x');
      AgreeOn(vs, o, o') && ChangesOnly(vs, m, o) && ChangesOnly(vs, m', o')
  {
    hide AgreeOn, DoCall;
    CallAgrees(f, xs, vs, m, m', w);
    var (x, n) := DoCall(f, xs, m, w);
    var (x', n') := DoCall(f, xs, m', w);
    SetAgrees(d, x, vs, n, n');
  }

  /** Of any instruction in a block: its step depends, besides globals and events, only on the entries it lists, and
      changes no others. */
  lemma StepDependsOnMentioned(g: Code, l: Label, k: nat, m: IrMem, m': IrMem, w: World)
    requires l in g && k < |g[l]| && AgreeOn(g[l][k].Vars(), m, m')
    ensures SameStep(g[l][k].Vars(), m, m', IrSemantics.Step(g, Running(l, k, m), w),
                     IrSemantics.Step(g, Running(l, k, m'), w))
  {
    hide AgreeOn, ChangesOnly, IrMem.Get, IrMem.Set, IrMem.Val, Exec;
    var i := g[l][k];
    match i
    case Br(_) => Unchanged([], m, m');
    case BrCond(c, _, _, _) =>
      OperandAgrees(c, i.Vars(), m, m');
      Unchanged(i.Vars(), m, m');
    case Ret(v) => OperandAgrees(v, i.Vars(), m, m');
    case _ => ExecDependsOnMentioned(i, m, m', w);
  }

  lemma {:induction false} OperandTempsMentioned(ops: seq<Operand>, t: nat)
    requires t in AllOperandTemps(ops)
    ensures Temp(t) in AllVars(ops)
  {
    if t in OperandTemps(ops[0]) {
      assert Temp(t) in ops[0].Vars();
    } else {
      OperandTempsMentioned(ops[1..], t);
    }
  }

  lemma {:induction false} OnlyOperandTemps(ops: seq<Operand>, t: nat)
    requires Temp(t) in AllVars(ops)
    ensures t in AllOperandTemps(ops)
  {
    if Temp(t) !in ops[0].Vars() { OnlyOperandTemps(ops[1..], t); }
  }

  /** The temporaries an instruction lists are exactly those it uses or defines, an alloca apart, which lists
      nothing. */
  lemma TempsMentioned(i: Instr, t: nat)
    requires !i.Alloca?
    ensures t in UsedTemps(i) + DestTemps(i) <==> Temp(t) in i.Vars()
  {
    hide AllVars, AllOperandTemps;
    match i
    case Printf(_, fs) => OperandsMentioned(fs, t);
    case Call(_, args) => OperandsMentioned(args, t);
    case CallAssign(_, _, args) => OperandsMentioned(args, t);
    case _ =>
  }

  lemma OperandsMentioned(ops: seq<Operand>, t: nat)
    ensures t in AllOperandTemps(ops) <==> Temp(t) in AllVars(ops)
  {
    if t in AllOperandTemps(ops) { OperandTempsMentioned(ops, t); }
    if Temp(t) in AllVars(ops) { OnlyOperandTemps(ops, t); }
  }

  /** So a temporary defined at one point and used at a later one, as an argument of a call for instance, is live from
      the first or before up to just before the second or later. */
  lemma TempsStayLive(ins: seq<Instr>, rg: Ranges, t: nat, a: nat, b: nat)
    requires Exact(Mentions(ins), rg) && a < b < |ins| && t in DestTemps(ins[a]) && t in UsedTemps(ins[b])
    requires !ins[b].Alloca?
    ensures Temp(t) in rg.start && rg.start[Temp(t)] <= a && b - 1 <= rg.end[Temp(t)]
  {
    hide Exact, Instr.Vars, UsedTemps, DestTemps;
    DefinedIsNoAlloca(ins[a], t);
    TempsMentioned(ins[a], t);
    TempsMentioned(ins[b], t);
    RangeSpans(Mentions(ins), rg, Temp(t), a, b);
  }

  lemma DefinedIsNoAlloca(i: Instr, t: nat)
    requires t in DestTemps(i)
    ensures !i.Alloca?
  {
  }
}
