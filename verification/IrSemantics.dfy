/** How the IR runs: one instruction at a time through a graph of labelled blocks. */
module IrSemantics {
  import opened Words
  import opened Events
  import opened Ir

  type Code = map<Label, seq<Instr>>

  datatype IrMem = IrMem(vars: map<Entry, int>, globals: Globals, log: seq<Event>) {
    function Get(e: Entry): Option<int> {
      if e.Global? then (if e.name in globals then Some(globals[e.name]) else None)
      else if e in vars then Some(vars[e]) else None
    }

    function Set(e: Entry, v: int): IrMem {
      if e.Global? then this.(globals := globals[e.name := v]) else this.(vars := vars[e := v])
    }

    function Val(op: Operand): Option<int> {
      match op
      case Reg(e, _) => Get(e)
      case Imm(v, _) => Some(v)
    }

    function Vals(ops: seq<Operand>): Option<seq<int>> {
      if ops == [] then Some([])
      else
        match (Val(ops[0]), Vals(ops[1..]))
        case (Some(v), Some(vs)) => Some([v] + vs)
        case _ => None
    }
  }

  function DoCall(f: string, vs: seq<int>, m: IrMem, w: World): (int, IrMem) {
    var (v, globals) := w.call(f, vs, m.log, m.globals);
    (v, m.(globals := globals, log := m.log + [Called(f, vs)]))
  }

  function SetOpt(m: IrMem, e: Entry, v: Option<int>): Option<IrMem> {
    match v
    case None => None
    case Some(x) => Some(m.Set(e, x))
  }

  /** The effect of an instruction that falls through; reading an unset variable has none. */
  function Exec(i: Instr, m: IrMem, w: World): Option<IrMem>
    requires !i.IsTerminator()
  {
    match i
    case BinOp(d, op, a, b) =>
      (match (m.Val(a), m.Val(b))
       case (Some(x), Some(y)) => SetOpt(m, d, BinOpValue(op, x, y))
       case _ => None)
    case ICmp(d, cc, a, b) =>
      (match (m.Val(a), m.Val(b))
       case (Some(x), Some(y)) => Some(m.Set(d, Bit(cc.Holds(x, y))))
       case _ => None)
    case Select(d, c, a, b) =>
      (match m.Val(c)
       case Some(x) => SetOpt(m, d, m.Val(if x == 1 then a else b))
       case None => None)
    case Trunc(d, v) =>
      (match m.Val(v)
       case Some(x) => Some(m.Set(d, x % 2))
       case None => None)
    case Load(d, s) => SetOpt(m, d, m.Get(s))
    case Store(v, d) => SetOpt(m, d, m.Val(v))
    case Alloca(_) => Some(m)
    case Printf(text, flags) =>
      (match m.Vals(flags)
       case Some(vs) => Some(m.(log := m.log + [Printed(text, vs)]))
       case None => None)
    case Scanf(p) =>
      var v := w.input(m.log);
      Some(m.(log := m.log + [Scanned(v)]).Set(p, v))
    case Call(f, args) =>
      (match m.Vals(args)
       case Some(vs) => Some(DoCall(f, vs, m, w).1)
       case None => None)
    case CallAssign(d, f, args) =>
      (match m.Vals(args)
       case Some(vs) => var (v, m1) := DoCall(f, vs, m, w); Some(m1.Set(d, v))
       case None => None)
  }

  predicate Straight(ins: seq<Instr>) {
    forall i <- ins :: !i.IsTerminator()
  }

  function ExecAll(ins: seq<Instr>, m: IrMem, w: World): Option<IrMem>
    requires Straight(ins)
  {
    if ins == [] then Some(m)
    else
      match Exec(ins[0], m, w)
      case None => None
      case Some(m1) => ExecAll(ins[1..], m1, w)
  }

  lemma {:induction false} ExecAllAppend(ins: seq<Instr>, more: seq<Instr>, m: IrMem, w: World)
    requires Straight(ins) && Straight(more)
    ensures Straight(ins + more)
    ensures ExecAll(ins + more, m, w) ==
            match ExecAll(ins, m, w) case None => None case Some(m1) => ExecAll(more, m1, w)
  {
    if ins == [] {
      assert ins + more == more;
    } else {
      assert (ins + more)[1..] == ins[1..] + more;
      match Exec(ins[0], m, w)
      case None =>
      case Some(m1) => ExecAllAppend(ins[1..], more, m1, w);
    }
  }

  // ----- Runs -----

  /** Running at an instruction of a block, finished with a return value, or gone wrong. */
  datatype Status = Running(at: Label, index: nat, mem: IrMem) | Finished(mem: IrMem, value: int) | Faulted

  function Step(g: Code, s: Status, w: World): Status {
    if !s.Running? then s
    else if s.at !in g || s.index >= |g[s.at]| then Faulted
    else
      match g[s.at][s.index]
      case Br(l) => Running(l, 0, s.mem)
      case BrCond(c, t, f, _) =>
        (match s.mem.Val(c)
         case None => Faulted
         case Some(v) => Running(if v == 1 then t else f, 0, s.mem))
      case Ret(v) =>
        (match s.mem.Val(v)
         case None => Faulted
         case Some(x) => Finished(s.mem, x))
      case i =>
        match Exec(i, s.mem, w)
        case None => Faulted
        case Some(m) => Running(s.at, s.index + 1, m)
  }

  function Run(g: Code, s: Status, w: World, n: nat): Status
    decreases n
  {
    if n == 0 then s else Run(g, Step(g, s, w), w, n - 1)
  }

  lemma {:induction false} RunAdd(g: Code, s: Status, w: World, n: nat, k: nat)
    ensures Run(g, s, w, n + k) == Run(g, Run(g, s, w, n), w, k)
    decreases n
  {
    if n > 0 {
      RunAdd(g, Step(g, s, w), w, n - 1, k);
    }
  }

  lemma {:induction false} StoppedStays(g: Code, s: Status, w: World, n: nat)
    requires !s.Running?
    ensures Run(g, s, w, n) == s
    decreases n
  {
    if n > 0 { StoppedStays(g, s, w, n - 1); }
  }

  /** Straight-line instructions inside a block run exactly as they execute. */
  lemma {:induction false} RunStraight(g: Code, l: Label, k: nat, ins: seq<Instr>, m: IrMem, w: World)
    requires l in g && k + |ins| <= |g[l]| && g[l][k..k + |ins|] == ins && Straight(ins)
    ensures Run(g, Running(l, k, m), w, |ins|) ==
            match ExecAll(ins, m, w) case None => Faulted case Some(m1) => Running(l, k + |ins|, m1)
    decreases ins
  {
    if ins != [] {
      assert g[l][k] == ins[0];
      match Exec(ins[0], m, w) {
        case None => StoppedStays(g, Faulted, w, |ins| - 1);
        case Some(m1) =>
          assert g[l][k + 1..k + 1 + |ins[1..]|] == ins[1..];
          RunStraight(g, l, k + 1, ins[1..], m1, w);
      }
    }
  }
}
