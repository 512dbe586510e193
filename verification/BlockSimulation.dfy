/** Allocation and lowering together simulate the IR over a straight-line block, although an interval ends one before
    the last use and a result may take over the register of an operand. */
module BlockSimulation {
  import opened Words
  import opened Events
  import opened Ir
  import opened IrSemantics
  import opened Cfg
  import opened BlockGraph
  import opened LinearScan
  import opened LinearScanSafety
  import opened SpillOptimality
  import opened Allocator
  import opened LiveRanges
  import opened Arm
  import opened Lowering
  import opened LoweringCorrect

  /** The homes the allocator's two tables stand for. */
  function HomesOf(registers: map<Entry, int>, locations: map<Entry, int>): Homes {
    map v | v in registers.Keys + locations.Keys && (v in locations || InPool(registers[v])) ::
      if v in locations then Addr(SP, locations[v]) else R(registers[v])
  }

  lemma HomesOfFit(registers: map<Entry, int>, locations: map<Entry, int>)
    ensures HomesFit(HomesOf(registers, locations))
  {
  }

  /** Every variable that is read has been written by an earlier instruction of the block. */
  ghost predicate WrittenBeforeRead(ins: seq<Instr>) {
    forall k, e :: 0 <= k < |ins| && e in Reads(ins[k]) && !e.Global? ==>
        exists j :: 0 <= j < k && Dest(ins[j]) == Some(e)
  }

  ghost predicate AllCovered(ins: seq<Instr>) {
    forall i <- ins :: Covered(i)
  }

  /** Instructions that end a block, or whose lowering is modelled and does what they say. */
  ghost predicate AllDelivered(ins: seq<Instr>, homes: Homes, shift: int) {
    forall i <- ins :: Housed(i, homes) && (i.IsTerminator() || Delivered(i, homes, shift))
  }

  function LowerAll(ins: seq<Instr>, homes: Homes, shift: int): seq<ArmInstr>
    requires forall i <- ins :: Lowerable(i, homes)
  {
    if ins == [] then [] else LowerAll(ins[..|ins| - 1], homes, shift) + Lower(ins[|ins| - 1], homes, shift)
  }

  /** Truncations along the run only see truth values. */
  ghost predicate TruncsSeeTruth(ins: seq<Instr>, m: IrMem, w: World)
    requires Straight(ins)
  {
    forall k :: 0 <= k < |ins| ==>
      Straight(ins[..k]) && (ExecAll(ins[..k], m, w).Some? ==> TruncsTruth(ins[k], ExecAll(ins[..k], m, w).value))
  }

  /** Globals have cells of their own, apart from each other and from the stack slots. */
  ghost predicate Layout(locations: map<Entry, int>, sp: int, symbol: string -> int, names: set<string>) {
    && (forall g <- names, h <- names :: g != h ==> symbol(g) != symbol(h))
    && (forall v <- locations, g <- names :: symbol(g) != sp + locations[v])
  }

  /** The globals some instruction names. */
  ghost predicate NamesWithin(ins: seq<Instr>, names: set<string>) {
    forall i <- ins :: GlobalNames(i) <= names
  }

  ghost predicate GlobalsAgree(m: IrMem, s: ArmState, symbol: string -> int, names: set<string>) {
    m.globals.Keys <= names && forall g <- m.globals :: s.Cell(symbol(g)) == m.globals[g]
  }

  ghost predicate MentionedBefore(ms: seq<seq<Entry>>, v: Entry, k: int) {
    exists i :: 0 <= i < k && i < |ms| && v in ms[i]
  }

  ghost predicate MentionedFrom(ms: seq<seq<Entry>>, v: Entry, k: int) {
    exists i :: 0 <= k <= i < |ms| && v in ms[i]
  }

  /** After k instructions: every variable already written and mentioned again, and every spilled variable already
      written, is where it lives; so is every global. */
  ghost predicate Simulates(ms: seq<seq<Entry>>, k: nat, homes: Homes, m: IrMem, s: ArmState, sp: int,
                            symbol: string -> int, names: set<string>) {
    && s.regs[SP] == sp && GlobalsAgree(m, s, symbol, names)
    && forall v: Entry :: !v.Global? && MentionedBefore(ms, v, k) ==>
         v in m.vars && (MentionedFrom(ms, v, k) || !InRegister(homes, v) ==>
                         Holds(s, Where(v, homes, sp, symbol), m.vars[v]))
  }

  /** The destination and what is read are mentioned. */
  lemma MentionsAll(i: Instr)
    requires Covered(i)
    ensures Dest(i).Some? && !Dest(i).value.Global? ==> Dest(i).value in i.Vars()
    ensures forall e <- Reads(i) :: !e.Global? ==> e in i.Vars()
    ensures forall e <- i.Vars() :: Dest(i) == Some(e) || e in Reads(i)
  {
  }

  /** Two variables in registers, one still needed after instruction k, the other its destination: their ranges meet. */
  lemma DestOverlapsNeeded(ms: seq<seq<Entry>>, rg: Ranges, k: nat, v: Entry, d: Entry)
    requires Exact(ms, rg) && k < |ms| && v != d && d in ms[k]
    requires MentionedBefore(ms, v, k) && MentionedFrom(ms, v, k + 1)
    requires MentionedBefore(ms, d, k) || multiset(ms[k])[d] == 1
    ensures v in rg.start && d in rg.start && rg.Overlap(v, d)
  {
    var a :| 0 <= a < k && a < |ms| && v in ms[a];
    var b :| 0 <= k + 1 <= b < |ms| && v in ms[b];
    RangeSpans(ms, rg, v, a, b);
    DestRange(ms, rg, k, d);
  }

  lemma DestRange(ms: seq<seq<Entry>>, rg: Ranges, k: nat, d: Entry)
    requires Exact(ms, rg) && k < |ms| && d in ms[k]
    requires MentionedBefore(ms, d, k) || multiset(ms[k])[d] == 1
    ensures d in rg.start && rg.start[d] <= k && k - 1 <= rg.end[d] && (rg.start[d] == k ==> rg.end[d] >= k)
  {
    assert ExactRange(ms, d, rg.start[d], rg.end[d]);
    var l :| FirstMention(ms, d, rg.start[d]) && LastMention(ms, d, l) &&
             rg.end[d] == if rg.start[d] == l && multiset(ms[l])[d] == 1 then l else l - 1;
    assert l >= k && rg.start[d] <= k;
  }

  /** A destination not mentioned before is mentioned once. */
  lemma NewDestOnce(ins: seq<Instr>, k: nat, d: Entry)
    requires k < |ins| && WrittenBeforeRead(ins) && Dest(ins[k]) == Some(d) && !d.Global?
    requires AllCovered(ins)
    ensures MentionedBefore(Mentions(ins), d, k) || multiset(ins[k].Vars())[d] == 1
  {
    if d in Reads(ins[k]) {
      var j :| 0 <= j < k && Dest(ins[j]) == Some(d);
      assert ins[j] in ins;
      MentionsAll(ins[j]);
      assert d in Mentions(ins)[j];
    } else {
      OnceWhenNotRead(ins[k], d);
    }
  }

  lemma OnceWhenNotRead(i: Instr, d: Entry)
    requires Covered(i) && Dest(i) == Some(d) && !d.Global? && d !in Reads(i)
    ensures multiset(i.Vars())[d] == 1
  {
    hide Covered, Reads, Dest, Instr.Vars;
    var rest := ReadsAround(i, d);
    OnceInside(d, rest, i.Vars());
  }

  /** What is mentioned besides the destination is read. */
  lemma ReadsAround(i: Instr, d: Entry) returns (rest: seq<Entry>)
    requires Covered(i) && Dest(i) == Some(d) && !d.Global?
    ensures i.Vars() == [d] + rest || i.Vars() == rest + [d]
    ensures forall e <- rest :: e in Reads(i)
  {
    match i
    case BinOp(_, _, a, b) => rest := a.Vars() + b.Vars();
    case ICmp(_, _, a, b) => rest := a.Vars() + b.Vars();
    case Select(_, c, _, _) => rest := c.Vars();
    case Trunc(_, v) => rest := v.Vars();
    case Load(_, s) => rest := NonGlobal(s);
    case Store(v, _) => rest := v.Vars();
  }

  lemma OnceInside(d: Entry, rest: seq<Entry>, all: seq<Entry>)
    requires d !in rest && (all == [d] + rest || all == rest + [d])
    ensures multiset(all)[d] == 1
  {
  }

  /** Allocation is sound for homes: what is still needed does not live where a destination does. */
  lemma HomesApart(ins: seq<Instr>, rg: Ranges, registers: map<Entry, int>, locations: map<Entry, int>, stackSize: int,
                   k: nat, v: Entry, d: Entry, sp: int, symbol: string -> int, names: set<string>)
    requires Exact(Mentions(ins), rg) && GoodHomes(registers, locations, stackSize, rg)
    requires Layout(locations, sp, symbol, names)
    requires var homes := HomesOf(registers, locations);
      && (forall i <- ins :: Housed(i, homes)) && k < |ins| && Dest(ins[k]) == Some(d)
      && !v.Global? && v in homes
    requires WrittenBeforeRead(ins) && v != d
    requires d.Global? ==> d.name in names
    requires InRegister(HomesOf(registers, locations), v) ==>
        MentionedBefore(Mentions(ins), v, k) && MentionedFrom(Mentions(ins), v, k + 1)
    ensures Where(v, HomesOf(registers, locations), sp, symbol) != Where(d, HomesOf(registers, locations), sp, symbol)
  {
    hide Exact, Instr.Vars, WrittenBeforeRead, Mentions, GoodHomes, Layout, HomesOf, Housed, Covered, Where;
    var homes := HomesOf(registers, locations);
    assert ins[k] in ins;
    DestIsPlaced(ins[k], homes, d);
    if InRegister(homes, v) && !d.Global? && InRegister(homes, d) {
      MentionsAll(ins[k]);
      NewDestOnce(ins, k, d);
      assert Mentions(ins)[k] == ins[k].Vars();
      DestOverlapsNeeded(Mentions(ins), rg, k, v, d);
      RegistersApart(registers, locations, stackSize, rg, v, d);
    }
    PlacesApart(registers, locations, stackSize, rg, v, d, sp, symbol, names);
  }

  lemma DestIsPlaced(i: Instr, homes: Homes, d: Entry)
    requires Housed(i, homes) && Dest(i) == Some(d)
    ensures d.Global? || d in homes
  {
  }

  lemma RegistersApart(registers: map<Entry, int>, locations: map<Entry, int>, stackSize: int, rg: Ranges, v: Entry,
                       d: Entry)
    requires GoodHomes(registers, locations, stackSize, rg) && v != d && rg.Overlap(v, d)
    requires var homes := HomesOf(registers, locations); v in homes && d in homes && homes[v].R? && homes[d].R?
    ensures HomesOf(registers, locations)[v] != HomesOf(registers, locations)[d]
  {
  }

  lemma PlacesApart(registers: map<Entry, int>, locations: map<Entry, int>, stackSize: int, rg: Ranges, v: Entry,
                    d: Entry, sp: int, symbol: string -> int, names: set<string>)
    requires GoodHomes(registers, locations, stackSize, rg) && Layout(locations, sp, symbol, names) && v != d
    requires !v.Global?
    requires d.Global? ==> d.name in names
    requires var homes := HomesOf(registers, locations); v in homes && (d.Global? || d in homes)
    requires var homes := HomesOf(registers, locations);
      InRegister(homes, v) && !d.Global? && InRegister(homes, d) ==> homes[v] != homes[d]
    ensures Where(v, HomesOf(registers, locations), sp, symbol) != Where(d, HomesOf(registers, locations), sp, symbol)
  {
  }

  lemma ReadsAreHeld(ins: seq<Instr>, k: nat, homes: Homes, m: IrMem, m': IrMem, s: ArmState, sp: int,
                     symbol: string -> int, names: set<string>, w: World)
    requires k < |ins| && (forall i <- ins :: Housed(i, homes)) && WrittenBeforeRead(ins)
    requires Simulates(Mentions(ins), k, homes, m, s, sp, symbol, names)
    requires !ins[k].IsTerminator() && Exec(ins[k], m, w) == Some(m')
    ensures ReadsHold(ins[k], m, homes, s, symbol)
  {
    hide Where, Holds, BinOpValue;
    var i := ins[k];
    assert i in ins;
    forall e <- Reads(i) ensures m.Get(e).Some? && Holds(s, Where(e, homes, s.regs[SP], symbol), m.Get(e).value) {
      if e.Global? {
        GlobalHeld(i, e, m, m', s, homes, symbol, names, w);
      } else {
        ReadIsHeld(ins, k, e, homes, m, s, sp, symbol, names);
      }
    }
  }

  /** What the next instruction reads was written before, and is where it lives. */
  lemma ReadIsHeld(ins: seq<Instr>, k: nat, e: Entry, homes: Homes, m: IrMem, s: ArmState, sp: int,
                   symbol: string -> int, names: set<string>)
    requires k < |ins| && AllCovered(ins) && WrittenBeforeRead(ins) && e in Reads(ins[k]) && !e.Global?
    requires Simulates(Mentions(ins), k, homes, m, s, sp, symbol, names)
    ensures m.Get(e).Some? && Holds(s, Where(e, homes, s.regs[SP], symbol), m.Get(e).value)
  {
    hide Where, Holds, Covered;
    var j :| 0 <= j < k && Dest(ins[j]) == Some(e);
    assert ins[j] in ins && ins[k] in ins;
    MentionsAll(ins[j]);
    MentionsAll(ins[k]);
    assert e in Mentions(ins)[j] && e in Mentions(ins)[k];
    assert MentionedBefore(Mentions(ins), e, k) && MentionedFrom(Mentions(ins), e, k);
  }

  /** A global is only read by a load. */
  lemma GlobalHeld(i: Instr, e: Entry, m: IrMem, m': IrMem, s: ArmState, homes: Homes, symbol: string -> int,
                   names: set<string>, w: World)
    requires e in Reads(i) && e.Global? && Lowerable(i, homes) && !i.IsTerminator() && Exec(i, m, w) == Some(m')
    requires GlobalsAgree(m, s, symbol, names)
    ensures m.Get(e).Some? && Holds(s, Where(e, homes, s.regs[SP], symbol), m.Get(e).value)
  {
  }

  /** One instruction, simulated. */
  lemma StepSimulates(ins: seq<Instr>, rg: Ranges, registers: map<Entry, int>, locations: map<Entry, int>,
                      stackSize: int, shift: int, k: nat, m: IrMem, m': IrMem, s: ArmState, sp: int,
                      symbol: string -> int, names: set<string>, w: World)
    requires Exact(Mentions(ins), rg) && GoodHomes(registers, locations, stackSize, rg)
    requires Layout(locations, sp, symbol, names)
    requires (forall i <- ins :: Housed(i, HomesOf(registers, locations))) && k < |ins| && WrittenBeforeRead(ins)
    requires Simulates(Mentions(ins), k, HomesOf(registers, locations), m, s, sp, symbol, names)
    requires Delivered(ins[k], HomesOf(registers, locations), shift) && GlobalNames(ins[k]) <= names
    requires !ins[k].IsTerminator() && Exec(ins[k], m, w) == Some(m') && TruncsTruth(ins[k], m)
    ensures Lowerable(ins[k], HomesOf(registers, locations))
    ensures Plain(Lower(ins[k], HomesOf(registers, locations), shift))
    ensures Simulates(Mentions(ins), k + 1, HomesOf(registers, locations), m',
                      ExecArmAll(Lower(ins[k], HomesOf(registers, locations), shift), s, symbol), sp, symbol, names)
  {
    hide *;
    var homes := HomesOf(registers, locations);
    var i := ins[k];
    ReadsAreHeld(ins, k, homes, m, m', s, sp, symbol, names, w);
    HomesOfFit(registers, locations);
    StackPointerHeld(Mentions(ins), k, homes, m, s, sp, symbol, names);
    LowerCorrect(i, m, m', homes, shift, s, symbol, w) by { assert i in ins; }
    var s' := ExecArmAll(Lower(i, homes, shift), s, symbol);
    if Dest(i) == None {
      NothingWritten(ins, k, homes, m, s, sp, symbol, names);
    } else {
      var d := Dest(i).value;
      if d.Global? { DestNamed(i, d); }
      forall v: Entry | !v.Global? && v != d && v in homes &&
                 (InRegister(homes, v) ==>
                    MentionedBefore(Mentions(ins), v, k) && MentionedFrom(Mentions(ins), v, k + 1))
        ensures Where(v, homes, sp, symbol) != Where(d, homes, sp, symbol)
      {
        HomesApart(ins, rg, registers, locations, stackSize, k, v, d, sp, symbol, names);
      }
      MentionedHaveHomes(ins, homes);
      GlobalsApart(i, registers, locations, d, sp, symbol, names) by { assert i in ins; }
      WriteSimulates(ins, k, homes, m, m', d, s, s', sp, symbol, names);
    }
  }

  lemma StackPointerHeld(ms: seq<seq<Entry>>, k: nat, homes: Homes, m: IrMem, s: ArmState, sp: int,
                         symbol: string -> int, names: set<string>)
    requires Simulates(ms, k, homes, m, s, sp, symbol, names)
    ensures s.regs[SP] == sp
  {
  }

  ghost predicate MentionedAt(ms: seq<seq<Entry>>, v: Entry, i: int) {
    0 <= i < |ms| && v in ms[i]
  }

  lemma MentionedHaveHomes(ins: seq<Instr>, homes: Homes)
    requires forall i <- ins :: Housed(i, homes)
    ensures forall v, i :: MentionedAt(Mentions(ins), v, i) ==> v in homes
  {
    forall v, i | MentionedAt(Mentions(ins), v, i) ensures v in homes {
      assert ins[i] in ins;
      MentionsAll(ins[i]);
      MentionIsPlaced(ins[i], homes, v);
    }
  }

  lemma MentionIsPlaced(i: Instr, homes: Homes, v: Entry)
    requires Housed(i, homes) && v in i.Vars()
    ensures v in homes && !v.Global?
  {
  }

  lemma NothingWritten(ins: seq<Instr>, k: nat, homes: Homes, m: IrMem, s: ArmState, sp: int, symbol: string -> int,
                       names: set<string>)
    requires k < |ins| && (forall i <- ins :: Housed(i, homes)) && Dest(ins[k]) == None && !ins[k].IsTerminator()
    requires Simulates(Mentions(ins), k, homes, m, s, sp, symbol, names)
    ensures Simulates(Mentions(ins), k + 1, homes, m, s, sp, symbol, names)
  {
    assert ins[k] in ins;
    OnlyAllocaHasNone(ins[k]);
    assert Mentions(ins)[k] == [];
    hide Where, Holds, Instr.Vars, Mentions;
    var ms := Mentions(ins);
    forall v | MentionedBefore(ms, v, k + 1) ensures MentionedBefore(ms, v, k) {}
    forall v | MentionedFrom(ms, v, k + 1) ensures MentionedFrom(ms, v, k) {}
  }

  /** The destination gets its new value; what is still needed lives elsewhere. */
  lemma WriteSimulates(ins: seq<Instr>, k: nat, homes: Homes, m: IrMem, m': IrMem, d: Entry, s: ArmState, s': ArmState,
                       sp: int, symbol: string -> int, names: set<string>)
    requires k < |ins| && (forall i <- ins :: Housed(i, homes)) && Dest(ins[k]) == Some(d) && WrittenBeforeRead(ins)
    requires forall v, i :: MentionedAt(Mentions(ins), v, i) ==> v in homes
    requires d.Global? ==> d.name in names
    requires HomesFit(homes) && forall g <- names :: d != Global(g) ==> Where(d, homes, sp, symbol) != AtCell(symbol(g))
    requires Simulates(Mentions(ins), k, homes, m, s, sp, symbol, names)
    requires m'.Get(d).Some? && m' == m.Set(d, m'.Get(d).value)
    requires Effect(s, s', Where(d, homes, sp, symbol), m'.Get(d).value)
    requires forall v: Entry :: !v.Global? && v != d && v in homes &&
               (InRegister(homes, v) ==> MentionedBefore(Mentions(ins), v, k) && MentionedFrom(Mentions(ins), v, k + 1))
               ==> Where(v, homes, sp, symbol) != Where(d, homes, sp, symbol)
    ensures Simulates(Mentions(ins), k + 1, homes, m', s', sp, symbol, names)
  {
    hide Instr.Vars, Mentions, Housed, Covered, Where, Effect, Holds, HomesFit, WrittenBeforeRead, GlobalsAgree;
    var ms := Mentions(ins);
    var x := m'.Get(d).value;
    forall v: Entry | !v.Global? && MentionedBefore(ms, v, k + 1)
      ensures v in m'.vars
      ensures (MentionedFrom(ms, v, k + 1) || !InRegister(homes, v) ==>
               Holds(s', Where(v, homes, sp, symbol), m'.vars[v]))
    {
      if v == d {
        EffectHolds(s, s', Where(d, homes, sp, symbol), x);
      } else {
        EarlierMention(ins, k, v, d);
        if MentionedFrom(ms, v, k + 1) || !InRegister(homes, v) {
          var i :| 0 <= i < k && i < |ms| && v in ms[i];
          assert MentionedAt(ms, v, i);
          assert MentionedFrom(ms, v, k + 1) ==> MentionedFrom(ms, v, k);
          EffectElsewhere(s, s', d, x, v, m.vars[v], homes, sp, symbol);
        }
      }
    }
    GlobalsStayAgreed(m, m', d, x, homes, s, s', sp, symbol, names);
    assert s'.regs[SP] == sp by { EffectKeepsSP(s, s', Where(d, homes, sp, symbol), x); }
  }

  lemma DestNamed(i: Instr, d: Entry)
    requires Dest(i) == Some(d) && d.Global?
    ensures d.name in GlobalNames(i)
  {
  }

  lemma EffectHolds(s: ArmState, s': ArmState, p: Place, x: int)
    requires Effect(s, s', p, x)
    ensures Holds(s', p, x)
  {
  }

  lemma EffectKeepsSP(s: ArmState, s': ArmState, p: Place, x: int)
    requires Effect(s, s', p, x)
    ensures s'.regs[SP] == s.regs[SP]
  {
  }

  lemma EffectElsewhere(s: ArmState, s': ArmState, d: Entry, x: int, v: Entry, y: int, homes: Homes, sp: int,
                        symbol: string -> int)
    requires Effect(s, s', Where(d, homes, sp, symbol), x) && Holds(s, Where(v, homes, sp, symbol), y)
    requires Where(v, homes, sp, symbol) != Where(d, homes, sp, symbol) && HomesFit(homes) && v in homes && !v.Global?
    ensures Holds(s', Where(v, homes, sp, symbol), y)
  {
  }

  lemma GlobalsStayAgreed(m: IrMem, m': IrMem, d: Entry, x: int, homes: Homes, s: ArmState, s': ArmState, sp: int,
                          symbol: string -> int, names: set<string>)
    requires GlobalsAgree(m, s, symbol, names) && m' == m.Set(d, x) && Effect(s, s', Where(d, homes, sp, symbol), x)
    requires d.Global? ==> d.name in names
    requires forall g <- names :: d != Global(g) ==> Where(d, homes, sp, symbol) != AtCell(symbol(g))
    ensures GlobalsAgree(m', s', symbol, names)
  {
    forall g <- m'.globals ensures s'.Cell(symbol(g)) == m'.globals[g] {
      assert d != Global(g) ==> Where(d, homes, sp, symbol) != AtCell(symbol(g));
    }
  }

  /** No other entry's place is the cell of a global. */
  lemma GlobalsApart(i: Instr, registers: map<Entry, int>, locations: map<Entry, int>, d: Entry, sp: int,
                     symbol: string -> int, names: set<string>)
    requires Layout(locations, sp, symbol, names) && Lowerable(i, HomesOf(registers, locations)) && Dest(i) == Some(d)
    requires GlobalNames(i) <= names
    ensures forall g <- names :: d != Global(g) ==>
        Where(d, HomesOf(registers, locations), sp, symbol) != AtCell(symbol(g))
  {
  }

  /** A variable mentioned that is not the destination is read, so it was written, and mentioned, before. */
  lemma EarlierMention(ins: seq<Instr>, k: nat, v: Entry, d: Entry)
    requires MentionedBefore(Mentions(ins), v, k + 1) && k < |ins| && v != d && Dest(ins[k]) == Some(d) && !v.Global?
    requires AllCovered(ins) && WrittenBeforeRead(ins)
    ensures MentionedBefore(Mentions(ins), v, k)
  {
    hide Instr.Vars, Mentions;
    var ms := Mentions(ins);
    var j :| 0 <= j < k + 1 && j < |ms| && v in ms[j];
    if j == k {
      assert ins[k] in ins;
      MentionsAll(ins[k]);
      var h :| 0 <= h < k && Dest(ins[h]) == Some(v);
      assert ins[h] in ins;
      MentionsAll(ins[h]);
      assert v in ms[h];
    }
  }

  // ----- The whole block -----

  /** A straight-line block of local and global loads and stores, arithmetic, comparisons and selects, allocated over
      its own ranges: every variable is written before it is read. */
  ghost predicate AllocatedBlock(ins: seq<Instr>, rg: Ranges, registers: map<Entry, int>, locations: map<Entry, int>,
                                 stackSize: int, shift: int) {
    && Exact(Mentions(ins), rg) && GoodHomes(registers, locations, stackSize, rg)
    && AllDelivered(ins, HomesOf(registers, locations), shift) && WrittenBeforeRead(ins)
  }

  lemma BlockIsStraight(ins: seq<Instr>, homes: Homes, shift: int, k: nat)
    requires AllDelivered(ins, homes, shift) && k <= |ins| && Straight(ins[..k])
    ensures forall i <- ins[..k] :: Lowerable(i, homes) && Delivered(i, homes, shift)
  {
  }

  lemma ExecSnoc(ins: seq<Instr>, k: nat, m: IrMem, w: World)
    requires k < |ins| && Straight(ins[..k + 1])
    ensures Straight(ins[..k]) && !ins[k].IsTerminator()
    ensures ExecAll(ins[..k + 1], m, w) ==
            match ExecAll(ins[..k], m, w) case None => None case Some(m1) => Exec(ins[k], m1, w)
  {
    hide Exec;
    assert ins[..k + 1] == ins[..k] + [ins[k]];
    forall i <- ins[..k] ensures !i.IsTerminator() { assert i in ins[..k + 1]; }
    assert ins[k] in ins[..k + 1];
    ExecAllAppend(ins[..k], [ins[k]], m, w);
    match ExecAll(ins[..k], m, w)
    case None =>
    case Some(m1) =>
      match Exec(ins[k], m1, w) {
        case None =>
        case Some(_) => assert [ins[k]][1..] == [];
      }
  }

  /** Running the lowered code keeps every variable that is still needed, every spilled variable and every global equal
      to its IR value, after every instruction of the block. */
  lemma {:induction false} BlockSimulates(ins: seq<Instr>, rg: Ranges, registers: map<Entry, int>,
                                          locations: map<Entry, int>, stackSize: int, shift: int, k: nat, m: IrMem,
                                          s: ArmState, symbol: string -> int, names: set<string>, w: World)
    requires AllocatedBlock(ins, rg, registers, locations, stackSize, shift)
    requires Layout(locations, s.regs[SP], symbol, names)
    requires NamesWithin(ins, names) && GlobalsAgree(m, s, symbol, names)
    requires k <= |ins| && Straight(ins[..k]) && ExecAll(ins[..k], m, w).Some? && TruncsSeeTruth(ins[..k], m, w)
    ensures var homes := HomesOf(registers, locations);
      && (forall i <- ins[..k] :: Lowerable(i, homes)) && Plain(LowerAll(ins[..k], homes, shift))
      && Simulates(Mentions(ins), k, homes, ExecAll(ins[..k], m, w).value,
                   ExecArmAll(LowerAll(ins[..k], homes, shift), s, symbol),
                   s.regs[SP], symbol, names)
    decreases k
  {
    hide Simulates, Exact, GoodHomes, Lowerable, Housed, Delivered, TruncsTruth, TruncsSeeTruth, GlobalNames, Lower,
        Exec, WrittenBeforeRead, HomesOf, Layout, Instr.Vars, Mentions, GlobalsAgree;
    var homes := HomesOf(registers, locations);
    BlockIsStraight(ins, homes, shift, k);
    if k == 0 {
      NothingYet(Mentions(ins), homes, m, s, symbol, names);
    } else {
      var j := k - 1;
      ExecSnoc(ins, j, m, w);
      assert ins[j] in ins[..k] && ins[j] in ins;
      TruncsShorter(ins, j, m, w);
      BlockSimulates(ins, rg, registers, locations, stackSize, shift, j, m, s, symbol, names, w);
      var m1 := ExecAll(ins[..j], m, w).value;
      var s1 := ExecArmAll(LowerAll(ins[..j], homes, shift), s, symbol);
      StepSimulates(ins, rg, registers, locations, stackSize, shift, j, m1, ExecAll(ins[..k], m, w).value, s1,
                    s.regs[SP], symbol, names, w);
      assert ins[..k][..j] == ins[..j];
      ExecArmAppend(LowerAll(ins[..j], homes, shift), Lower(ins[j], homes, shift), s, symbol);
    }
  }

  lemma TruncsShorter(ins: seq<Instr>, j: nat, m: IrMem, w: World)
    requires j < |ins| && Straight(ins[..j + 1]) && TruncsSeeTruth(ins[..j + 1], m, w)
    ensures Straight(ins[..j]) && TruncsSeeTruth(ins[..j], m, w)
    ensures ExecAll(ins[..j], m, w).Some? ==> TruncsTruth(ins[j], ExecAll(ins[..j], m, w).value)
  {
    var more := ins[..j + 1];
    assert more[..j] == ins[..j] && more[j] == ins[j];
    forall i <- ins[..j] ensures !i.IsTerminator() { assert i in more; }
    forall k | 0 <= k < j
      ensures Straight(ins[..j][..k])
      ensures ExecAll(ins[..j][..k], m, w).Some? ==> TruncsTruth(ins[..j][k], ExecAll(ins[..j][..k], m, w).value)
    {
      assert more[..k] == ins[..j][..k] && more[k] == ins[..j][k];
    }
  }

  lemma NothingYet(ms: seq<seq<Entry>>, homes: Homes, m: IrMem, s: ArmState, symbol: string -> int, names: set<string>)
    requires GlobalsAgree(m, s, symbol, names)
    ensures Simulates(ms, 0, homes, m, s, s.regs[SP], symbol, names)
  {
  }

  // ----- Allocation -----

  /** When variables are written before they are read, no range is empty. */
  lemma RangesAreProper(ins: seq<Instr>, rg: Ranges, v: Entry)
    requires Exact(Mentions(ins), rg) && AllCovered(ins) && WrittenBeforeRead(ins) && v in rg.start
    ensures At(rg.start, v) <= At(rg.end, v)
  {
    hide Instr.Vars, Mentions, Covered;
    var ms := Mentions(ins);
    assert ExactRange(ms, v, rg.start[v], rg.end[v]);
    var k := rg.start[v];
    assert v in ins[k].Vars() && ins[k] in ins;
    MentionsAll(ins[k]);
    MentionNotGlobal(ins[k], v);
    if Dest(ins[k]) == Some(v) {
      NewDestOnce(ins, k, v);
    } else {
      ReadIsMentionedBefore(ins, k, v);
    }
  }

  lemma ReadIsMentionedBefore(ins: seq<Instr>, k: nat, v: Entry)
    requires k < |ins| && AllCovered(ins) && WrittenBeforeRead(ins) && v in Reads(ins[k]) && !v.Global?
    ensures MentionedBefore(Mentions(ins), v, k)
  {
    hide Instr.Vars, Mentions, Covered;
    var j :| 0 <= j < k && Dest(ins[j]) == Some(v);
    assert ins[j] in ins;
    MentionsAll(ins[j]);
    assert v in Mentions(ins)[j];
  }

  lemma MentionNotGlobal(i: Instr, v: Entry)
    requires Covered(i) && v in i.Vars()
    ensures !v.Global?
  {
  }

  /** Ranges, then the scan, for a function entered at entry whose blocks are g. */
  method GenerateVarLocationsLinearScan(entry: Block, ghost g: map<Label, Block>)
    returns (registers: map<Entry, int>, locations: map<Entry, int>, stackSize: int, ghost rg: Ranges,
             ghost order: seq<Block>)
    requires WellLinked(g) && Owns(g, entry)
    modifies g.Values
    ensures Exact(Mentions(Flatten(SegmentsOf(order))), rg) && OwnsAll(g, order)
    ensures GoodHomes(registers, locations, stackSize, rg)
    ensures NoEmptyRange(rg) ==> FewestSpills(locations, rg) && (locations == map[] <==> AtMostPool(rg.start.Keys, rg))
  {
    hide Exact, Mentions, Flatten, SegmentsOf, GoodHomes, FewestSpills, WellLinked, Instr.Vars, AtMostPool;
    var startpoint, endpoint;
    startpoint, endpoint, order := CalculateLiveRanges(entry, g);
    rg := Ranges(startpoint, endpoint);
    ghost var segs := SegmentsOf(order);
    registers, locations, stackSize := GenerateVarLocations(Ranges(startpoint, endpoint));
    assert SegmentsOf(order) == segs;
  }

  /** The same for a block by itself, whose variables are written before they are read: the homes are good,
      no choice over the same registers spills fewer variables, and nothing is spilled exactly when at most 15 ranges
      meet at any point. */
  method AllocateBlock(ins: seq<Instr>)
    returns (registers: map<Entry, int>, locations: map<Entry, int>, stackSize: int, ghost rg: Ranges)
    requires AllCovered(ins) && WrittenBeforeRead(ins)
    ensures Exact(Mentions(ins), rg) && GoodHomes(registers, locations, stackSize, rg)
    ensures FewestSpills(locations, rg) && (locations == map[] <==> AtMostPool(rg.start.Keys, rg))
    ensures forall shift :: AllocatedBlock(ins, rg, registers, locations, stackSize, shift) <==>
                            AllDelivered(ins, HomesOf(registers, locations), shift)
    ensures AtMostPool(rg.start.Keys, rg) ==> forall shift ::
        AllocatedBlock(ins, rg, registers, locations, stackSize, shift)
  {
    hide Exact, Mentions, GoodHomes, FewestSpills, WrittenBeforeRead, Lowerable, Housed, Delivered, HomesOf,
        AtMostPool, Covered;
    var startpoint, endpoint := RangesOf(ins);
    rg := Ranges(startpoint, endpoint);
    registers, locations, stackSize := GenerateVarLocations(Ranges(startpoint, endpoint));
    ProperBlock(ins, rg);
    forall shift
      ensures AllocatedBlock(ins, rg, registers, locations, stackSize, shift) <==>
              AllDelivered(ins, HomesOf(registers, locations), shift)
      ensures locations == map[] ==> AllocatedBlock(ins, rg, registers, locations, stackSize, shift)
    {
      CoveredIsHoused(ins, rg, registers, locations, stackSize);
      if locations == map[] { InRegistersIsDelivered(ins, registers, locations, shift); }
    }
  }

  lemma ProperBlock(ins: seq<Instr>, rg: Ranges)
    requires Exact(Mentions(ins), rg) && AllCovered(ins) && WrittenBeforeRead(ins)
    ensures NoEmptyRange(rg)
  {
    forall v <- rg.start ensures At(rg.start, v) <= At(rg.end, v) { RangesAreProper(ins, rg, v); }
  }

  /** Allocation gives every variable of a block a home. */
  lemma CoveredIsHoused(ins: seq<Instr>, rg: Ranges, registers: map<Entry, int>, locations: map<Entry, int>,
                        stackSize: int)
    requires AllCovered(ins) && Exact(Mentions(ins), rg) && GoodHomes(registers, locations, stackSize, rg)
    ensures forall i <- ins :: Housed(i, HomesOf(registers, locations))
  {
    hide Instr.Vars, Covered, Housed, Exact, GoodHomes, HomesOf;
    var homes := HomesOf(registers, locations);
    forall i <- ins ensures Housed(i, homes) {
      var k :| 0 <= k < |ins| && ins[k] == i;
      forall v <- i.Vars() ensures v in homes && !homes[v].Num? {
        assert v in Mentions(ins)[k];
        MentionHasHome(Mentions(ins), rg, registers, locations, stackSize, v, k);
      }
      if Basic(i) { HomedIsLowerable(i, homes); } else { HomedCloses(i, homes); }
    }
  }

  lemma MentionHasHome(ms: seq<seq<Entry>>, rg: Ranges, registers: map<Entry, int>, locations: map<Entry, int>,
                       stackSize: int, v: Entry, k: nat)
    requires Exact(ms, rg) && GoodHomes(registers, locations, stackSize, rg) && k < |ms| && v in ms[k]
    ensures v in HomesOf(registers, locations) && !HomesOf(registers, locations)[v].Num?
  {
    assert Mentioned(ms, v);
  }

  lemma HomedCloses(i: Instr, homes: Homes)
    requires Covered(i) && !Basic(i) && forall v <- i.Vars() :: v in homes && !homes[v].Num?
    ensures Housed(i, homes)
  {
  }

  lemma HomedIsLowerable(i: Instr, homes: Homes)
    requires Basic(i) && forall v <- i.Vars() :: v in homes && !homes[v].Num?
    ensures Lowerable(i, homes) && Housed(i, homes)
  {
    match i
    case BinOp(_, _, a, b) => OperandsHomed(i, a, b, homes);
    case ICmp(_, _, a, b) => OperandsHomed(i, a, b, homes);
    case Select(_, c, _, _) => OperandsHomed(i, c, c, homes);
    case Trunc(_, v) => OperandsHomed(i, v, v, homes);
    case Load(d, s) => assert i.Vars() == [d] + NonGlobal(s);
    case Store(v, d) =>
      OperandsHomed(i, v, v, homes);
      assert i.Vars() == v.Vars() + NonGlobal(d);
    case _ =>
  }

  lemma OperandsHomed(i: Instr, a: Operand, b: Operand, homes: Homes)
    requires IsOperand(a) && IsOperand(b) && (forall v <- a.Vars() + b.Vars() :: v in i.Vars())
    requires forall v <- i.Vars() :: v in homes && !homes[v].Num?
    ensures PlacedOperand(a, homes) && PlacedOperand(b, homes)
  {
  }

  /** With nothing spilled, every instruction is delivered. */
  lemma InRegistersIsDelivered(ins: seq<Instr>, registers: map<Entry, int>, locations: map<Entry, int>, shift: int)
    requires locations == map[] && forall i <- ins :: Housed(i, HomesOf(registers, locations))
    ensures AllDelivered(ins, HomesOf(registers, locations), shift)
  {
    hide Instr.Vars;
  }

  /** The headline case, with no condition on the homes: a block of loads, stores, arithmetic, comparisons
      and selects, every variable written before it is read, at most 15 ranges meeting at any point. Whatever order the
      scan takes equal starts in, it spills nothing, and the lowered code simulates the block. */
  lemma RegisterBlockSimulates(ins: seq<Instr>, rg: Ranges, order: seq<Entry>, shift: int,
                               k: nat, m: IrMem, s: ArmState, symbol: string -> int, names: set<string>, w: World)
    requires AllCovered(ins) && WrittenBeforeRead(ins) && Exact(Mentions(ins), rg) && AtMostPool(rg.start.Keys, rg)
    requires IsScanOrder(order, rg) && forall v :: v in order <==> v in rg.start
    requires Layout(map[], s.regs[SP], symbol, names) && NamesWithin(ins, names) && GlobalsAgree(m, s, symbol, names)
    requires k <= |ins| && Straight(ins[..k]) && ExecAll(ins[..k], m, w).Some? && TruncsSeeTruth(ins[..k], m, w)
    ensures var scan := LinearScan.Run(order, rg); var homes := HomesOf(scan.registers, map[]);
      && scan.locations == map[]
      && (forall i <- ins[..k] :: Lowerable(i, homes)) && Plain(LowerAll(ins[..k], homes, shift))
      && Simulates(Mentions(ins), k, homes, ExecAll(ins[..k], m, w).value,
                   ExecArmAll(LowerAll(ins[..k], homes, shift), s, symbol), s.regs[SP], symbol, names)
  {
    hide Exact, Mentions, GoodHomes, FewestSpills, WrittenBeforeRead, Lowerable, Housed, Delivered, HomesOf,
        AtMostPool, Covered;
    hide LinearScan.Run, Simulates, Exec, Instr.Vars, GlobalsAgree, Layout, IsScanOrder, NamesWithin, TruncsSeeTruth;
    var scan := LinearScan.Run(order, rg);
    ProperBlock(ins, rg);
    AllocationIsGood(order, rg, scan);
    AllocationSpillsLeast(order, rg, scan);
    CoveredIsHoused(ins, rg, scan.registers, scan.locations, scan.stackSize);
    InRegistersIsDelivered(ins, scan.registers, scan.locations, shift);
    BlockSimulates(ins, rg, scan.registers, scan.locations, scan.stackSize, shift, k, m, s, symbol, names, w);
  }
}
