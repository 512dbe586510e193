/** Exactly when a lowered instruction is right: some loads and stores of spilled variables are not. */
module LoweringExact {
  import opened Words
  import opened Events
  import opened Ir
  import opened IrSemantics
  import opened Arm
  import opened Lowering
  import opened LoweringCorrect

  /** The cells of the globals the instruction names are no stack slots. */
  ghost predicate GlobalsApart(i: Instr, homes: Homes, sp: int, symbol: string -> int) {
    forall g, e :: g in GlobalNames(i) && e in homes && homes[e].Addr? ==> symbol(g) != sp + homes[e].offset
  }

  /** From a state that agrees with the memory, the lowered code takes the new value of the destination to its place
      and changes no other place. */
  ghost predicate Delivers(i: Instr, m: IrMem, homes: Homes, shift: int, s: ArmState, symbol: string -> int, w: World)
    requires Lowerable(i, homes) && !i.IsTerminator() && Exec(i, m, w).Some?
  {
    var m' := Exec(i, m, w).value;
    && Plain(Lower(i, homes, shift))
    && match Dest(i)
       case None => ExecArmAll(Lower(i, homes, shift), s, symbol) == s
       case Some(d) =>
         && m'.Get(d).Some?
         && Effect(s, ExecArmAll(Lower(i, homes, shift), s, symbol), Where(d, homes, s.regs[SP], symbol),
                   m'.Get(d).value)
  }

  ghost predicate AlwaysDelivers(i: Instr, homes: Homes, shift: int, sp: int, symbol: string -> int, w: World)
    requires Lowerable(i, homes) && !i.IsTerminator()
  {
    forall m, s: ArmState :: s.regs[SP] == sp && ReadsHold(i, m, homes, s, symbol) && TruncsTruth(i, m)
        && Exec(i, m, w).Some?
      ==> Delivers(i, m, homes, shift, s, symbol, w)
  }

  /** Lowered code is right in every state that agrees with the IR exactly if the instruction is one of those
      delivered. */
  lemma DeliversExactly(i: Instr, homes: Homes, shift: int, sp: int, symbol: string -> int, w: World)
    requires HomesFit(homes) && Lowerable(i, homes) && !i.IsTerminator() && GlobalsApart(i, homes, sp, symbol)
    ensures AlwaysDelivers(i, homes, shift, sp, symbol, w) <==> Delivered(i, homes, shift)
  {
    hide Lower, Lowerable, Effect, ReadsHold, TruncsTruth, ExecArmAll, Plain, HomesFit;
    if Delivered(i, homes, shift) {
      hide Delivered;
      forall m, s: ArmState | s.regs[SP] == sp && ReadsHold(i, m, homes, s, symbol) && TruncsTruth(i, m)
          && Exec(i, m, w).Some?
        ensures Delivers(i, m, homes, shift, s, symbol, w)
      {
        LowerCorrect(i, m, Exec(i, m, w).value, homes, shift, s, symbol, w);
      }
    } else if i.Load? {
      LoadFails(i, homes, shift, sp, symbol, w);
    } else if i.dst.Global? {
      GlobalStoreFails(i, homes, shift, sp, symbol, w);
    } else if InRegister(homes, i.dst) {
      ShiftedStoreFails(i, homes, shift, sp, symbol, w);
    } else {
      SpilledStoreFails(i, homes, shift, sp, symbol, w);
    }
  }

  // ----- Inputs on which the others go wrong -----

  /** The state in which one place holds 1 and everything else 0. */
  function OneAt(p: Place, sp: int): ArmState
    requires p.InReg? ==> p.reg != SP
  {
    var zeros := seq(32, _ => 0)[SP := sp];
    match p
    case InReg(r) => ArmState(zeros[r := 1], map[], (0, 0))
    case AtCell(a) => ArmState(zeros, map[a := 1], (0, 0))
  }

  /** The memory in which one entry is 1. */
  function OneIs(e: Entry): IrMem {
    if e.Global? then IrMem(map[], map[e.name := 1], []) else IrMem(map[e := 1], map[], [])
  }

  lemma OneAgrees(i: Instr, e: Entry, homes: Homes, sp: int, symbol: string -> int)
    requires Where(e, homes, sp, symbol).InReg? ==> Where(e, homes, sp, symbol).reg < SCRATCH
    requires Reads(i) == {e} && !i.Trunc?
    ensures var s := OneAt(Where(e, homes, sp, symbol), sp);
      s.regs[SP] == sp && ReadsHold(i, OneIs(e), homes, s, symbol) && TruncsTruth(i, OneIs(e)) && s.regs[SCRATCH] == 0
  {
  }

  lemma Refuted(i: Instr, e: Entry, d: Entry, homes: Homes, shift: int, sp: int, symbol: string -> int, w: World)
    requires HomesFit(homes) && Lowerable(i, homes) && (i.Load? || i.Store?) && Dest(i) == Some(d) && Reads(i) == {e}
    requires e.Global? || Placed(e, homes)
    requires var s := OneAt(Where(e, homes, sp, symbol), sp); var s' := ExecArmAll(Lower(i, homes, shift), s, symbol);
      Plain(Lower(i, homes, shift)) && !Holds(s', Where(d, homes, sp, symbol), 1)
    ensures !AlwaysDelivers(i, homes, shift, sp, symbol, w)
  {
    hide Lower, ExecArmAll, Plain;
    var m, s := OneIs(e), OneAt(Where(e, homes, sp, symbol), sp);
    OneAgrees(i, e, homes, sp, symbol);
    assert Exec(i, m, w) == Some(m.Set(d, 1));
    assert !Delivers(i, m, homes, shift, s, symbol, w);
  }

  /** A load into a spilled variable leaves its slot as it was. */
  lemma LoadFails(i: Instr, homes: Homes, shift: int, sp: int, symbol: string -> int, w: World)
    requires i.Load? && HomesFit(homes) && Lowerable(i, homes) && GlobalsApart(i, homes, sp, symbol)
    requires !InRegister(homes, i.dest) && (i.src.Global? || Home(homes, i.src) != Home(homes, i.dest))
    ensures !AlwaysDelivers(i, homes, shift, sp, symbol, w)
  {
    hide Lower, ExecArmAll, AlwaysDelivers;
    var s := OneAt(Where(i.src, homes, sp, symbol), sp);
    LoadIsLost(i, homes, shift, s, symbol);
    Refuted(i, i.src, i.dest, homes, shift, sp, symbol, w);
  }

  /** A store to a spilled variable writes what happens to be in the scratch register. */
  lemma SpilledStoreFails(i: Instr, homes: Homes, shift: int, sp: int, symbol: string -> int, w: World)
    requires i.Store? && HomesFit(homes) && Lowerable(i, homes) && i.val.Reg?
    requires !i.dst.Global? && !InRegister(homes, i.dst)
    ensures !AlwaysDelivers(i, homes, shift, sp, symbol, w)
  {
    hide AlwaysDelivers;
    var e := i.val.entry;
    var s := OneAt(Where(e, homes, sp, symbol), sp);
    var str := Str(SCRATCH, Home(homes, i.dst));
    assert Lower(i, homes, shift) == [str];
    ExecArmOne(str, s, symbol);
    Refuted(i, e, i.dst, homes, shift, sp, symbol, w);
  }

  /** A store of a spilled variable to a global only loads it. */
  lemma GlobalStoreFails(i: Instr, homes: Homes, shift: int, sp: int, symbol: string -> int, w: World)
    requires i.Store? && HomesFit(homes) && Lowerable(i, homes) && GlobalsApart(i, homes, sp, symbol)
    requires i.dst.Global? && i.val.Reg? && !InRegister(homes, i.val.entry)
    ensures !AlwaysDelivers(i, homes, shift, sp, symbol, w)
  {
    hide AlwaysDelivers, ExecArmAll;
    var e, g := i.val.entry, i.dst.name;
    var s := OneAt(Where(e, homes, sp, symbol), sp);
    var ldr := Ldr(SCRATCH, ValueHome(e, homes, shift));
    AddressOfGlobal(SCRATCH, g, s, symbol);
    ExecArmOne(ldr, s.Set(SCRATCH, symbol(g)), symbol);
    ExecArmAppend([Adrp(SCRATCH, g), AddLo12(SCRATCH, g)], [ldr], s, symbol);
    assert Lower(i, homes, shift) == [Adrp(SCRATCH, g), AddLo12(SCRATCH, g)] + [ldr];
    Refuted(i, e, i.dst, homes, shift, sp, symbol, w);
  }

  /** A spilled parameter slot is stored from the wrong cell. */
  lemma ShiftedStoreFails(i: Instr, homes: Homes, shift: int, sp: int, symbol: string -> int, w: World)
    requires i.Store? && HomesFit(homes) && Lowerable(i, homes) && !i.dst.Global? && InRegister(homes, i.dst)
    requires i.val.Reg? && !InRegister(homes, i.val.entry) && i.val.entry.ParamSlot? && shift != 0
    ensures !AlwaysDelivers(i, homes, shift, sp, symbol, w)
  {
    hide AlwaysDelivers, ExecArmAll;
    var e := i.val.entry;
    var s := OneAt(Where(e, homes, sp, symbol), sp);
    var ldr := Ldr(Home(homes, i.dst).reg, ValueHome(e, homes, shift));
    ExecArmOne(ldr, s, symbol);
    assert Lower(i, homes, shift) == [ldr];
    Refuted(i, e, i.dst, homes, shift, sp, symbol, w);
  }
}
