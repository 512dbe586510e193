/** Lowering as it runs: instructions are appended while scratch registers are handed out and taken back, and the
    peephole pass deletes instruction objects from the finished body. */
module Assemble {
  import opened Words
  import opened Ir
  import opened Arm
  import opened Lowering
  import opened FrameLayout
  import opened Cfg
  import opened Peephole

  // ----- Instructions -----

  /** The next scratch register. */
  method NextScratch(f: ArmFunction) returns (r: RegNum)
    requires SCRATCH <= f.nextAvailableRegister < SP
    modifies f`nextAvailableRegister
    ensures r == old(f.nextAvailableRegister) && f.nextAvailableRegister == r + 1
  {
    r := f.nextAvailableRegister;
    f.nextAvailableRegister := f.nextAvailableRegister + 1;
  }

  method FetchOperand(op: Operand, f: ArmFunction) returns (ins: seq<ArmInstr>, r: RegNum)
    requires SCRATCH <= f.nextAvailableRegister < SP
    modifies f`nextAvailableRegister
    ensures (ins, r, f.nextAvailableRegister) == Fetch(op, f.varLocations, old(f.nextAvailableRegister))
  {
    if op.Reg? {
      var home := Home(f.varLocations, op.entry);
      if home.R? {
        ins, r := [], home.reg;
      } else {
        r := NextScratch(f);
        ins := [Ldr(r, home)];
      }
    } else {
      r := NextScratch(f);
      ins := [Mov(r, Num(op.value))];
    }
  }

  method DeliverResult(d: Entry, from: RegNum, f: ArmFunction) returns (ins: seq<ArmInstr>)
    ensures ins == Deliver(d, f.varLocations, from)
  {
    var home := Home(f.varLocations, d);
    if home.R? { ins := [Mov(home.reg, R(from))]; } else { ins := [Str(from, home)]; }
  }

  method AssembleTwo(a: Operand, b: Operand, f: ArmFunction) returns (ins: seq<ArmInstr>, ra: RegNum, rb: RegNum)
    requires f.nextAvailableRegister == SCRATCH
    modifies f`nextAvailableRegister
    ensures (ins, ra, rb, f.nextAvailableRegister) == LowerTwo(a, b, f.varLocations)
    ensures SCRATCH <= f.nextAvailableRegister <= SCRATCH + 2
  {
    var insA, insB;
    insA, ra := FetchOperand(a, f);
    insB, rb := FetchOperand(b, f);
    ins := insA + insB;
  }

  /** One instruction; every scratch register is free again afterwards. */
  method Assemble(i: Instr, f: ArmFunction) returns (ins: seq<ArmInstr>)
    requires Lowerable(i, f.varLocations) && f.SpillsMatch() && f.nextAvailableRegister == SCRATCH
    modifies f`nextAvailableRegister
    ensures ins == Lower(i, f.varLocations, f.Shift()) && f.nextAvailableRegister == SCRATCH
  {
    hide Fetch, Deliver, LowerTwo;
    ins := [];
    var resetVal := f.nextAvailableRegister;
    match i {
      case BinOp(d, op, a, b) =>
        var ra, rb;
        ins, ra, rb := AssembleTwo(a, b, f);
        var dest := NextScratch(f);
        var out := DeliverResult(d, dest, f);
        ins := ins + [Arith(op, dest, ra, rb)] + out;
      case ICmp(d, cc, a, b) =>
        var ra, rb;
        ins, ra, rb := AssembleTwo(a, b, f);
        f.nextAvailableRegister := f.nextAvailableRegister + 1;
        ins := ins + [Cmp(R(ra), R(rb))];
        var dest := NextScratch(f);
        var out := DeliverResult(d, dest, f);
        ins := ins + [Cset(dest, cc)] + out;
        assert ins == Lower(i, f.varLocations, f.Shift());
      case Select(d, c, _, _) =>
        var rc;
        FetchNext(c, f.varLocations, SCRATCH);
        ins, rc := FetchOperand(c, f);
        ins := ins + [Cmp(R(rc), Num(1))];
        var dest := NextScratch(f);
        var out := DeliverResult(d, dest, f);
        ins := ins + [Cset(dest, EQ)] + out;
        assert ins == Lower(i, f.varLocations, f.Shift());
      case Trunc(d, v) =>
        var rv;
        ins, rv := FetchOperand(v, f);
        var out := DeliverResult(d, rv, f);
        ins := ins + out;
      case Load(d, s) => ins := AssembleLoad(i, f);
      case Store(v, d) => ins := AssembleStore(i, f);
      case Alloca(_) =>
    }
    f.nextAvailableRegister := resetVal;
  }

  lemma FetchNext(op: Operand, homes: Homes, next: RegNum)
    requires next < SP
    ensures next <= Fetch(op, homes, next).2 <= next + 1
  {
  }

  /** A variable's register, or the next scratch register with a load from its slot, or with the address of a global. */
  method FetchPlace(e: Entry, f: ArmFunction) returns (ins: seq<ArmInstr>, r: RegNum)
    requires SCRATCH <= f.nextAvailableRegister < SP
    modifies f`nextAvailableRegister
    ensures var next := old(f.nextAvailableRegister);
      (ins, r, f.nextAvailableRegister) ==
        if e.Global? then ([Adrp(next, e.name), AddLo12(next, e.name)], next, next + 1)
        else Fetch(Reg(e, I64), f.varLocations, next)
  {
    if e.Global? {
      r := NextScratch(f);
      ins := [Adrp(r, e.name), AddLo12(r, e.name)];
    } else {
      ins, r := FetchOperand(Reg(e, I64), f);
    }
  }

  method AssembleLoad(i: Instr, f: ArmFunction) returns (ins: seq<ArmInstr>)
    requires i.Load? && Lowerable(i, f.varLocations) && f.nextAvailableRegister == SCRATCH
    modifies f`nextAvailableRegister
    ensures ins == Lower(i, f.varLocations, f.Shift())
  {
    var rd;
    ins, rd := FetchPlace(i.dest, f);
    if i.src.Global? {
      var next := f.nextAvailableRegister;
      ins := ins + [Adrp(next, i.src.name), AddLo12(next, i.src.name), Ldr(rd, R(next))];
    } else {
      var home := Home(f.varLocations, i.src);
      ins := ins + [if home.R? then Mov(rd, home) else Ldr(rd, home)];
    }
  }

  /** The operand a store takes its value from: an immediate is moved to the next scratch register, a variable is
      taken where it lives. */
  method FetchValue(op: Operand, f: ArmFunction) returns (ins: seq<ArmInstr>, from: ArmOperand)
    requires SCRATCH <= f.nextAvailableRegister < SP
    modifies f`nextAvailableRegister
    ensures var next := old(f.nextAvailableRegister);
      (ins, from) == if op.Imm? then ([Mov(next, Num(op.value))], R(next)) else ([], Home(f.varLocations, op.entry))
  {
    if op.Reg? {
      ins, from := [], Home(f.varLocations, op.entry);
    } else {
      var r := NextScratch(f);
      ins, from := [Mov(r, Num(op.value))], R(r);
    }
  }

  /** A spilled destination is written from the next scratch register, which only an immediate has been moved to. */
  method AssembleStore(i: Instr, f: ArmFunction) returns (ins: seq<ArmInstr>)
    requires i.Store? && Lowerable(i, f.varLocations) && f.SpillsMatch() && f.nextAvailableRegister == SCRATCH
    modifies f`nextAvailableRegister
    ensures ins == Lower(i, f.varLocations, f.Shift())
  {
    var val, d := i.val, i.dst;
    var ptr: RegNum := f.nextAvailableRegister;
    var spilled := d in f.locations;
    ins := [];
    if !spilled { ins, ptr := FetchPlace(d, f); }
    var fetch, from := FetchValue(val, f);
    ins := ins + fetch;
    if spilled {
      ins := ins + [Str(ptr, Home(f.varLocations, d))];
    } else if from.R? {
      ins := ins + [if d.Global? then Str(from.reg, R(ptr)) else Mov(ptr, from)];
    } else {
      if val.entry.ParamSlot? { from := Addr(from.base, from.offset + f.Shift()); }
      ins := ins + [Ldr(ptr, from)];
    }
  }

  // ----- The peephole pass -----

  /** An instruction object; the pass compares them by identity. */
  class Node {
    const instr: ArmInstr

    constructor (instr: ArmInstr)
      ensures this.instr == instr
    {
      this.instr := instr;
    }
  }

  function Instrs(body: seq<Node>): (code: seq<ArmInstr>)
    ensures |code| == |body| && forall i :: 0 <= i < |body| ==> code[i] == body[i].instr
  {
    if body == [] then [] else Instrs(body[..|body| - 1]) + [body[|body| - 1].instr]
  }

  /** Deletes the first occurrence of an object by shifting the rest down. */
  method RemoveInstr(body: seq<Node>, node: Node) returns (r: seq<Node>)
    requires NoDup(body)
    ensures r == Dropped(body, {node})
  {
    for i := 0 to |body|
      invariant node !in body[..i]
    {
      if body[i] == node {
        DropOne(body, i);
        return body[..i] + body[i + 1..];
      }
    }
    assert body[..|body|] == body;
    DropNone(body, {node});
    return body;
  }

  function Dropped(body: seq<Node>, nodes: set<Node>): seq<Node> {
    if body == [] then []
    else Dropped(body[..|body| - 1], nodes) + if body[|body| - 1] in nodes then [] else [body[|body| - 1]]
  }

  lemma {:induction false} DropNone(body: seq<Node>, nodes: set<Node>)
    requires forall n <- body :: n !in nodes
    ensures Dropped(body, nodes) == body
    decreases |body|
  {
    if body != [] {
      DropNone(body[..|body| - 1], nodes);
      assert body == body[..|body| - 1] + [body[|body| - 1]];
    }
  }

  lemma {:induction false} DropOne(body: seq<Node>, i: nat)
    requires NoDup(body) && i < |body|
    ensures Dropped(body, {body[i]}) == body[..i] + body[i + 1..]
    decreases |body|
  {
    var front := body[..|body| - 1];
    if i == |body| - 1 {
      DropNone(front, {body[i]});
      assert body[i + 1..] == [];
    } else {
      DropOne(front, i);
      assert body[..i] + body[i + 1..] == front[..i] + front[i + 1..] + [body[|body| - 1]];
    }
  }

  lemma {:induction false} DroppedTwice(body: seq<Node>, a: set<Node>, b: set<Node>)
    ensures Dropped(Dropped(body, a), b) == Dropped(body, a + b)
    decreases |body|
  {
    if body != [] {
      var front, last := body[..|body| - 1], body[|body| - 1];
      DroppedTwice(front, a, b);
      var d := Dropped(front, a);
      if last in a {
        assert d + [] == d;
      } else {
        assert (d + [last])[..|d|] == d;
      }
    }
  }

  lemma {:induction false} DroppedKeeps(body: seq<Node>, nodes: set<Node>)
    requires NoDup(body)
    ensures NoDup(Dropped(body, nodes)) && forall n :: n in Dropped(body, nodes) <==> n in body && n !in nodes
    decreases |body|
  {
    if body != [] {
      var front, last := body[..|body| - 1], body[|body| - 1];
      assert body == front + [last];
      assert last !in front;
      DroppedKeeps(front, nodes);
    }
  }

  /** Dropping exactly the instructions the pass marks leaves the optimised code. */
  lemma {:induction false} DroppedIsKept(body: seq<Node>, nodes: set<Node>, n: nat)
    requires n <= |body| && forall i :: 0 <= i < |body| ==> (body[i] in nodes <==> Removed(Instrs(body), i))
    ensures Instrs(Dropped(body[..n], nodes)) == KeptUpTo(Instrs(body), n)
    decreases n
  {
    if n > 0 {
      assert body[..n][..n - 1] == body[..n - 1];
      DroppedIsKept(body, nodes, n - 1);
      if body[n - 1] !in nodes {
        var d := Dropped(body[..n - 1], nodes) + [body[n - 1]];
        assert d[..|d| - 1] == Dropped(body[..n - 1], nodes);
      }
    }
  }

  method IsLabel(body: seq<Node>, i: nat, t: Target) returns (b: bool)
    ensures b == LabelAt(Instrs(body), i, t)
  {
    b := i < |body| && body[i].instr.LabelDef? && body[i].instr.target == t;
  }

  /** What is dropped leaves the others in their order. */
  lemma {:induction false} DroppedInOrder(body: seq<Node>, nodes: set<Node>)
    requires NoDup(body)
    ensures InOrderOf(Dropped(body, nodes), body)
    decreases |body|
  {
    hide Dropped;
    DroppedKeeps(body, nodes);
    if body != [] {
      var front, last := body[..|body| - 1], body[|body| - 1];
      assert body == front + [last];
      DroppedInOrder(front, nodes);
      DroppedKeeps(front, nodes);
      DroppedLast(body, nodes);
    }
  }

  lemma DroppedLast(body: seq<Node>, nodes: set<Node>)
    requires body != []
    ensures var d := Dropped(body[..|body| - 1], nodes); var last := body[|body| - 1];
      Dropped(body, nodes) == if last in nodes then d else d + [last]
  {
  }

  /** Objects of both lists come in the same order. */
  ghost predicate InOrderOf(r: seq<Node>, body: seq<Node>) {
    forall i, j, p, q ::
      0 <= i < |r| && 0 <= j < |r| && 0 <= p < q < |body| && r[i] == body[p] && r[j] == body[q] ==> i < j
  }

  /** Collects what to delete, then deletes it object by object: moves of a register to itself, branches to the label
      that comes next, and conditional branches to a label one or two places ahead. The rest stays in its order. */
  method Optimise(body: seq<Node>) returns (r: seq<Node>)
    requires NoDup(body)
    ensures Instrs(r) == Optimised(Instrs(body))
    ensures forall k :: 0 <= k < |r| ==> r[k] in body
    ensures forall i :: 0 <= i < |body| ==> (body[i] in r <==>
      !(body[i].instr.Mov? && body[i].instr.operand == R(body[i].instr.reg))
      && !(body[i].instr.B? && i + 1 < |body| && body[i + 1].instr == LabelDef(body[i].instr.target))
      && !(body[i].instr.BCond? && i + 1 < |body| && body[i + 1].instr == LabelDef(body[i].instr.target))
      && !(body[i].instr.BCond? && i + 2 < |body| && body[i + 2].instr == LabelDef(body[i].instr.target)))
    ensures NoDup(r) && InOrderOf(r, body)
  {
    hide Dropped, Removed, KeptUpTo, Instrs;
    var toRemove := MarkRemovable(body);
    r := body;
    assert Members(toRemove[..0]) == {};
    DropNone(body, {});
    for k := 0 to |toRemove|
      invariant r == Dropped(body, Members(toRemove[..k]))
    {
      ghost var before := Members(toRemove[..k]);
      DroppedKeeps(body, before);
      r := RemoveInstr(r, toRemove[k]);
      DroppedTwice(body, before, {toRemove[k]});
      assert before + {toRemove[k]} == Members(toRemove[..k + 1]);
    }
    assert toRemove[..|toRemove|] == toRemove;
    DroppedIsKept(body, Members(toRemove), |body|);
    assert body[..|body|] == body;
    KeptExactly(body, Members(toRemove));
  }

  /** What is left when the marked objects are dropped. */
  lemma KeptExactly(body: seq<Node>, nodes: set<Node>)
    requires NoDup(body) && forall i :: 0 <= i < |body| ==> (body[i] in nodes <==> Removed(Instrs(body), i))
    ensures NoDup(Dropped(body, nodes)) && InOrderOf(Dropped(body, nodes), body)
    ensures forall k :: 0 <= k < |Dropped(body, nodes)| ==> Dropped(body, nodes)[k] in body
    ensures forall i :: 0 <= i < |body| ==> (body[i] in Dropped(body, nodes) <==> Stays(body, i))
  {
    hide Dropped, Removed, Instrs, Stays, InOrderOf;
    DroppedKeeps(body, nodes);
    DroppedInOrder(body, nodes);
    DroppedMembers(body, nodes);
    forall i | 0 <= i < |body| ensures body[i] in Dropped(body, nodes) <==> Stays(body, i) { RemovedNode(body, i); }
  }

  predicate Stays(body: seq<Node>, i: nat)
    requires i < |body|
  {
    !(body[i].instr.Mov? && body[i].instr.operand == R(body[i].instr.reg))
    && !(body[i].instr.B? && i + 1 < |body| && body[i + 1].instr == LabelDef(body[i].instr.target))
    && !(body[i].instr.BCond? && i + 1 < |body| && body[i + 1].instr == LabelDef(body[i].instr.target))
    && !(body[i].instr.BCond? && i + 2 < |body| && body[i + 2].instr == LabelDef(body[i].instr.target))
  }

  lemma {:induction false} DroppedMembers(body: seq<Node>, nodes: set<Node>)
    ensures forall i :: 0 <= i < |body| ==> (body[i] in Dropped(body, nodes) <==> body[i] !in nodes)
    ensures forall k :: 0 <= k < |Dropped(body, nodes)| ==>
        Dropped(body, nodes)[k] in body && Dropped(body, nodes)[k] !in nodes
    decreases |body|
  {
    if body != [] {
      var front, last := body[..|body| - 1], body[|body| - 1];
      DroppedMembers(front, nodes);
      var d, after := Dropped(front, nodes), Dropped(body, nodes);
      forall i | 0 <= i < |body| ensures body[i] in after <==> body[i] !in nodes {
        if i < |front| { assert front[i] == body[i]; }
        if i == |front| && last !in nodes { assert after[|d|] == last; }
        if i < |front| && body[i] !in nodes {
          var k :| 0 <= k < |d| && d[k] == body[i];
          assert after[k] == body[i];
        }
      }
      forall k | 0 <= k < |after| ensures after[k] in body && after[k] !in nodes {
        if k < |d| { assert after[k] == d[k]; }
      }
    }
  }

  /** What the specification removes, on objects. */
  lemma RemovedNode(body: seq<Node>, i: nat)
    requires i < |body|
    ensures !Removed(Instrs(body), i) <==> Stays(body, i)
  {
    hide Instrs;
    match body[i].instr
    case B(t) => assert LabelAt(Instrs(body), i + 1, t) <==> i + 1 < |body| && body[i + 1].instr == LabelDef(t);
    case BCond(_, t) =>
      assert LabelAt(Instrs(body), i + 1, t) <==> i + 1 < |body| && body[i + 1].instr == LabelDef(t);
      assert LabelAt(Instrs(body), i + 2, t) <==> i + 2 < |body| && body[i + 2].instr == LabelDef(t);
    case _ =>
  }

  function Members(ns: seq<Node>): set<Node> { set n | n in ns }

  method MarkRemovable(body: seq<Node>) returns (toRemove: seq<Node>)
    requires NoDup(body)
    ensures forall i :: 0 <= i < |body| ==> (body[i] in toRemove <==> Removed(Instrs(body), i))
  {
    toRemove := [];
    for i := 0 to |body|
      invariant forall j :: 0 <= j < i ==> (body[j] in toRemove <==> Removed(Instrs(body), j))
      invariant forall n <- toRemove :: n in body[..i]
    {
      var instr := body[i].instr;
      assert body[i] !in body[..i];
      if instr.Mov? {
        if instr.operand == R(instr.reg) { toRemove := toRemove + [body[i]]; }
      } else if instr.B? {
        var next := IsLabel(body, i + 1, instr.target);
        if next { toRemove := toRemove + [body[i]]; }
      } else if instr.BCond? {
        var next := IsLabel(body, i + 1, instr.target);
        var second := IsLabel(body, i + 2, instr.target);
        if next {
          toRemove := toRemove + [body[i]];
        } else if second {
          toRemove := toRemove + [body[i]];
        }
      }
    }
  }
}
