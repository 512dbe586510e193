/** Basic blocks as linked heap objects, and the two generators of a program. */
module Cfg {
  import opened Words
  import opened Ir
  import opened IrSemantics
  import opened Translation

  predicate NoDup<T(==)>(s: seq<T>) {
    forall i, j :: 0 <= i < j < |s| ==> s[i] != s[j]
  }

  class Block {
    const lbl: Label
    var instrs: seq<Instr>
    var preds: seq<Block>
    var succs: seq<Block>
    var toForExit: Block?
    var allBlocksInLoop: seq<Block>

    constructor (lbl: Label, preds: seq<Block>, succs: seq<Block>)
      ensures this.lbl == lbl && instrs == [] && this.preds == preds && this.succs == succs
      ensures toForExit == null && allBlocksInLoop == []
    {
      this.lbl, instrs, this.preds, this.succs := lbl, [], preds, succs;
      toForExit, allBlocksInLoop := null, [];
    }

    method AddInstr(instr: Instr)
      modifies this`instrs
      ensures instrs == old(instrs) + [instr]
    {
      instrs := instrs + [instr];
    }

    method AddInstructions(more: seq<Instr>)
      modifies this`instrs
      ensures instrs == old(instrs) + more
    {
      instrs := instrs + more;
    }
  }

  class Program {
    var labelCounter: nat
    var registerCounter: nat

    constructor ()
      ensures labelCounter == 0 && registerCounter == 0
    {
      labelCounter, registerCounter := 0, 0;
    }

    /** The generators stand where those of b do. */
    predicate InStep(b: Build)
      reads this
    {
      labelCounter == b.nextLabel && registerCounter == b.nextReg
    }

    method LabelGen() returns (l: Label)
      modifies this`labelCounter
      ensures l == old(labelCounter) && labelCounter == l + 1
    {
      l := labelCounter;
      labelCounter := labelCounter + 1;
    }

    method RegisterGen() returns (r: Entry)
      modifies this`registerCounter
      ensures r == Temp(old(registerCounter)) && registerCounter == old(registerCounter) + 1
    {
      r := Temp(registerCounter);
      registerCounter := registerCounter + 1;
    }
  }

  function Labels(bs: seq<Block>): (ls: seq<Label>)
    ensures |ls| == |bs| && forall i :: 0 <= i < |bs| ==> ls[i] == bs[i].lbl
  {
    if bs == [] then [] else [bs[0].lbl] + Labels(bs[1..])
  }

  lemma {:induction false} LabelsAppend(a: seq<Block>, b: seq<Block>)
    ensures Labels(a + b) == Labels(a) + Labels(b)
  {
  }

  lemma LabelsOneTwo(a: Block, b: Block)
    ensures Labels([]) == [] && Labels([a]) == [a.lbl] && Labels([a, b]) == [a.lbl, b.lbl]
  {
    assert [a, b][1..] == [b] && [a][1..] == [];
  }

  function LabelOf(b: Block?): Option<Label> {
    if b == null then None else Some(b.lbl)
  }

  // ----- New blocks -----

  method NewBlock(prog: Program) returns (b: Block)
    modifies prog`labelCounter
    ensures fresh(b) && b.lbl == old(prog.labelCounter) && prog.labelCounter == old(prog.labelCounter) + 1
    ensures b.instrs == [] && b.preds == [] && b.succs == [] && b.toForExit == null
  {
    var l := prog.LabelGen();
    b := new Block(l, [], []);
  }

  method NewIfBlock(entry: Block, prog: Program, toForExit: Block?) returns (t: Block, f: Block, x: Block)
    modifies prog`labelCounter, entry`succs
    ensures fresh(t) && fresh(f) && fresh(x)
    ensures prog.labelCounter == old(prog.labelCounter) + 3
    ensures t.lbl == old(prog.labelCounter) && f.lbl == t.lbl + 1 && x.lbl == t.lbl + 2
    ensures t.instrs == f.instrs == x.instrs == []
    ensures t.preds == [entry] && f.preds == [entry] && x.preds == [t, f]
    ensures t.succs == [x] && f.succs == [x] && x.succs == []
    ensures t.toForExit == f.toForExit == x.toForExit == toForExit
    ensures entry.succs == old(entry.succs) + [t, f]
  {
    var l := prog.LabelGen();
    t := new Block(l, [entry], []);
    t.toForExit := toForExit;
    l := prog.LabelGen();
    f := new Block(l, [entry], []);
    f.toForExit := toForExit;
    l := prog.LabelGen();
    x := new Block(l, [t, f], []);
    x.toForExit := toForExit;
    t.succs := t.succs + [x];
    f.succs := f.succs + [x];
    entry.succs := entry.succs + [t] + [f];
  }

  method NewForBlock(prev: Block, prog: Program) returns (entry: Block, body: Block, exit: Block)
    modifies prog`labelCounter, prev`succs
    ensures fresh(entry) && fresh(body) && fresh(exit)
    ensures prog.labelCounter == old(prog.labelCounter) + 3
    ensures entry.lbl == old(prog.labelCounter) && body.lbl == entry.lbl + 1 && exit.lbl == entry.lbl + 2
    ensures entry.instrs == body.instrs == exit.instrs == []
    ensures entry.preds == [] && body.preds == [entry] && exit.preds == [entry]
    ensures entry.succs == [body, exit] && body.succs == [entry] && exit.succs == []
    ensures entry.toForExit == body.toForExit == exit && exit.toForExit == null
    ensures prev.succs == old(prev.succs) + [entry]
  {
    var l := prog.LabelGen();
    entry := new Block(l, [], []);
    l := prog.LabelGen();
    body := new Block(l, [entry], [entry]);
    l := prog.LabelGen();
    exit := new Block(l, [entry], []);
    entry.toForExit := exit;
    body.toForExit := exit;
    entry.succs := entry.succs + [body] + [exit];
    prev.succs := prev.succs + [entry];
  }
}
