/** The heap graph of a function under construction, and the abstract graph it stands for at every step. */
module BlockGraph {
  import opened Words
  import opened Ir
  import opened IrSemantics
  import opened Translation
  import opened Cfg

  // ----- The graph a set of blocks stands for -----

  ghost predicate Owns(g: map<Label, Block>, b: Block?) {
    b != null ==> b.lbl in g && g[b.lbl] == b
  }

  ghost predicate OwnsAll(g: map<Label, Block>, bs: seq<Block>) {
    forall b <- bs :: Owns(g, b)
  }

  ghost predicate Sound(g: map<Label, Block>, b: Block)
    reads b
  {
    && OwnsAll(g, b.succs) && OwnsAll(g, b.preds) && Owns(g, b.toForExit)
    && NoDup(b.succs) && NoDup(b.preds) && b !in b.preds
  }

  /** Every block is registered under its own label, and links lead to registered blocks, each at most once. */
  ghost predicate WellLinked(g: map<Label, Block>)
    reads g.Values
  {
    forall l <- g :: g[l].lbl == l && Sound(g, g[l])
  }

  /** The blocks of g are, block for block, the graph b. */
  ghost predicate Shows(g: map<Label, Block>, b: Build)
    reads g.Values
  {
    && b.code.Keys == b.succs.Keys == b.preds.Keys == b.loopExit.Keys == g.Keys
    && forall l <- g :: ShowsAt(g[l], b, l)
  }

  ghost predicate ShowsAt(block: Block, b: Build, l: Label)
    reads block
  {
    && b.Code(l) == block.instrs && b.Succs(l) == Labels(block.succs)
    && b.Preds(l) == Labels(block.preds) && b.LoopExit(l) == LabelOf(block.toForExit)
  }

  // ----- Steps on the graph -----

  lemma AddShown(g: map<Label, Block>, b: Build, block: Block)
    requires Shows(g, b) && block.lbl == b.nextLabel && block.lbl !in g && block.instrs == []
    ensures Shows(g[block.lbl := block], AddBlock(b, Labels(block.preds), Labels(block.succs),
                                                  LabelOf(block.toForExit)))
  {
    hide Labels, LabelOf, ShowsAt;
    var c := AddBlock(b, Labels(block.preds), Labels(block.succs), LabelOf(block.toForExit));
    forall l <- g ensures ShowsAt(g[l], c, l) {
      assert ShowsAt(g[l], b, l);
      AddedShows(b, g[l], l, Labels(block.preds), Labels(block.succs), LabelOf(block.toForExit));
    }
    AddedShownItself(b, block);
  }

  lemma AddedShows(b: Build, block: Block, l: Label, preds: seq<Label>, succs: seq<Label>, exit: Option<Label>)
    requires ShowsAt(block, b, l) && l != b.nextLabel
    ensures ShowsAt(block, AddBlock(b, preds, succs, exit), l)
  {
    hide Labels, LabelOf;
  }

  lemma AddedShownItself(b: Build, block: Block)
    requires block.lbl == b.nextLabel && block.instrs == []
    ensures ShowsAt(block, AddBlock(b, Labels(block.preds), Labels(block.succs), LabelOf(block.toForExit)), block.lbl)
  {
    hide Labels, LabelOf;
  }

  /** The same for every block but one. */
  ghost predicate ShowsBut(g: map<Label, Block>, b: Build, block: Block)
    reads g.Values
  {
    && b.code.Keys == b.succs.Keys == b.preds.Keys == b.loopExit.Keys == g.Keys
    && (forall l <- g :: g[l] != block ==> ShowsAt(g[l], b, l))
    && block.lbl in g && g[block.lbl] == block && forall l <- g :: g[l].lbl == l
  }

  lemma AllShown(g: map<Label, Block>, b: Build)
    requires Shows(g, b)
    ensures b.code.Keys == b.succs.Keys == b.preds.Keys == b.loopExit.Keys == g.Keys
    ensures forall l <- g :: ShowsAt(g[l], b, l)
  {
  }

  /** Whatever changes in one block, and that change is shown too. */
  lemma ChangeShown(g: map<Label, Block>, b: Build, c: Build, block: Block)
    requires ShowsBut(g, b, block) && ShowsAt(block, c, block.lbl)
    requires c.code.Keys == c.succs.Keys == c.preds.Keys == c.loopExit.Keys == g.Keys
    requires forall u :: u != block.lbl ==>
      c.Code(u) == b.Code(u) && c.Succs(u) == b.Succs(u) && c.Preds(u) == b.Preds(u) && c.LoopExit(u) == b.LoopExit(u)
    ensures Shows(g, c)
  {
    hide Labels, LabelOf, Build.Code, Build.Succs, Build.Preds, Build.LoopExit;
    forall l <- g ensures ShowsAt(g[l], c, l) { if g[l] != block { assert ShowsAt(g[l], b, l); } }
  }

  lemma AddSuccsFields(b: Build, l: Label, more: seq<Label>)
    requires l in b.succs
    ensures var c := AddSuccs(b, l, more);
      && c.code.Keys == b.code.Keys && c.succs.Keys == b.succs.Keys && c.preds.Keys == b.preds.Keys
          && c.loopExit.Keys == b.loopExit.Keys
      && c.Succs(l) == b.Succs(l) + more
      && forall u :: c.Code(u) == b.Code(u) && (u != l ==> c.Succs(u) == b.Succs(u)) && c.Preds(u) == b.Preds(u)
                     && c.LoopExit(u) == b.LoopExit(u)
  {
  }

  lemma AddSuccsCounter(b: Build, l: Label, more: seq<Label>)
    ensures AddSuccs(b, l, more).nextLabel == b.nextLabel
  {
  }

  lemma SuccsShown(g: map<Label, Block>, b: Build, block: Block, more: seq<Label>)
    requires ShowsBut(g, b, block)
    requires b.Code(block.lbl) == block.instrs && b.Succs(block.lbl) + more == Labels(block.succs)
    requires b.Preds(block.lbl) == Labels(block.preds) && b.LoopExit(block.lbl) == LabelOf(block.toForExit)
    ensures Shows(g, AddSuccs(b, block.lbl, more))
  {
    hide Labels, LabelOf, Shows;
    AddSuccsFields(b, block.lbl, more);
    ChangeShown(g, b, AddSuccs(b, block.lbl, more), block);
  }

  lemma InstrsShown(g: map<Label, Block>, b: Build, block: Block, ins: seq<Instr>, r: nat)
    requires ShowsBut(g, b, block)
    requires b.Code(block.lbl) + ins == block.instrs && b.Succs(block.lbl) == Labels(block.succs)
    requires b.Preds(block.lbl) == Labels(block.preds) && b.LoopExit(block.lbl) == LabelOf(block.toForExit)
    ensures Shows(g, b.Append(block.lbl, ins).(nextReg := r))
  {
    hide Labels, LabelOf, Shows;
    AppendFields(b, block.lbl, ins, r);
    ChangeShown(g, b, b.Append(block.lbl, ins).(nextReg := r), block);
  }

  lemma AppendFields(b: Build, l: Label, ins: seq<Instr>, r: nat)
    requires l in b.code
    ensures var c := b.Append(l, ins).(nextReg := r);
      && c.code.Keys == b.code.Keys && c.succs == b.succs && c.preds == b.preds && c.loopExit == b.loopExit
      && c.Code(l) == b.Code(l) + ins
      && forall u :: (u != l ==> c.Code(u) == b.Code(u)) && c.Succs(u) == b.Succs(u) && c.Preds(u) == b.Preds(u)
                     && c.LoopExit(u) == b.LoopExit(u)
  {
  }

  // ----- The blocks of a conditional -----

  lemma NewIfCounters(b: Build, l: Label)
    ensures NewIf(b, l).nextLabel == b.nextLabel + 3 && NewIf(b, l).nextReg == b.nextReg
  {
  }

  method LinkIf(ghost g: map<Label, Block>, block: Block, prog: Program, ghost b: Build)
    returns (t: Block, f: Block, x: Block)
    requires WellLinked(g) && Shows(g, b) && Owns(g, block) && forall l <- g :: l < b.nextLabel
    requires prog.labelCounter == b.nextLabel
    modifies prog`labelCounter, block`succs
    ensures fresh(t) && fresh(f) && fresh(x) && prog.labelCounter == b.nextLabel + 3
    ensures t.lbl == b.nextLabel && f.lbl == b.nextLabel + 1 && x.lbl == b.nextLabel + 2
    ensures var h := g[t.lbl := t][f.lbl := f][x.lbl := x]; WellLinked(h) && Shows(h, NewIf(b, block.lbl))
  {
    hide Labels, NewIf, Shows, AddSuccs, Sound, NoDup, OwnsAll;
    AllShown(g, b);
    SoundParts(g, block);
    t, f, x := NewIfBlock(block, prog, block.toForExit);
    assert ShowsBut(g, b, block);
    assert LinkedBut(g, block);
    hide ShowsBut, LinkedBut, ShowsAt, Sound, WellLinked;
    IfBlocksShown(g, b, block, old(block.succs), t, f, x);
    IfBlocksLinked(g, block, old(block.succs), t, f, x);
  }

  lemma IfBlocksShown(g: map<Label, Block>, b: Build, block: Block, before: seq<Block>, t: Block, f: Block, x: Block)
    requires ShowsBut(g, b, block) && forall l <- g :: l < b.nextLabel
    requires b.Code(block.lbl) == block.instrs && b.Succs(block.lbl) == Labels(before)
    requires b.Preds(block.lbl) == Labels(block.preds) && b.LoopExit(block.lbl) == LabelOf(block.toForExit)
    requires block.succs == before + [t, f]
    requires t.lbl == b.nextLabel && f.lbl == b.nextLabel + 1 && x.lbl == b.nextLabel + 2
    requires t.instrs == f.instrs == x.instrs == []
    requires t.preds == [block] && f.preds == [block] && x.preds == [t, f]
    requires t.succs == [x] && f.succs == [x] && x.succs == []
    requires t.toForExit == f.toForExit == x.toForExit == block.toForExit
    ensures Shows(g[t.lbl := t][f.lbl := f][x.lbl := x], NewIf(b, block.lbl))
  {
    hide Labels, Shows, AddSuccs, AddBlock;
    LabelsOneTwo(t, f);
    LabelsOneTwo(block, x);
    LabelsOneTwo(x, x);
    LabelsAppend(before, [t, f]);
    SuccsShown(g, b, block, [t.lbl, f.lbl]);
    AddSuccsCounter(b, block.lbl, [t.lbl, f.lbl]);
    AddThreeShown(g, AddSuccs(b, block.lbl, [t.lbl, f.lbl]), t, f, x);
  }

  lemma IfBlocksLinked(g: map<Label, Block>, block: Block, before: seq<Block>, t: Block, f: Block, x: Block)
    requires LinkedBut(g, block) && Owns(g, block)
    requires OwnsAll(g, before) && NoDup(before) && block.succs == before + [t, f]
    requires OwnsAll(g, block.preds) && Owns(g, block.toForExit) && NoDup(block.preds) && block !in block.preds
    requires t.lbl !in g && f.lbl !in g && x.lbl !in g && t.lbl != f.lbl && t.lbl != x.lbl && f.lbl != x.lbl
    requires t.preds == [block] && f.preds == [block] && x.preds == [t, f]
    requires t.succs == [x] && f.succs == [x] && x.succs == []
    requires t.toForExit == f.toForExit == x.toForExit == block.toForExit
    ensures WellLinked(g[t.lbl := t][f.lbl := f][x.lbl := x])
  {
    var h := g[t.lbl := t][f.lbl := f][x.lbl := x];
    SuccsSound(g, h, block, before, [t, f]);
    LinkThree(g, h, block, t, f, x);
  }

  /** Well linked, except perhaps one block. */
  ghost predicate LinkedBut(g: map<Label, Block>, block: Block)
    reads g.Values
  {
    forall l <- g :: g[l].lbl == l && (g[l] != block ==> Sound(g, g[l]))
  }

  lemma SuccsSound(g: map<Label, Block>, h: map<Label, Block>, block: Block, before: seq<Block>, more: seq<Block>)
    requires forall l <- g :: l in h && h[l] == g[l]
    requires OwnsAll(g, before) && NoDup(before) && NoDup(more) && OwnsAll(h, more) && forall m <- more :: m.lbl !in g
    requires block.succs == before + more
    requires OwnsAll(g, block.preds) && Owns(g, block.toForExit) && NoDup(block.preds) && block !in block.preds
    ensures Sound(h, block)
  {
    forall i, j | 0 <= i < j < |block.succs| ensures block.succs[i] != block.succs[j] {
      if i < |before| {
        assert block.succs[i] == before[i] && before[i] in before;
        if j >= |before| { assert block.succs[j] == more[j - |before|] && more[j - |before|] in more; }
      } else {
        assert block.succs[i] == more[i - |before|] && block.succs[j] == more[j - |before|];
      }
    }
  }

  lemma LinkThree(g: map<Label, Block>, h: map<Label, Block>, block: Block, t: Block, f: Block, x: Block)
    requires LinkedBut(g, block) && Sound(h, block)
    requires t.lbl !in g && f.lbl !in g && x.lbl !in g && t.lbl != f.lbl && t.lbl != x.lbl && f.lbl != x.lbl
    requires h == g[t.lbl := t][f.lbl := f][x.lbl := x]
    requires Sound(h, t) && Sound(h, f) && Sound(h, x)
    ensures WellLinked(h)
  {
    forall l <- h ensures h[l].lbl == l && Sound(h, h[l]) {
      if l in g {
        assert h[l] == g[l];
        if g[l] != block { assert Sound(g, g[l]); }
      }
    }
  }

  lemma AddThreeShown(g: map<Label, Block>, b0: Build, t: Block, f: Block, x: Block)
    requires Shows(g, b0) && forall l <- g :: l < b0.nextLabel
    requires t.lbl == b0.nextLabel && f.lbl == b0.nextLabel + 1 && x.lbl == b0.nextLabel + 2
    requires t.instrs == f.instrs == x.instrs == []
    ensures var b1 := AddBlock(b0, Labels(t.preds), Labels(t.succs), LabelOf(t.toForExit));
      var b2 := AddBlock(b1, Labels(f.preds), Labels(f.succs), LabelOf(f.toForExit));
      Shows(g[t.lbl := t][f.lbl := f][x.lbl := x], AddBlock(b2, Labels(x.preds), Labels(x.succs), LabelOf(x.toForExit)))
  {
    hide Shows, Labels, LabelOf;
    var b1 := AddBlock(b0, Labels(t.preds), Labels(t.succs), LabelOf(t.toForExit));
    var b2 := AddBlock(b1, Labels(f.preds), Labels(f.succs), LabelOf(f.toForExit));
    AddShown(g, b0, t);
    AddShown(g[t.lbl := t], b1, f);
    AddShown(g[t.lbl := t][f.lbl := f], b2, x);
  }

  // ----- The blocks of a loop -----

  method LinkFor(ghost g: map<Label, Block>, prev: Block, prog: Program, ghost b: Build)
    returns (entry: Block, body: Block, exit: Block)
    requires WellLinked(g) && Shows(g, b) && Owns(g, prev) && forall l <- g :: l < b.nextLabel
    requires prog.labelCounter == b.nextLabel
    modifies prog`labelCounter, prev`succs
    ensures fresh(entry) && fresh(body) && fresh(exit) && prog.labelCounter == b.nextLabel + 3
    ensures entry.lbl == b.nextLabel && body.lbl == b.nextLabel + 1 && exit.lbl == b.nextLabel + 2
    ensures var h := g[entry.lbl := entry][body.lbl := body][exit.lbl := exit];
      WellLinked(h) && Shows(h, NewFor(b, prev.lbl))
  {
    hide Labels, NewFor, Shows, AddSuccs, Sound, NoDup, OwnsAll;
    AllShown(g, b);
    SoundParts(g, prev);
    entry, body, exit := NewForBlock(prev, prog);
    assert ShowsBut(g, b, prev);
    assert LinkedBut(g, prev);
    hide ShowsBut, LinkedBut, ShowsAt, Sound, WellLinked;
    ForBlocksShown(g, b, prev, old(prev.succs), entry, body, exit);
    ForBlocksLinked(g, prev, old(prev.succs), entry, body, exit);
  }

  lemma SoundParts(g: map<Label, Block>, b: Block)
    requires WellLinked(g) && Owns(g, b)
    ensures OwnsAll(g, b.succs) && OwnsAll(g, b.preds) && Owns(g, b.toForExit)
    ensures NoDup(b.succs) && NoDup(b.preds) && b !in b.preds
  {
  }

  lemma ForBlocksShown(g: map<Label, Block>, b: Build, prev: Block, before: seq<Block>, entry: Block, body: Block,
                       exit: Block)
    requires ShowsBut(g, b, prev) && forall l <- g :: l < b.nextLabel
    requires b.Code(prev.lbl) == prev.instrs && b.Succs(prev.lbl) == Labels(before)
    requires b.Preds(prev.lbl) == Labels(prev.preds) && b.LoopExit(prev.lbl) == LabelOf(prev.toForExit)
    requires prev.succs == before + [entry]
    requires entry.lbl == b.nextLabel && body.lbl == b.nextLabel + 1 && exit.lbl == b.nextLabel + 2
    requires entry.instrs == body.instrs == exit.instrs == []
    requires entry.preds == [] && body.preds == [entry] && exit.preds == [entry]
    requires entry.succs == [body, exit] && body.succs == [entry] && exit.succs == []
    requires entry.toForExit == body.toForExit == exit && exit.toForExit == null
    ensures Shows(g[entry.lbl := entry][body.lbl := body][exit.lbl := exit], NewFor(b, prev.lbl))
  {
    hide Labels, Shows, AddSuccs, AddBlock;
    LabelsOneTwo(entry, entry);
    LabelsAppend(before, [entry]);
    SuccsShown(g, b, prev, [entry.lbl]);
    LabelsOneTwo(body, exit);
    AddSuccsCounter(b, prev.lbl, [entry.lbl]);
    AddThreeShown(g, AddSuccs(b, prev.lbl, [entry.lbl]), entry, body, exit);
  }

  lemma ForBlocksLinked(g: map<Label, Block>, prev: Block, before: seq<Block>, entry: Block, body: Block, exit: Block)
    requires LinkedBut(g, prev) && Owns(g, prev)
    requires OwnsAll(g, before) && NoDup(before) && prev.succs == before + [entry]
    requires OwnsAll(g, prev.preds) && Owns(g, prev.toForExit) && NoDup(prev.preds) && prev !in prev.preds
    requires entry.lbl !in g && body.lbl !in g && exit.lbl !in g
    requires entry.lbl != body.lbl && entry.lbl != exit.lbl && body.lbl != exit.lbl
    requires entry.preds == [] && body.preds == [entry] && exit.preds == [entry]
    requires entry.succs == [body, exit] && body.succs == [entry] && exit.succs == []
    requires entry.toForExit == body.toForExit == exit && exit.toForExit == null
    ensures WellLinked(g[entry.lbl := entry][body.lbl := body][exit.lbl := exit])
  {
    var h := g[entry.lbl := entry][body.lbl := body][exit.lbl := exit];
    SuccsSound(g, h, prev, before, [entry]);
    LinkThree(g, h, prev, entry, body, exit);
  }

  lemma NewForCounters(b: Build, l: Label)
    ensures NewFor(b, l).nextLabel == b.nextLabel + 3 && NewFor(b, l).nextReg == b.nextReg
  {
  }

  /** The blocks of one function, by label. */
  class FuncDef {
    var blocks: map<Label, Block>
    const entry: Block

    constructor (entry: Block)
      ensures blocks == map[] && this.entry == entry
    {
      blocks, this.entry := map[], entry;
    }

    method AddBlock(l: Label, b: Block)
      modifies this`blocks
      ensures blocks == old(blocks)[l := b]
    {
      blocks := blocks[l := b];
    }

    /** The function is the graph b; its blocks are well linked. */
    ghost predicate Is(b: Build)
      reads this, blocks.Values
    {
      WellLinked(blocks) && Shows(blocks, b) && forall l <- blocks :: l < b.nextLabel
    }

    /** The blocks of a conditional, linked after block and registered. */
    method PlaceIf(block: Block, prog: Program, ghost b: Build) returns (t: Block, f: Block, x: Block)
      requires Is(b) && prog.InStep(b) && Owns(blocks, block)
      modifies this, prog, blocks.Values
      ensures Is(NewIf(b, block.lbl)) && prog.InStep(NewIf(b, block.lbl))
      ensures Keeps(old(blocks), blocks) && fresh(blocks.Values - old(blocks.Values))
      ensures Owns(blocks, block) && Owns(blocks, t) && Owns(blocks, f) && Owns(blocks, x)
      ensures t.lbl == b.nextLabel && f.lbl == b.nextLabel + 1 && x.lbl == b.nextLabel + 2
    {
      hide NewIf, Shows, WellLinked, Sound, ShowsAt, ShowsBut, LinkedBut, OwnsAll, Labels, LabelOf, AddSuccs;
      t, f, x := LinkIf(blocks, block, prog, b);
      NewIfCounters(b, block.lbl);
      AddBlock(t.lbl, t);
      AddBlock(f.lbl, f);
      AddBlock(x.lbl, x);
    }

    /** The blocks of a loop, linked after prev and registered. */
    method PlaceFor(prev: Block, prog: Program, ghost b: Build) returns (entry: Block, body: Block, exit: Block)
      requires Is(b) && prog.InStep(b) && Owns(blocks, prev)
      modifies this, prog, blocks.Values
      ensures Is(NewFor(b, prev.lbl)) && prog.InStep(NewFor(b, prev.lbl))
      ensures Keeps(old(blocks), blocks) && fresh(blocks.Values - old(blocks.Values))
      ensures Owns(blocks, prev) && Owns(blocks, entry) && Owns(blocks, body) && Owns(blocks, exit)
      ensures entry.lbl == b.nextLabel && body.lbl == b.nextLabel + 1 && exit.lbl == b.nextLabel + 2
    {
      hide NewFor, Shows, WellLinked, Sound, ShowsAt, ShowsBut, LinkedBut, OwnsAll, Labels, LabelOf, AddSuccs;
      entry, body, exit := LinkFor(blocks, prev, prog, b);
      NewForCounters(b, prev.lbl);
      AddBlock(entry.lbl, entry);
      AddBlock(body.lbl, body);
      AddBlock(exit.lbl, exit);
    }

    /** Instructions at the end of one block, once the registers up to r are used. */
    method Append(block: Block, ins: seq<Instr>, ghost b: Build, ghost r: nat)
      requires Is(b) && Owns(blocks, block)
      modifies block`instrs
      ensures Is(b.Append(block.lbl, ins).(nextReg := r))
    {
      hide Labels, LabelOf, Shows, NoDup, OwnsAll, Build.Succs, Build.Preds, Build.LoopExit;
      AllShown(blocks, b);
      block.AddInstructions(ins);
      assert ShowsBut(blocks, b, block);
      InstrsShown(blocks, b, block, ins, r);
    }
  }

  /** Every block registered before still is. */
  ghost predicate Keeps(g: map<Label, Block>, h: map<Label, Block>) {
    forall l <- g :: l in h && h[l] == g[l]
  }
}
