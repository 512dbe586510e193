/** The clean-up after translation: truncation of blocks, and removal of blocks no branch leads to, with the links
    between blocks edited in place. */
module Optimise {
  import opened Words
  import opened Ir
  import opened IrSemantics
  import opened Translation
  import opened Reachability
  import opened Flow
  import opened Shape
  import opened DeadCode
  import opened RemovalRounds
  import opened Cfg
  import opened BlockGraph
  import opened BreadthFirst

  // ----- Removing one block -----

  function Without(s: seq<Block>, b: Block): seq<Block> {
    if s == [] then [] else if s[0] == b then Without(s[1..], b) else [s[0]] + Without(s[1..], b)
  }

  lemma {:induction false} WithoutKeeps(s: seq<Block>, b: Block)
    ensures forall x :: x in Without(s, b) <==> x in s && x != b
    ensures NoDup(s) ==> NoDup(Without(s, b))
  {
    if s != [] {
      WithoutKeeps(s[1..], b);
      assert forall x :: x in s <==> x == s[0] || x in s[1..];
      if NoDup(s) {
        assert s[0] !in s[1..];
        assert NoDup(s[1..]);
      }
    }
  }

  lemma {:induction false} WithoutAbsent(s: seq<Block>, b: Block)
    requires b !in s
    ensures Without(s, b) == s
  {
    if s != [] { WithoutAbsent(s[1..], b); }
  }

  lemma {:induction false} WithoutAt(s: seq<Block>, b: Block, i: nat)
    requires NoDup(s) && i < |s| && s[i] == b
    ensures Without(s, b) == s[..i] + s[i + 1..]
    decreases i
  {
    if i == 0 {
      assert b !in s[1..];
      WithoutAbsent(s[1..], b);
    } else {
      assert NoDup(s[1..]);
      WithoutAt(s[1..], b, i - 1);
      assert s[..i] == [s[0]] + s[1..][..i - 1];
    }
  }

  /** Deletes b from a list while ranging over it: the range goes on over the same backing array, whose tail has
      moved down by one. With no duplicates it never meets b again. */
  method Excise(s: seq<Block>, b: Block) returns (r: seq<Block>)
    requires NoDup(s)
    ensures r == Without(s, b)
  {
    var backing := s;
    r := s;
    ghost var hit := false;
    for i := 0 to |s|
      invariant |backing| == |s|
      invariant !hit ==> backing == s && r == s && b !in s[..i]
      invariant hit ==> r == Without(s, b) && forall j :: i <= j < |s| ==> backing[j] != b
    {
      if backing[i] == b {
        WithoutAt(s, b, i);
        assert i + 1 < |s| ==> s[|s| - 1] != b;
        r := r[..i] + r[i + 1..];
        backing := backing[..i] + backing[i + 1..] + [backing[|s| - 1]];
        hit := true;
      }
    }
    if !hit { WithoutAbsent(s, b); }
  }

  /** The blocks b is linked from no longer link to it, and those it links to no longer link back; nothing else
      changes. */
  method RemoveBlock(func: FuncDef, name: Label, ghost g: map<Label, Block>)
    requires name in func.blocks && WellLinked(g) && name in g && g[name] == func.blocks[name]
    modifies func`blocks, g.Values
    ensures func.blocks == old(func.blocks) - {name}
    ensures forall l <- g :: g[l].instrs == old(g[l].instrs) && g[l].toForExit == old(g[l].toForExit)
    ensures forall l <- g ::
      g[l].succs == (if g[l] in old(g[name].preds) then Without(old(g[l].succs), g[name]) else old(g[l].succs))
    ensures forall l <- g ::
      g[l].preds == (if g[l] in old(g[name].succs) then Without(old(g[l].preds), g[name]) else old(g[l].preds))
  {
    hide WellLinked;
    var b := func.blocks[name];
    assert forall l <- g :: g[l].lbl == l && Sound(g, g[l]) by { LinkedSound(g); }
    Unlink(b, g);
    Backlink(b, g);
    func.blocks := func.blocks - {name};
  }

  lemma LinkedSound(g: map<Label, Block>)
    requires WellLinked(g)
    ensures forall l <- g :: g[l].lbl == l && Sound(g, g[l])
  {
  }

  lemma NoDupAt(bs: seq<Block>, i: nat)
    requires NoDup(bs) && i < |bs|
    ensures bs[i] !in bs[..i]
  {
  }

  method Unlink(b: Block, ghost g: map<Label, Block>)
    requires WellLinked(g) && b.lbl in g && g[b.lbl] == b
    modifies g.Values
    ensures forall l <- g ::
      g[l].instrs == old(g[l].instrs) && g[l].preds == old(g[l].preds) && g[l].toForExit == old(g[l].toForExit)
    ensures forall l <- g ::
      g[l].succs == (if g[l] in old(b.preds) then Without(old(g[l].succs), b) else old(g[l].succs))
  {
    LinkedSound(g);
    hide WellLinked, NoDup, Without;
    var preds := b.preds;
    for i := 0 to |preds|
      invariant forall l <- g ::
        g[l].instrs == old(g[l].instrs) && g[l].preds == old(g[l].preds) && g[l].toForExit == old(g[l].toForExit)
      invariant forall l <- g ::
        g[l].succs == (if g[l] in preds[..i] then Without(old(g[l].succs), b) else old(g[l].succs))
    {
      var pred := preds[i];
      assert pred in b.preds && Owns(g, pred);
      NoDupAt(preds, i);
      pred.succs := Excise(pred.succs, b);
      assert preds[..i + 1] == preds[..i] + [pred];
    }
    assert preds[..|preds|] == preds;
  }

  method Backlink(b: Block, ghost g: map<Label, Block>)
    requires b.lbl in g && g[b.lbl] == b && OwnsAll(g, b.succs) && NoDup(b.succs)
    requires forall l <- g :: g[l].lbl == l && NoDup(g[l].preds)
    modifies g.Values
    ensures forall l <- g ::
      g[l].instrs == old(g[l].instrs) && g[l].succs == old(g[l].succs) && g[l].toForExit == old(g[l].toForExit)
    ensures forall l <- g ::
      g[l].preds == (if g[l] in old(b.succs) then Without(old(g[l].preds), b) else old(g[l].preds))
  {
    hide NoDup, Without;
    var succs := b.succs;
    for i := 0 to |succs|
      invariant forall l <- g ::
        g[l].instrs == old(g[l].instrs) && g[l].succs == old(g[l].succs) && g[l].toForExit == old(g[l].toForExit)
      invariant forall l <- g ::
        g[l].preds == (if g[l] in succs[..i] then Without(old(g[l].preds), b) else old(g[l].preds))
    {
      var succ := succs[i];
      assert succ in b.succs && Owns(g, succ);
      NoDupAt(succs, i);
      succ.preds := Excise(succ.preds, b);
      assert succs[..i + 1] == succs[..i] + [succ];
    }
    assert succs[..|succs|] == succs;
  }

  // ----- Rounds -----

  ghost function CodeOf(g: map<Label, Block>): Code
    reads g.Values
  {
    map l | l in g :: g[l].instrs
  }

  /** A link is only dropped when the block it leads to is no longer registered. */
  ghost predicate LinksKept(g: map<Label, Block>, orig: map<Label, seq<Block>>, registered: set<Label>)
    reads g.Values
  {
    orig.Keys == g.Keys && forall l <- g, x <- orig[l] :: x.lbl in registered ==> x in g[l].succs
  }

  /** Part way through the clean-up of the graph b, whose blocks are g: what is still registered. */
  ghost predicate Pruned(func: FuncDef, g: map<Label, Block>, orig: map<Label, seq<Block>>, b: Build, root: Label)
    reads func, g.Values
  {
    && func.blocks.Keys <= g.Keys == b.code.Keys && (forall l <- func.blocks :: func.blocks[l] == g[l])
    && WellLinked(g)
    && (forall l <- g :: g[l].instrs == Truncate(b.Code(l)))
    && (forall l :: Live(b.code, root, l) ==> l in func.blocks)
    && LinksKept(g, orig, func.blocks.Keys)
  }

  /** The links after a removal, given those before. */
  ghost predicate LessOf(g: map<Label, Block>, succs: map<Label, seq<Block>>, preds: map<Label, seq<Block>>, b: Block)
    reads g.Values
  {
    && succs.Keys == preds.Keys == g.Keys
    && (forall l <- g :: g[l].succs == succs[l] || g[l].succs == Without(succs[l], b))
    && (forall l <- g :: g[l].preds == preds[l] || g[l].preds == Without(preds[l], b))
  }

  lemma LessLinked(g: map<Label, Block>, succs: map<Label, seq<Block>>, preds: map<Label, seq<Block>>, b: Block)
    requires LessOf(g, succs, preds, b)
    requires forall l <- g :: g[l].lbl == l && OwnsAll(g, succs[l]) && OwnsAll(g, preds[l]) && Owns(g, g[l].toForExit)
    requires forall l <- g :: NoDup(succs[l]) && NoDup(preds[l]) && g[l] !in preds[l]
    ensures WellLinked(g)
  {
    hide NoDup, Without;
    forall l <- g ensures Sound(g, g[l]) {
      WithoutKeeps(succs[l], b);
      WithoutKeeps(preds[l], b);
    }
  }

  lemma LessKept(g: map<Label, Block>, succs: map<Label, seq<Block>>, preds: map<Label, seq<Block>>, b: Block,
                 orig: map<Label, seq<Block>>, registered: set<Label>)
    requires LessOf(g, succs, preds, b) && orig.Keys == g.Keys
    requires forall l <- g, x <- orig[l] :: x.lbl in registered ==> x in succs[l]
    ensures LinksKept(g, orig, registered - {b.lbl})
  {
    hide NoDup, Without;
    forall l <- g, x <- orig[l] | x.lbl in registered - {b.lbl} ensures x in g[l].succs { WithoutKeeps(succs[l], b); }
  }

  method RemoveLinked(func: FuncDef, name: Label, ghost g: map<Label, Block>, ghost orig: map<Label, seq<Block>>,
                      ghost registered: set<Label>)
    requires name in func.blocks && WellLinked(g) && name in g && g[name] == func.blocks[name]
    requires LinksKept(g, orig, registered)
    modifies func`blocks, g.Values
    ensures func.blocks == old(func.blocks) - {name} && WellLinked(g) && LinksKept(g, orig, registered - {name})
    ensures forall l <- g :: g[l].instrs == old(g[l].instrs)
  {
    hide Without, NoDup;
    ghost var succs := map l | l in g :: g[l].succs;
    ghost var preds := map l | l in g :: g[l].preds;
    LinkedSound(g);
    RemoveBlock(func, name, g);
    assert LessOf(g, succs, preds, g[name]);
    LessLinked(g, succs, preds, g[name]);
    LessKept(g, succs, preds, g[name], orig, registered);
  }

  method RemoveOne(func: FuncDef, name: Label, ghost g: map<Label, Block>, ghost orig: map<Label, seq<Block>>,
                   ghost b: Build, ghost root: Label)
    requires Pruned(func, g, orig, b, root) && name in func.blocks && !Live(b.code, root, name)
    modifies func`blocks, g.Values
    ensures Pruned(func, g, orig, b, root) && func.blocks == old(func.blocks) - {name}
  {
    hide Live, Truncate, Build.Code, WellLinked, LinksKept;
    RemoveLinked(func, name, g, orig, func.blocks.Keys);
    assert old(func.blocks).Keys - {name} == func.blocks.Keys;
  }

  // ----- What a round has seen -----

  ghost predicate SeenIn(u: Label, ins: seq<Instr>, v: Label) {
    exists i :: 0 <= i < |ins| && Sees(u, ins[i], v)
  }

  /** The branch targets of one block, except a branch of the block to itself. */
  method BlockTargets(block: Block) returns (seen: set<Label>)
    ensures forall v :: v in seen <==> SeenIn(block.lbl, block.instrs, v)
  {
    seen := {};
    for i := 0 to |block.instrs|
      invariant forall v :: v in seen <==> SeenIn(block.lbl, block.instrs[..i], v)
    {
      var instr := block.instrs[i];
      ghost var before := seen;
      if instr.Br? {
        if instr.target != block.lbl { seen := seen + {instr.target}; }
      } else if instr.BrCond? {
        seen := seen + {instr.iftrue} + {instr.iffalse};
      }
      forall v ensures v in seen <==> SeenIn(block.lbl, block.instrs[..i + 1], v) {
        SeenOneMore(block.lbl, block.instrs, i, v);
      }
    }
    assert block.instrs[..|block.instrs|] == block.instrs;
  }

  lemma SeenOneMore(u: Label, ins: seq<Instr>, i: nat, v: Label)
    requires i < |ins|
    ensures SeenIn(u, ins[..i + 1], v) <==> SeenIn(u, ins[..i], v) || Sees(u, ins[i], v)
  {
    if SeenIn(u, ins[..i], v) {
      var j :| 0 <= j < i && Sees(u, ins[..i][j], v);
      assert ins[..i + 1][j] == ins[..i][j];
    }
    if Sees(u, ins[i], v) { assert ins[..i + 1][i] == ins[i]; }
    if SeenIn(u, ins[..i + 1], v) {
      var j :| 0 <= j < i + 1 && Sees(u, ins[..i + 1][j], v);
      if j < i { assert ins[..i][j] == ins[..i + 1][j]; }
    }
  }

  ghost predicate SeenAmong(g: map<Label, Block>, keys: set<Label>, root: Label, v: Label)
    reads g.Values
  {
    v == root || exists u :: u in keys && u in g && SeenIn(u, g[u].instrs, v)
  }

  /** All labels a round keeps, the blocks being visited in any order. */
  method SeenBlocks(func: FuncDef, root: Label) returns (seen: set<Label>)
    requires forall l <- func.blocks :: func.blocks[l].lbl == l
    ensures forall v :: v in seen <==> SeenAmong(func.blocks, func.blocks.Keys, root, v)
  {
    hide SeenIn;
    seen := {root};
    var keys := func.blocks.Keys;
    while keys != {}
      invariant keys <= func.blocks.Keys
      invariant forall v :: v in seen <==> SeenAmong(func.blocks, func.blocks.Keys - keys, root, v)
    {
      var l :| l in keys;
      var more := BlockTargets(func.blocks[l]);
      ghost var done := func.blocks.Keys - keys;
      keys := keys - {l};
      assert func.blocks.Keys - keys == done + {l};
      seen := seen + more;
    }
    assert func.blocks.Keys - {} == func.blocks.Keys;
  }

  /** Those are the labels the round is specified to keep. */
  lemma SeenAmongIsSeen(func: FuncDef, g: map<Label, Block>, orig: map<Label, seq<Block>>, b: Build, root: Label,
                        v: Label)
    requires Pruned(func, g, orig, b, root)
    ensures SeenAmong(func.blocks, func.blocks.Keys, root, v) <==> Seen(Cut(b.code), func.blocks.Keys, root, v)
  {
    hide WellLinked, LinksKept, Live, Truncate;
    var code' := Cut(b.code);
    var keys := func.blocks.Keys;
    if v != root && SeenAmong(func.blocks, keys, root, v) {
      var u :| u in keys && u in func.blocks && SeenIn(u, func.blocks[u].instrs, v);
      assert func.blocks[u].instrs == code'[u];
    }
    if v != root && Seen(code', keys, root, v) {
      var u, i :| u in keys && u in code' && 0 <= i < |code'[u]| && Sees(u, code'[u][i], v);
      assert func.blocks[u].instrs == code'[u];
      assert SeenIn(u, func.blocks[u].instrs, v);
    }
  }

  /** A live block is among them while all live blocks are still registered. */
  lemma LiveIsKept(func: FuncDef, g: map<Label, Block>, orig: map<Label, seq<Block>>, b: Build, root: Label, l: Label)
    requires Pruned(func, g, orig, b, root) && Live(b.code, root, l)
    ensures SeenAmong(func.blocks, func.blocks.Keys, root, l)
  {
    hide Live, Seen, SeenAmong;
    SeenAmongIsSeen(func, g, orig, b, root, l);
    LiveIsSeen(b.code, Cut(b.code), func.blocks.Keys, root, l);
  }

  method RemoveUnseen(func: FuncDef, seen: set<Label>, ghost g: map<Label, Block>,
                      ghost orig: map<Label, seq<Block>>, ghost b: Build, ghost root: Label)
    requires Pruned(func, g, orig, b, root) && forall l :: Live(b.code, root, l) ==> l in seen
    modifies func`blocks, g.Values
    ensures Pruned(func, g, orig, b, root) && func.blocks.Keys == old(func.blocks.Keys) * seen
  {
    hide Pruned, Live;
    var keys := func.blocks.Keys;
    while keys != {}
      invariant keys <= func.blocks.Keys <= old(func.blocks.Keys)
      invariant forall l <- old(func.blocks.Keys) :: l !in keys ==> (l in func.blocks <==> l in seen)
      invariant Pruned(func, g, orig, b, root)
    {
      var l :| l in keys;
      keys := keys - {l};
      if l !in seen { RemoveOne(func, l, g, orig, b, root); }
    }
  }

  const ROUNDS := 5

  lemma PrunedLabels(func: FuncDef, g: map<Label, Block>, orig: map<Label, seq<Block>>, b: Build, root: Label)
    requires Pruned(func, g, orig, b, root)
    ensures forall l <- func.blocks :: func.blocks[l].lbl == l
  {
  }

  method RemoveDeadBlocks(func: FuncDef, root: Label, ghost g: map<Label, Block>, ghost orig: map<Label, seq<Block>>,
                          ghost b: Build)
    requires Pruned(func, g, orig, b, root) && func.blocks.Keys == b.code.Keys
    modifies func`blocks, g.Values
    ensures Pruned(func, g, orig, b, root) && func.blocks.Keys == Survivors(b.code, root, ROUNDS)
    ensures NoSelfTest(b.code) ==> LeftByWalks(func.blocks.Keys, b.code, root)
  {
    hide Pruned, Live, SeenAmong, Seen, LeftByWalks, NoSelfTest;
    for i := 0 to ROUNDS
      invariant Pruned(func, g, orig, b, root) && func.blocks.Keys == Survivors(b.code, root, i)
    {
      PrunedLabels(func, g, orig, b, root);
      var seen := SeenBlocks(func, root);
      forall l | Live(b.code, root, l) ensures l in seen { LiveIsKept(func, g, orig, b, root, l); }
      forall l ensures l in seen <==> Seen(Cut(b.code), func.blocks.Keys, root, l) {
        SeenAmongIsSeen(func, g, orig, b, root, l);
      }
      RemoveUnseen(func, seen, g, orig, b, root);
    }
    if NoSelfTest(b.code) { SurvivorsLeftByWalks(b.code, root); }
  }

  /** Of the blocks of the code, those at the end of a walk of five branches between different blocks, or of fewer from
      the root. */
  ghost predicate LeftByWalks(registered: set<Label>, code: Code, root: Label) {
    forall l :: l in registered <==> l in code && exists walk :: LeadsTo(Cut(code), root, walk, l, 5)
  }

  lemma SurvivorsLeftByWalks(code: Code, root: Label)
    requires NoSelfTest(code)
    ensures LeftByWalks(Survivors(code, root, ROUNDS), code, root)
  {
    hide LeadsTo, Survivors, NoSelfTest;
    forall l
      ensures l in Survivors(code, root, 5) <==> l in code && exists walk :: LeadsTo(Cut(code), root, walk, l, 5)
    {
      SurvivorsByWalks(code, root, 5, l);
    }
  }

  // ----- Truncation -----

  /** Everything after the first terminator goes. */
  method CutBlock(block: Block)
    modifies block`instrs
    ensures block.instrs == Truncate(old(block.instrs)) && block.instrs <= old(block.instrs)
    ensures forall j :: 0 <= j < |block.instrs| - 1 ==> !block.instrs[j].IsTerminator()
    ensures if exists i <- old(block.instrs) :: i.IsTerminator()
            then block.instrs != [] && block.instrs[|block.instrs| - 1].IsTerminator()
            else block.instrs == old(block.instrs)
  {
    CutAtFirst(block.instrs);
    var instrs := block.instrs;
    for i := 0 to |instrs|
      invariant block.instrs == instrs == old(block.instrs)
      invariant i <= |instrs| && forall j :: 0 <= j < i ==> !instrs[j].IsTerminator() || j == |instrs| - 1
    {
      if instrs[i].IsTerminator() && i != |instrs| - 1 {
        block.instrs := instrs[..i + 1];
        return;
      }
    }
  }

  /** The cut ends with the first terminator, if there is one. */
  lemma CutAtFirst(ins: seq<Instr>)
    ensures Truncate(ins) <= ins && forall j :: 0 <= j < |Truncate(ins)| - 1 ==> !Truncate(ins)[j].IsTerminator()
    ensures if exists i <- ins :: i.IsTerminator()
            then Truncate(ins) != [] && Truncate(ins)[|Truncate(ins)| - 1].IsTerminator()
            else Truncate(ins) == ins
  {
    if Terminated(ins) { assert ins[FirstExit(ins)] in ins; }
  }

  method CutBlocks(func: FuncDef, ghost b: Build)
    requires func.Is(b)
    modifies func.blocks.Values
    ensures WellLinked(func.blocks)
    ensures forall l <- func.blocks ::
      func.blocks[l].instrs == Truncate(b.Code(l)) && func.blocks[l].succs == old(func.blocks[l].succs)
  {
    hide Truncate, Labels, LabelOf;
    AllShown(func.blocks, b);
    LinkedSound(func.blocks);
    CutAll(func, b);
  }

  method CutAll(func: FuncDef, ghost b: Build)
    requires forall l <- func.blocks :: func.blocks[l].lbl == l && func.blocks[l].instrs == b.Code(l)
    modifies func.blocks.Values
    ensures forall l <- func.blocks :: func.blocks[l].instrs == Truncate(b.Code(l))
    ensures forall l <- func.blocks ::
      && func.blocks[l].succs == old(func.blocks[l].succs) && func.blocks[l].preds == old(func.blocks[l].preds)
      && func.blocks[l].toForExit == old(func.blocks[l].toForExit)
  {
    hide Truncate;
    ghost var g := func.blocks;
    var keys := func.blocks.Keys;
    while keys != {}
      invariant keys <= g.Keys && func.blocks == g
      invariant forall l <- g :: g[l].instrs == (if l in keys then b.Code(l) else Truncate(b.Code(l)))
      invariant forall l <- g ::
        g[l].succs == old(g[l].succs) && g[l].preds == old(g[l].preds) && g[l].toForExit == old(g[l].toForExit)
    {
      var l :| l in keys;
      keys := keys - {l};
      CutBlock(func.blocks[l]);
    }
  }

  /** Truncation, then five rounds of removal. */
  method EliminateDeadCode(func: FuncDef, ghost b: Build) returns (ghost g: map<Label, Block>)
    requires func.Is(b) && Owns(func.blocks, func.entry)
    requires forall l :: Live(b.code, func.entry.lbl, l) ==> l in b.code
    modifies func`blocks, func.blocks.Values
    ensures g == old(func.blocks) && WellLinked(g) && forall l <- func.blocks :: l in g && func.blocks[l] == g[l]
    ensures Eliminated(b, func.entry.lbl, func.blocks.Keys, CodeOf(func.blocks), EdgesOf(g))
    ensures func.blocks.Keys == Survivors(b.code, func.entry.lbl, ROUNDS)
    ensures NoSelfTest(b.code) ==> LeftByWalks(func.blocks.Keys, b.code, func.entry.lbl)
  {
    hide *;
    g := func.blocks;
    ghost var orig := OrigLinks(func, b);
    CutBlocks(func, b);
    CutIsPruned(func, g, orig, b, func.entry.lbl);
    RemoveDeadBlocks(func, func.entry.lbl, g, orig, b);
    PrunedIsEliminated(func, g, orig, b, func.entry.lbl);
  }

  /** The links as they stand, and that the graph records them. */
  lemma OrigLinks(func: FuncDef, b: Build) returns (orig: map<Label, seq<Block>>)
    requires func.Is(b)
    ensures orig.Keys == func.blocks.Keys == b.code.Keys == b.succs.Keys
    ensures forall l <- func.blocks :: func.blocks[l].succs == orig[l] && b.Succs(l) == Labels(orig[l])
  {
    AllShown(func.blocks, b);
    orig := map l | l in func.blocks :: func.blocks[l].succs;
  }

  lemma CutIsPruned(func: FuncDef, g: map<Label, Block>, orig: map<Label, seq<Block>>, b: Build, root: Label)
    requires func.blocks == g && g.Keys == b.code.Keys && WellLinked(g) && forall l <- g ::
        g[l].instrs == Truncate(b.Code(l))
    requires orig.Keys == g.Keys && forall l <- g :: g[l].succs == orig[l]
    requires forall l :: Live(b.code, root, l) ==> l in b.code
    ensures Pruned(func, g, orig, b, root)
  {
    hide Live, Truncate, WellLinked;
  }

  lemma PrunedIsEliminated(func: FuncDef, g: map<Label, Block>, orig: map<Label, seq<Block>>, b: Build, root: Label)
    requires Pruned(func, g, orig, b, root) && b.succs.Keys == g.Keys && forall l <- g :: b.Succs(l) == Labels(orig[l])
    ensures WellLinked(g) && forall l <- func.blocks :: l in g && func.blocks[l] == g[l]
    ensures Eliminated(b, root, func.blocks.Keys, CodeOf(func.blocks), EdgesOf(g))
  {
    hide Live, Truncate, WellLinked, Labels;
    KeptEdges(g, orig, b, func.blocks.Keys);
  }

  lemma KeptEdges(g: map<Label, Block>, orig: map<Label, seq<Block>>, b: Build, registered: set<Label>)
    requires LinksKept(g, orig, registered) && b.succs.Keys == g.Keys && forall l <- g :: b.Succs(l) == Labels(orig[l])
    ensures EdgesKept(b.succs, EdgesOf(g), registered)
  {
    hide Labels;
    forall k: Label, v: Label | Recorded(b.succs, k, v) && v in registered ensures Recorded(EdgesOf(g), k, v) {
      var i :| 0 <= i < |orig[k]| && Labels(orig[k])[i] == v;
      var x := orig[k][i];
      assert x in g[k].succs;
      var j :| 0 <= j < |g[k].succs| && g[k].succs[j] == x;
      assert Labels(g[k].succs)[j] == v;
    }
  }
}
