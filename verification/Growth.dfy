/** What translating a statement leaves alone: it appends to the current block and to new blocks only. */
module Growth {
  import opened Words
  import opened Ir
  import opened IrSemantics
  import opened Translation
  import S = Source

  /** From b to c, code and recorded edges of every block only grow at the end; blocks below base other than cur
      are untouched, and every block added is numbered from base on. */
  ghost predicate Grows(base: Label, cur: Label, b: Build, c: Build) {
    && b.Valid() && c.Valid()
    && b.nextLabel <= c.nextLabel && b.nextReg <= c.nextReg
    && (forall l <- b.code :: l in c.code && b.code[l] <= c.code[l] && b.succs[l] <= c.succs[l])
    && (forall l <- b.code :: b.preds[l] == c.preds[l] && b.loopExit[l] == c.loopExit[l])
    && (forall l <- b.code :: l < base && l != cur ==> b.code[l] == c.code[l] && b.succs[l] == c.succs[l])
    && (forall l <- c.code :: l in b.code || l >= base)
  }

  lemma GrowsRefl(base: Label, cur: Label, b: Build)
    requires b.Valid()
    ensures Grows(base, cur, b, b)
  {
  }

  lemma PrefixTrans<T>(a: seq<T>, b: seq<T>, c: seq<T>)
    requires a <= b <= c
    ensures a <= c
  {
  }

  lemma GrowsTrans(base: Label, cur: Label, b: Build, c: Build, d: Build)
    requires Grows(base, cur, b, c) && Grows(base, cur, c, d)
    ensures Grows(base, cur, b, d)
  {
    forall l <- b.code ensures l in d.code && b.code[l] <= d.code[l] && b.succs[l] <= d.succs[l] {
      PrefixTrans(b.code[l], c.code[l], d.code[l]);
      PrefixTrans(b.succs[l], c.succs[l], d.succs[l]);
    }
  }

  lemma GrowsWeaken(base: Label, cur: Label, base': Label, cur': Label, b: Build, c: Build)
    requires Grows(base', cur', b, c) && base <= base' && (cur' == cur || cur' >= base)
    ensures Grows(base, cur, b, c)
  {
  }

  lemma AppendGrows(base: Label, cur: Label, b: Build, l: Label, ins: seq<Instr>)
    requires b.Valid() && l in b.code && (l == cur || l >= base)
    ensures Grows(base, cur, b, b.Append(l, ins))
  {
  }

  lemma ExprCounts(e: S.Expr, sc: S.Scope, n: nat)
    ensures n <= Expr(e, sc, n).next
    decreases e, 1
  {
    match e
    case Paren(e1) => ExprCounts(e1, sc, n);
    case Neg(e1) => ExprCounts(e1, sc, n);
    case Not(e1) => ExprCounts(e1, sc, n);
    case Binary(first, ops, rest) =>
      ExprCounts(first, sc, n);
      RestCounts(Expr(first, sc, n), ops, rest, sc);
    case Invoke(f, args) => ExprsCounts(args, sc, n);
    case _ =>
  }

  lemma ExprsCounts(es: seq<S.Expr>, sc: S.Scope, n: nat)
    ensures n <= Exprs(es, sc, n).next
    decreases es, 0
  {
    if es != [] {
      ExprCounts(es[0], sc, n);
      ExprsCounts(es[1..], sc, Expr(es[0], sc, n).next);
    }
  }

  lemma RestCounts(sofar: Emitted, ops: seq<S.Operator>, rest: seq<S.Expr>, sc: S.Scope)
    ensures sofar.next <= Rest(sofar, ops, rest, sc).next
    decreases rest, 0
  {
    if rest != [] && ops != [] {
      var r := Expr(rest[0], sc, sofar.next);
      ExprCounts(rest[0], sc, sofar.next);
      var c := Combine(ops[0], sofar.opnd, r.opnd, r.next);
      RestCounts(Emitted(sofar.ins + r.ins + c.ins, c.opnd, c.next), ops[1..], rest[1..], sc);
    }
  }

  lemma SimpleCounts(s: S.Stm, sc: S.Scope, n: nat)
    requires !s.Conditional? && !s.Loop?
    ensures n <= Simple(s, sc, n).1
  {
    match s
    case Assignment(_, e) => ExprCounts(e, sc, n);
    case Print(_, es) => ExprsCounts(es, sc, n);
    case Invocation(_, es) => ExprsCounts(es, sc, n);
    case Return(Some(e)) => ExprCounts(e, sc, n);
    case _ =>
  }

  lemma BranchGrows(base: Label, cur: Label, b: Build, at: Label, cond: S.Expr, sc: S.Scope, t: Label, f: Label,
                    isLoop: bool)
    requires b.Valid() && at in b.code && (at == cur || at >= base)
    ensures Grows(base, cur, b, Branch(b, at, cond, sc, t, f, isLoop))
  {
    ExprCounts(cond, sc, b.nextReg);
  }

  lemma AddBlockGrows(base: Label, cur: Label, b: Build, preds: seq<Label>, succs: seq<Label>, exit: Option<Label>)
    requires b.Valid() && base <= b.nextLabel
    ensures Grows(base, cur, b, AddBlock(b, preds, succs, exit))
    ensures b.nextLabel in AddBlock(b, preds, succs, exit).code
    ensures AddBlock(b, preds, succs, exit).nextLabel == b.nextLabel + 1
  {
  }

  lemma AddSuccsGrows(base: Label, cur: Label, b: Build, ls: seq<Label>)
    requires b.Valid() && cur in b.code
    ensures Grows(base, cur, b, AddSuccs(b, cur, ls))
    ensures AddSuccs(b, cur, ls).code.Keys == b.code.Keys && AddSuccs(b, cur, ls).nextLabel == b.nextLabel
  {
  }

  ghost predicate HasThree(l: Label, b: Build) {
    l in b.code && l + 1 in b.code && l + 2 in b.code && l + 3 <= b.nextLabel
  }

  lemma NewIfGrows(b: Build, cur: Label)
    requires b.Valid() && cur in b.code
    ensures Grows(b.nextLabel, cur, b, NewIf(b, cur))
    ensures var l := b.nextLabel; var c := NewIf(b, cur); l in c.code && l + 1 in c.code && l + 2 in c.code
  {
    hide AddBlock, AddSuccs, Grows, Build.Valid;
    var t, f, x := b.nextLabel, b.nextLabel + 1, b.nextLabel + 2;
    var exit := b.LoopExit(cur);
    AddSuccsGrows(t, cur, b, [t, f]);
    ThreeBlocksGrow(cur, b, AddSuccs(b, cur, [t, f]), [cur], [x], exit, [cur], [x], exit, [t, f], [], exit);
  }

  lemma NewForGrows(b: Build, cur: Label)
    requires b.Valid() && cur in b.code
    ensures Grows(b.nextLabel, cur, b, NewFor(b, cur))
    ensures var l := b.nextLabel; var c := NewFor(b, cur); l in c.code && l + 1 in c.code && l + 2 in c.code
  {
    hide AddBlock, AddSuccs, Grows, Build.Valid;
    var e, y, x := b.nextLabel, b.nextLabel + 1, b.nextLabel + 2;
    AddSuccsGrows(e, cur, b, [e]);
    ThreeBlocksGrow(cur, b, AddSuccs(b, cur, [e]), [], [y, x], Some(x), [e], [e], Some(x), [e], [], None);
  }

  lemma ThreeBlocksGrow(cur: Label, b: Build, b0: Build,
                        p1: seq<Label>, s1: seq<Label>, x1: Option<Label>,
                        p2: seq<Label>, s2: seq<Label>, x2: Option<Label>,
                        p3: seq<Label>, s3: seq<Label>, x3: Option<Label>)
    requires Grows(b.nextLabel, cur, b, b0) && b0.nextLabel == b.nextLabel
    ensures var b3 := AddBlock(AddBlock(AddBlock(b0, p1, s1, x1), p2, s2, x2), p3, s3, x3);
      && Grows(b.nextLabel, cur, b, b3)
      && HasThree(b.nextLabel, b3)
  {
    hide AddBlock, Grows, Build.Valid;
    var base := b.nextLabel;
    var b1 := AddBlock(b0, p1, s1, x1);
    var b2 := AddBlock(b1, p2, s2, x2);
    var b3 := AddBlock(b2, p3, s3, x3);
    GrowsKeys(base, cur, b, b0);
    AddBlockGrows(base, cur, b0, p1, s1, x1);
    GrowsKeys(base, cur, b0, b1);
    AddBlockGrows(base, cur, b1, p2, s2, x2);
    GrowsKeys(base, cur, b1, b2);
    AddBlockGrows(base, cur, b2, p3, s3, x3);
    GrowsTrans(base, cur, b, b0, b1);
    GrowsTrans(base, cur, b, b1, b2);
    GrowsTrans(base, cur, b, b2, b3);
    GrowsKeys(base, cur, b1, b2);
    GrowsKeys(base, cur, b2, b3);
  }

  /** A placed graph that grew from b, with the current block either cur or a new one. */
  ghost predicate GrewTo(b: Build, cur: Label, p: Placed) {
    Grows(b.nextLabel, cur, b, p.b) && p.cur in p.b.code && (p.cur == cur || p.cur >= b.nextLabel)
  }

  lemma StmGrows(s: S.Stm, cur: Label, b: Build, sc: S.Scope)
    requires b.Valid() && cur in b.code
    ensures GrewTo(b, cur, Stm(s, cur, b, sc))
    decreases s, 2
  {
    if s.Conditional? {
      IfGrows(s, cur, b, sc);
    } else if s.Loop? {
      ForGrows(s, cur, b, sc);
    } else {
      SimpleCounts(s, sc, b.nextReg);
      var (ins, next) := Simple(s, sc, b.nextReg);
      AppendGrows(b.nextLabel, cur, b, cur, ins);
    }
  }

  /** A conditional up to its branch. */
  lemma IfBranched(s: S.Stm, cur: Label, b: Build, sc: S.Scope)
    requires b.Valid() && cur in b.code && s.Conditional?
    ensures var t, f, x := b.nextLabel, b.nextLabel + 1, b.nextLabel + 2;
      var b0 := NewIf(b, cur);
      var b1 := Branch(b0, cur, s.cond, sc, t, f, false);
      && Grows(b.nextLabel, cur, b, b1) && b0.Valid() && b1.Valid() && x < b0.nextLabel
      && b.nextLabel <= b0.nextLabel <= b1.nextLabel
      && cur in b0.code && cur in b1.code && t in b1.code && f in b1.code && x in b1.code
  {
    hide *;
    var t, f, x := b.nextLabel, b.nextLabel + 1, b.nextLabel + 2;
    var b0 := NewIf(b, cur);
    var b1 := Branch(b0, cur, s.cond, sc, t, f, false);
    NewIfGrows(b, cur);
    GrowsKeys(t, cur, b, b0);
    BelowNext(b0, x);
    BranchGrows(t, cur, b0, cur, s.cond, sc, t, f, false);
    GrowsTrans(t, cur, b, b0, b1);
    GrowsKeys(t, cur, b0, b1);
  }

  /** A loop up to its branch. */
  lemma ForBranched(s: S.Stm, cur: Label, b: Build, sc: S.Scope)
    requires b.Valid() && cur in b.code && s.Loop?
    ensures var e, y, x := b.nextLabel, b.nextLabel + 1, b.nextLabel + 2;
      var b0 := NewFor(b, cur);
      var b1 := b0.Append(cur, [Br(e)]);
      var b2 := Branch(b1, e, s.cond, sc, y, x, true);
      && Grows(b.nextLabel, cur, b0, b1) && Grows(b.nextLabel, cur, b1, b2) && Grows(b.nextLabel, cur, b, b2)
      && b0.Valid() && b1.Valid() && b2.Valid()
      && x < b0.nextLabel && b.nextLabel <= b0.nextLabel <= b1.nextLabel <= b2.nextLabel
      && cur in b0.code && e in b0.code && e in b1.code && y in b2.code && x in b2.code
  {
    hide *;
    var e, y, x := b.nextLabel, b.nextLabel + 1, b.nextLabel + 2;
    var b0 := NewFor(b, cur);
    var b1 := b0.Append(cur, [Br(e)]);
    var b2 := Branch(b1, e, s.cond, sc, y, x, true);
    NewForGrows(b, cur);
    GrowsKeys(e, cur, b, b0);
    BelowNext(b0, x);
    AppendGrows(e, cur, b0, cur, [Br(e)]);
    GrowsTrans(e, cur, b, b0, b1);
    GrowsKeys(e, cur, b0, b1);
    BranchGrows(e, cur, b1, e, s.cond, sc, y, x, true);
    GrowsTrans(e, cur, b, b1, b2);
    GrowsKeys(e, cur, b1, b2);
  }

  lemma IfGrows(s: S.Stm, cur: Label, b: Build, sc: S.Scope)
    requires b.Valid() && cur in b.code && s.Conditional?
    ensures GrewTo(b, cur, If(s, cur, b, sc))
    decreases s, 1
  {
    hide *;
    var t, f, x := b.nextLabel, b.nextLabel + 1, b.nextLabel + 2;
    var base := b.nextLabel;
    var b0 := NewIf(b, cur);
    var b1 := Branch(b0, cur, s.cond, sc, t, f, false);
    var b2 := Nested(s.ifblock, t, b1, sc, x);
    var b3 := if s.elseblock.Else? then Nested(s.elseblock.stms, f, b2, sc, x) else b2.Append(f, [Br(x)]);
    IfBranched(s, cur, b, sc);
    NestedGrows(base, cur, b, b1, s.ifblock, t, sc, x);
    assert f in b2.code && x in b2.code;
    if s.elseblock.Else? {
      NestedGrows(base, cur, b, b2, s.elseblock.stms, f, sc, x);
    } else {
      AppendGrows(base, cur, b2, f, [Br(x)]);
      GrowsTrans(base, cur, b, b2, b3);
      GrowsKeys(base, cur, b2, b3);
    }
    IfResult(s, cur, b, sc);
  }

  lemma IfResult(s: S.Stm, cur: Label, b: Build, sc: S.Scope)
    requires s.Conditional?
    requires var t, f, x := b.nextLabel, b.nextLabel + 1, b.nextLabel + 2;
      var b2 := Nested(s.ifblock, t, Branch(NewIf(b, cur), cur, s.cond, sc, t, f, false), sc, x);
      var b3 := if s.elseblock.Else? then Nested(s.elseblock.stms, f, b2, sc, x) else b2.Append(f, [Br(x)]);
      x in b3.code && Grows(b.nextLabel, cur, b, b3)
    ensures GrewTo(b, cur, If(s, cur, b, sc))
  {
    hide NewIf, Branch, Build.Append, Build.Valid, Grows, AddBlock;
  }

  lemma ForResult(s: S.Stm, cur: Label, b: Build, sc: S.Scope)
    requires s.Loop?
    requires var e, y, x := b.nextLabel, b.nextLabel + 1, b.nextLabel + 2;
      var b3 := Nested(s.block, y, Branch(NewFor(b, cur).Append(cur, [Br(e)]), e, s.cond, sc, y, x, true), sc, e);
      x in b3.code && Grows(b.nextLabel, cur, b, b3)
    ensures GrewTo(b, cur, For(s, cur, b, sc))
  {
    hide NewFor, Branch, Build.Append, Build.Valid, Grows, AddBlock;
  }

  /** A nested statement list translated from cur or a block from base on, then closed by a branch. */
  lemma NestedGrows(base: Label, cur: Label, b: Build, b1: Build, ss: seq<S.Stm>, at: Label, sc: S.Scope, x: Label)
    requires Grows(base, cur, b, b1) && at in b1.code && (at == cur || base <= at) && base <= b1.nextLabel
    ensures var b2 := Nested(ss, at, b1, sc, x);
      Grows(base, cur, b, b2) && b2.Valid() && b1.code.Keys <= b2.code.Keys && b1.nextLabel <= b2.nextLabel
    decreases ss, 1
  {
    StmsGrows(ss, at, b1, sc);
    var p := Stms(ss, at, b1, sc);
    GrowsWeaken(base, cur, b1.nextLabel, at, b1, p.b);
    AppendGrows(base, cur, p.b, p.cur, [Br(x)]);
    GrowsTrans(base, cur, b, b1, p.b);
    GrowsTrans(base, cur, b, p.b, p.b.Append(p.cur, [Br(x)]));
  }

  lemma GrowsKeys(base: Label, cur: Label, b: Build, c: Build)
    requires Grows(base, cur, b, c)
    ensures b.Valid() && c.Valid() && b.code.Keys <= c.code.Keys && b.nextLabel <= c.nextLabel
  {
  }

  lemma ForGrows(s: S.Stm, cur: Label, b: Build, sc: S.Scope)
    requires b.Valid() && cur in b.code && s.Loop?
    ensures GrewTo(b, cur, For(s, cur, b, sc))
    decreases s, 1
  {
    hide *;
    var e, y, x := b.nextLabel, b.nextLabel + 1, b.nextLabel + 2;
    var base := b.nextLabel;
    var b0 := NewFor(b, cur);
    var b1 := b0.Append(cur, [Br(e)]);
    var b2 := Branch(b1, e, s.cond, sc, y, x, true);
    var b3 := Nested(s.block, y, b2, sc, e);
    ForBranched(s, cur, b, sc);
    NestedGrows(base, cur, b, b2, s.block, y, sc, e);
    ForResult(s, cur, b, sc);
  }

  lemma StmsGrows(ss: seq<S.Stm>, cur: Label, b: Build, sc: S.Scope)
    requires b.Valid() && cur in b.code
    ensures GrewTo(b, cur, Stms(ss, cur, b, sc))
    decreases ss, 0
  {
    if ss == [] {
      GrowsRefl(b.nextLabel, cur, b);
    } else {
      var p := Stm(ss[0], cur, b, sc);
      StmGrows(ss[0], cur, b, sc);
      StmsGrows(ss[1..], p.cur, p.b, sc);
      var q := Stms(ss[1..], p.cur, p.b, sc);
      GrowsWeaken(b.nextLabel, cur, p.b.nextLabel, p.cur, p.b, q.b);
      GrowsTrans(b.nextLabel, cur, b, p.b, q.b);
    }
  }

  /** Sizes and membership of the graphs a conditional is built through. */
  lemma IfPieces(s: S.Stm, cur: Label, b: Build, sc: S.Scope)
    requires b.Valid() && cur in b.code && s.Conditional?
    ensures var t, f, x := b.nextLabel, b.nextLabel + 1, b.nextLabel + 2;
      var b0 := NewIf(b, cur);
      var b1 := Branch(b0, cur, s.cond, sc, t, f, false);
      var b2 := Nested(s.ifblock, t, b1, sc, x);
      var b3 := if s.elseblock.Else? then Nested(s.elseblock.stms, f, b2, sc, x) else b2.Append(f, [Br(x)]);
      && b0.Valid() && b1.Valid() && b2.Valid() && b3.Valid()
      && b.nextLabel <= b0.nextLabel <= b1.nextLabel <= b2.nextLabel <= b3.nextLabel
      && x < b0.nextLabel && cur in b0.code && cur in b1.code && t in b1.code && f in b1.code && f in b2.code
          && x in b1.code
  {
    hide *;
    var t, f, x := b.nextLabel, b.nextLabel + 1, b.nextLabel + 2;
    var base := b.nextLabel;
    var b0 := NewIf(b, cur);
    var b1 := Branch(b0, cur, s.cond, sc, t, f, false);
    var b2 := Nested(s.ifblock, t, b1, sc, x);
    IfBranched(s, cur, b, sc);
    GrowsRefl(b1.nextLabel, t, b1);
    NestedGrows(b1.nextLabel, t, b1, b1, s.ifblock, t, sc, x);
    assert f in b2.code;
    if s.elseblock.Else? {
      GrowsRefl(b2.nextLabel, f, b2);
      NestedGrows(b2.nextLabel, f, b2, b2, s.elseblock.stms, f, sc, x);
    } else {
      AppendGrows(b2.nextLabel, f, b2, f, [Br(x)]);
      GrowsKeys(b2.nextLabel, f, b2, b2.Append(f, [Br(x)]));
    }
  }

  /** The blocks added are empty. */
  lemma NewBlocksCode(b: Build, cur: Label)
    ensures var n := b.nextLabel; NewIf(b, cur).code == b.code[n := []][n + 1 := []][n + 2 := []]
    ensures var n := b.nextLabel; NewFor(b, cur).code == b.code[n := []][n + 1 := []][n + 2 := []]
  {
    hide AddBlock, AddSuccs;
    var n, exit := b.nextLabel, b.LoopExit(cur);
    SuccsCode(b, cur, [n, n + 1]);
    SuccsCode(b, cur, [n]);
    ThreeBlocksCode(AddSuccs(b, cur, [n, n + 1]), [cur], [n + 2], exit, [cur], [n + 2], exit, [n, n + 1], [], exit);
    ThreeBlocksCode(AddSuccs(b, cur, [n]), [], [n + 1, n + 2], Some(n + 2), [n], [n], Some(n + 2), [n], [], None);
  }

  lemma SuccsCode(b: Build, l: Label, ls: seq<Label>)
    ensures AddSuccs(b, l, ls).code == b.code && AddSuccs(b, l, ls).nextLabel == b.nextLabel
  {
  }

  lemma ThreeBlocksCode(b: Build, p1: seq<Label>, s1: seq<Label>, x1: Option<Label>,
                        p2: seq<Label>, s2: seq<Label>, x2: Option<Label>,
                        p3: seq<Label>, s3: seq<Label>, x3: Option<Label>)
    ensures var n := b.nextLabel;
      AddBlock(AddBlock(AddBlock(b, p1, s1, x1), p2, s2, x2), p3, s3, x3).code ==
          b.code[n := []][n + 1 := []][n + 2 := []]
  {
  }

  lemma BelowNext(b: Build, l: Label)
    requires b.Valid() && l in b.code
    ensures l < b.nextLabel
  {
  }

  /** Sizes and membership of the graphs a loop is built through. */
  lemma ForPieces(s: S.Stm, cur: Label, b: Build, sc: S.Scope)
    requires b.Valid() && cur in b.code && s.Loop?
    ensures var e, y, x := b.nextLabel, b.nextLabel + 1, b.nextLabel + 2;
      var b0 := NewFor(b, cur);
      var b1 := b0.Append(cur, [Br(e)]);
      var b2 := Branch(b1, e, s.cond, sc, y, x, true);
      var b3 := Nested(s.block, y, b2, sc, e);
      && b0.Valid() && b1.Valid() && b2.Valid() && b3.Valid()
      && b.nextLabel <= b0.nextLabel <= b1.nextLabel <= b2.nextLabel <= b3.nextLabel
      && x < b0.nextLabel && cur in b0.code && e in b0.code && e in b1.code && y in b2.code && x in b2.code
  {
    hide *;
    var e, y, x := b.nextLabel, b.nextLabel + 1, b.nextLabel + 2;
    var b0 := NewFor(b, cur);
    var b1 := b0.Append(cur, [Br(e)]);
    var b2 := Branch(b1, e, s.cond, sc, y, x, true);
    ForBranched(s, cur, b, sc);
    GrowsRefl(b2.nextLabel, y, b2);
    NestedGrows(b2.nextLabel, y, b2, b2, s.block, y, sc, e);
  }
}
