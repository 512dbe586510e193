/** The converse direction: unless every path returns outside loops, a block that can run is left without a
    terminator. */
module OpenPaths {
  import opened Words
  import opened Ir
  import opened IrSemantics
  import opened Translation
  import opened Growth
  import opened ExprPreservation
  import opened Reachability
  import opened Flow
  import opened Shape
  import opened ReturnAnalysis
  import opened ReturnPaths
  import S = Source

  /** Every block of b is the beginning of the block of c with the same label. */
  ghost predicate Extends(b: Build, c: Build) {
    b.Valid() && c.Valid() && forall u :: (u in b.code ==> u in c.code) && b.Code(u) <= c.Code(u)
  }

  lemma GrowsExtends(base: Label, cur: Label, b: Build, c: Build)
    requires Grows(base, cur, b, c)
    ensures Extends(b, c)
  {
  }

  lemma ExitsStay(a: seq<Instr>, c: seq<Instr>, v: Label)
    requires a <= c && v in Exits(a)
    ensures v in Exits(c)
  {
    assert c == a + c[|a|..];
    FirstExitAppend(a, c[|a|..]);
  }

  /** What can run keeps being able to as blocks grow. */
  lemma LiveStays(b: Build, c: Build, root: Label, l: Label)
    requires Extends(b, c) && Live(b.code, root, l)
    ensures Live(c.code, root, l)
  {
    hide Exits;
    var n: nat :| Reach(FlowGraph(b.code), root, l, n);
    forall k: Label, v: Label | k in b.code && v in Exits(b.code[k]) ensures k in c.code && v in Exits(c.code[k]) {
      assert b.Code(k) <= c.Code(k);
      ExitsStay(b.Code(k), c.Code(k), v);
    }
    ReachInLarger(FlowGraph(b.code), FlowGraph(c.code), root, l, n);
  }

  /** A block that can run and has no terminator yet. */
  ghost predicate OpenAt(b: Build, root: Label, l: Label) {
    b.Valid() && l in b.code && Live(b.code, root, l) && !Terminated(b.Code(l))
  }

  lemma StraightIsOpen(ins: seq<Instr>)
    requires Straight(ins)
    ensures !Terminated(ins)
  {
  }

  lemma SimpleIsOpen(s: S.Stm, sc: S.Scope, n: nat)
    requires !s.Conditional? && !s.Loop? && !s.Return?
    ensures !Terminated(Simple(s, sc, n).0)
  {
    hide Expr, Exprs;
    match s
    case Assignment(_, e) =>
      ExprShape(e, sc, n);
      StraightIsOpen(Simple(s, sc, n).0);
    case Print(_, es) =>
      ExprsShape(es, sc, n);
      StraightIsOpen(Simple(s, sc, n).0);
    case Invocation(_, es) =>
      ExprsShape(es, sc, n);
      StraightIsOpen(Simple(s, sc, n).0);
    case Read(_) => StraightIsOpen(Simple(s, sc, n).0);
  }

  /** Straight-line code leaves an open block open. */
  lemma AppendOpen(b: Build, root: Label, l: Label, ins: seq<Instr>, r: nat)
    requires OpenAt(b, root, l) && !Terminated(ins)
    ensures OpenAt(b.Append(l, ins).(nextReg := r), root, l)
  {
    hide Exits, FirstExit, Live;
    FirstExitAppend(b.Code(l), ins);
    ExtendsAppend(b, l, ins, r);
    LiveStays(b, b.Append(l, ins).(nextReg := r), root, l);
  }

  lemma ExtendsAppend(b: Build, l: Label, ins: seq<Instr>, r: nat)
    requires b.Valid() && l in b.code
    ensures Extends(b, b.Append(l, ins).(nextReg := r))
    ensures b.Append(l, ins).(nextReg := r).Code(l) == b.Code(l) + ins
    ensures forall u :: u != l ==> b.Append(l, ins).(nextReg := r).Code(u) == b.Code(u)
  {
  }

  /** Code that ends an open block brings its exits to life. */
  lemma AppendLive(b: Build, root: Label, l: Label, ins: seq<Instr>, r: nat, v: Label)
    requires OpenAt(b, root, l) && v in Exits(ins)
    ensures Live(b.Append(l, ins).(nextReg := r).code, root, v)
  {
    hide FirstExit;
    var c := b.Append(l, ins).(nextReg := r);
    FirstExitAppend(b.Code(l), ins);
    ExtendsAppend(b, l, ins, r);
    LiveStays(b, c, root, l);
    ReachableStep(FlowGraph(c.code), root, l, v);
  }

  lemma NestedGrown(ss: seq<S.Stm>, at: Label, b: Build, sc: S.Scope, x: Label)
    requires b.Valid() && at in b.code
    ensures Extends(b, Nested(ss, at, b, sc, x))
    ensures forall l <- b.code :: l != at ==> Nested(ss, at, b, sc, x).Code(l) == b.Code(l)
  {
    var c := Nested(ss, at, b, sc, x);
    GrowsRefl(b.nextLabel, at, b);
    NestedGrows(b.nextLabel, at, b, b, ss, at, sc, x);
    GrowsExtends(b.nextLabel, at, b, c);
    GrowsUntouched(b.nextLabel, at, b, c);
  }

  lemma GrowsUntouched(base: Label, cur: Label, b: Build, c: Build)
    requires Grows(base, cur, b, c) && b.nextLabel <= base
    ensures forall l <- b.code :: l != cur ==> c.Code(l) == b.Code(l)
  {
  }

  /** b, then three empty blocks. */
  ghost predicate ThreeEmpty(b: Build, c: Build) {
    var n := b.nextLabel;
    c.Code(n) == [] && c.Code(n + 1) == [] && c.Code(n + 2) == [] && forall u <- b.code :: c.Code(u) == b.Code(u)
  }

  lemma CodeIsThreeEmpty(b: Build, c: Build)
    requires b.Valid() && var n := b.nextLabel; c.code == b.code[n := []][n + 1 := []][n + 2 := []]
    ensures ThreeEmpty(b, c)
  {
  }

  lemma NewIfEmpty(b: Build, cur: Label)
    requires b.Valid() && cur in b.code
    ensures Extends(b, NewIf(b, cur)) && ThreeEmpty(b, NewIf(b, cur))
  {
    hide *;
    NewBlocksCode(b, cur);
    CodeIsThreeEmpty(b, NewIf(b, cur));
    NewIfGrows(b, cur);
    GrowsExtends(b.nextLabel, cur, b, NewIf(b, cur));
  }

  lemma NewForEmpty(b: Build, cur: Label)
    requires b.Valid() && cur in b.code
    ensures Extends(b, NewFor(b, cur)) && ThreeEmpty(b, NewFor(b, cur))
  {
    hide *;
    NewBlocksCode(b, cur);
    CodeIsThreeEmpty(b, NewFor(b, cur));
    NewForGrows(b, cur);
    GrowsExtends(b.nextLabel, cur, b, NewFor(b, cur));
  }

  /** A condition ends the open block it is tested in, and both its targets come to life. */
  lemma BranchLive(b: Build, root: Label, at: Label, cond: S.Expr, sc: S.Scope, t: Label, f: Label, isLoop: bool)
    requires OpenAt(b, root, at) && at != t && at != f
    ensures var c := Branch(b, at, cond, sc, t, f, isLoop);
      && Extends(b, c) && Live(c.code, root, t) && Live(c.code, root, f)
      && forall u :: u != at ==> c.Code(u) == b.Code(u)
  {
    hide Expr, Test, Live, Build.Valid;
    var c := Test(Expr(cond, sc, b.nextReg), isLoop);
    var ins := c.ins + [BrCond(c.opnd, t, f, EQ)];
    ExprShape(cond, sc, b.nextReg);
    TestIsStraight(Expr(cond, sc, b.nextReg), isLoop);
    StraightIsOpen(c.ins);
    FirstExitAppend(c.ins, [BrCond(c.opnd, t, f, EQ)]);
    assert Exits([BrCond(c.opnd, t, f, EQ)]) == [t, f];
    assert Exits(ins)[0] == t && Exits(ins)[1] == f;
    ExtendsAppend(b, at, ins, c.next);
    AppendLive(b, root, at, ins, c.next, t);
    AppendLive(b, root, at, ins, c.next, f);
  }

  lemma EmptyIsOpen(b: Build, root: Label, l: Label)
    requires b.Valid() && l in b.code && Live(b.code, root, l) && b.Code(l) == []
    ensures OpenAt(b, root, l)
  {
  }

  /** A statement that may not return, placed in an open block, leaves an open block. */
  lemma StmOpen(s: S.Stm, cur: Label, b: Build, sc: S.Scope, root: Label)
    requires OpenAt(b, root, cur) && !StmReturnsOutsideLoops(s)
    ensures var p := Stm(s, cur, b, sc); OpenAt(p.b, root, p.cur)
    decreases s, 2
  {
    hide OpenAt, Simple;
    if s.Conditional? {
      IfOpen(s, cur, b, sc, root);
    } else if s.Loop? {
      ForOpen(s, cur, b, sc, root);
    } else {
      var (ins, next) := Simple(s, sc, b.nextReg);
      SimpleIsOpen(s, sc, b.nextReg);
      AppendOpen(b, root, cur, ins, next);
    }
  }

  lemma StmsOpen(ss: seq<S.Stm>, cur: Label, b: Build, sc: S.Scope, root: Label)
    requires OpenAt(b, root, cur) && !ReturnsOutsideLoops(ss)
    ensures var p := Stms(ss, cur, b, sc); OpenAt(p.b, root, p.cur)
    decreases ss, 0
  {
    hide OpenAt;
    if ss != [] {
      var p := Stm(ss[0], cur, b, sc);
      StmOpen(ss[0], cur, b, sc, root);
      StmsOpen(ss[1..], p.cur, p.b, sc, root);
    }
  }

  /** A nested list that may not return reaches the branch that closes it. */
  lemma NestedOpen(ss: seq<S.Stm>, at: Label, b: Build, sc: S.Scope, x: Label, root: Label)
    requires OpenAt(b, root, at) && !ReturnsOutsideLoops(ss)
    ensures Live(Nested(ss, at, b, sc, x).code, root, x)
    decreases ss, 1
  {
    hide OpenAt, Live;
    var p := Stms(ss, at, b, sc);
    StmsOpen(ss, at, b, sc, root);
    assert Exits([Br(x)]) == [x];
    AppendLive(p.b, root, p.cur, [Br(x)], p.b.nextReg, x);
  }

  lemma IfOpen(s: S.Stm, cur: Label, b: Build, sc: S.Scope, root: Label)
    requires s.Conditional? && OpenAt(b, root, cur) && !StmReturnsOutsideLoops(s)
    ensures var p := If(s, cur, b, sc); OpenAt(p.b, root, p.cur)
    decreases s, 1
  {
    hide OpenAt, Live, Build.Valid, NewIf, Branch, Build.Append, Build.Code, Extends, FirstExit;
    var t, f, x := b.nextLabel, b.nextLabel + 1, b.nextLabel + 2;
    OpenHas(b, root, cur);
    IfPieces(s, cur, b, sc);
    IfBranchesOpen(s, cur, b, sc, root);
    var b1 := Branch(NewIf(b, cur), cur, s.cond, sc, t, f, false);
    var b2 := Nested(s.ifblock, t, b1, sc, x);
    NestedGrown(s.ifblock, t, b1, sc, x);
    if !ReturnsOutsideLoops(s.ifblock) { NestedOpen(s.ifblock, t, b1, sc, x, root); }
    OpenStays(b1, b2, root, f);
    ExtendsHas(b1, b2, x);
    if s.elseblock.Else? {
      if ReturnsOutsideLoops(s.ifblock) { NestedOpen(s.elseblock.stms, f, b2, sc, x, root); }
      ElseOpen(s.elseblock.stms, f, b2, sc, x, root, x);
    } else {
      ClosedOpen(b2, f, x, root);
    }
  }

  /** The exit block stays empty while the else branch or the loop body is placed, and alive if it was. */
  lemma ElseOpen(ss: seq<S.Stm>, f: Label, b2: Build, sc: S.Scope, x: Label, root: Label, to: Label)
    requires b2.Valid() && f in b2.code && x in b2.code && x != f && b2.Code(x) == []
    requires Live(b2.code, root, x) || Live(Nested(ss, f, b2, sc, to).code, root, x)
    ensures OpenAt(Nested(ss, f, b2, sc, to), root, x)
  {
    hide OpenAt, Live, Build.Valid, Build.Code, Extends;
    var b3 := Nested(ss, f, b2, sc, to);
    NestedGrown(ss, f, b2, sc, to);
    if Live(b2.code, root, x) { LiveStays(b2, b3, root, x); }
    ExtendsHas(b2, b3, x);
    EmptyIsOpen(b3, root, x);
  }

  lemma ClosedOpen(b2: Build, f: Label, x: Label, root: Label)
    requires OpenAt(b2, root, f) && x in b2.code && x != f && b2.Code(x) == []
    ensures OpenAt(b2.Append(f, [Br(x)]), root, x)
  {
    hide OpenAt, Live, Build.Valid, Build.Code, Extends;
    var b3 := b2.Append(f, [Br(x)]);
    assert Exits([Br(x)]) == [x];
    OpenHas(b2, root, f);
    AppendLive(b2, root, f, [Br(x)], b2.nextReg, x);
    ExtendsAppend(b2, f, [Br(x)], b2.nextReg);
    ExtendsHas(b2, b3, x);
    EmptyIsOpen(b3, root, x);
  }

  lemma OpenHas(b: Build, root: Label, l: Label)
    requires OpenAt(b, root, l)
    ensures b.Valid() && l in b.code
  {
  }

  lemma ExtendsHas(b: Build, c: Build, l: Label)
    requires Extends(b, c) && l in b.code
    ensures l in c.code && c.Valid()
  {
  }

  lemma OpenStays(b: Build, c: Build, root: Label, l: Label)
    requires OpenAt(b, root, l) && Extends(b, c) && c.Code(l) == b.Code(l)
    ensures OpenAt(c, root, l)
  {
    LiveStays(b, c, root, l);
  }

  lemma IfBranchesOpen(s: S.Stm, cur: Label, b: Build, sc: S.Scope, root: Label)
    requires s.Conditional? && OpenAt(b, root, cur)
    ensures var t, f, x := b.nextLabel, b.nextLabel + 1, b.nextLabel + 2;
      var b1 := Branch(NewIf(b, cur), cur, s.cond, sc, t, f, false);
      OpenAt(b1, root, t) && OpenAt(b1, root, f) && b1.Code(x) == []
  {
    hide Live, NewIf, Branch, FirstExit, Build.Code, Nested, Extends;
    var t, f, x := b.nextLabel, b.nextLabel + 1, b.nextLabel + 2;
    var b0 := NewIf(b, cur);
    var b1 := Branch(b0, cur, s.cond, sc, t, f, false);
    NewIfEmpty(b, cur);
    OpenStays(b, b0, root, cur);
    BranchLive(b0, root, cur, s.cond, sc, t, f, false);
    IfPieces(s, cur, b, sc);
    EmptyIsOpen(b1, root, t);
    EmptyIsOpen(b1, root, f);
  }

  lemma ForOpen(s: S.Stm, cur: Label, b: Build, sc: S.Scope, root: Label)
    requires s.Loop? && OpenAt(b, root, cur)
    ensures var p := For(s, cur, b, sc); OpenAt(p.b, root, p.cur)
    decreases s, 1
  {
    hide OpenAt, Live, Build.Valid, NewFor, Branch, Build.Append, Build.Code, Extends;
    OpenHas(b, root, cur);
    ForPieces(s, cur, b, sc);
    var e, y, x := b.nextLabel, b.nextLabel + 1, b.nextLabel + 2;
    var b1 := NewFor(b, cur).Append(cur, [Br(e)]);
    var b2 := Branch(b1, e, s.cond, sc, y, x, true);
    LoopEntryOpen(b, cur, root);
    BranchLive(b1, root, e, s.cond, sc, y, x, true);
    ElseOpen(s.block, y, b2, sc, x, root, e);
  }

  lemma LoopEntryOpen(b: Build, cur: Label, root: Label)
    requires OpenAt(b, root, cur)
    ensures var e := b.nextLabel; var b1 := NewFor(b, cur).Append(cur, [Br(e)]);
      OpenAt(b1, root, e) && b1.Code(e + 2) == []
  {
    hide OpenAt, Live, Build.Valid, NewFor, Build.Code, Extends, FirstExit;
    OpenHas(b, root, cur);
    BelowNext(b, cur);
    var e := b.nextLabel;
    var b0 := NewFor(b, cur);
    NewForEmpty(b, cur);
    NewForGrows(b, cur);
    OpenStays(b, b0, root, cur);
    ClosedOpen(b0, cur, e, root);
    OpenHas(b0, root, cur);
    ExtendsAppend(b0, cur, [Br(e)], b0.nextReg);
  }
}
