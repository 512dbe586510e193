/** What the return-path check guarantees about generated blocks. */
module ReturnPaths {
  import opened Words
  import opened Ir
  import opened IrSemantics
  import opened Translation
  import opened Growth
  import opened Reachability
  import opened Flow
  import opened Shape
  import opened ReturnAnalysis
  import S = Source

  // ----- Where branches lead -----

  /** Every branch in c is one of b's or leads to a label from n on. */
  ghost predicate TargetsFrom(n: Label, b: Build, c: Build) {
    forall u, v :: v in AllTargets(c.Code(u)) ==> v in AllTargets(b.Code(u)) || n <= v < c.nextLabel
  }

  lemma TargetsTrans(n: Label, b: Build, c: Build, d: Build)
    requires TargetsFrom(n, b, c) && TargetsFrom(n, c, d) && c.nextLabel <= d.nextLabel
    ensures TargetsFrom(n, b, d)
  {
  }

  lemma TargetsWeaken(n: Label, n': Label, b: Build, c: Build)
    requires TargetsFrom(n, b, c) && n' <= n
    ensures TargetsFrom(n', b, c)
  {
  }

  lemma TargetsAppend(n: Label, b: Build, l: Label, ins: seq<Instr>)
    requires forall v <- AllTargets(ins) :: n <= v < b.nextLabel
    ensures TargetsFrom(n, b, b.Append(l, ins))
  {
    AllTargetsAppend(b.Code(l), ins);
  }

  lemma TargetsNewBlocks(n: Label, b: Build, cur: Label)
    requires b.Valid()
    ensures TargetsFrom(n, b, NewIf(b, cur)) && TargetsFrom(n, b, NewFor(b, cur))
  {
    assert AllTargets([]) == {};
  }

  lemma BranchTargetsFrom(n: Label, b: Build, at: Label, cond: S.Expr, sc: S.Scope, t: Label, f: Label, isLoop: bool)
    requires n <= t < b.nextLabel && n <= f < b.nextLabel
    ensures TargetsFrom(n, b, Branch(b, at, cond, sc, t, f, isLoop))
  {
    hide Expr, Test, AllTargets;
    var c := Test(Expr(cond, sc, b.nextReg), isLoop);
    BranchTargets(cond, sc, b.nextReg, t, f, isLoop);
    TargetsAppend(n, b, at, c.ins + [BrCond(c.opnd, t, f, EQ)]);
  }

  lemma StmTargets(s: S.Stm, cur: Label, b: Build, sc: S.Scope)
    requires b.Valid() && cur in b.code
    ensures TargetsFrom(b.nextLabel, b, Stm(s, cur, b, sc).b)
    decreases s, 2
  {
    if s.Conditional? {
      IfTargets(s, cur, b, sc);
    } else if s.Loop? {
      ForTargets(s, cur, b, sc);
    } else {
      SimpleHasNoTargets(s, sc, b.nextReg);
      TargetsAppend(b.nextLabel, b, cur, Simple(s, sc, b.nextReg).0);
    }
  }

  lemma StmsTargets(ss: seq<S.Stm>, cur: Label, b: Build, sc: S.Scope)
    requires b.Valid() && cur in b.code
    ensures TargetsFrom(b.nextLabel, b, Stms(ss, cur, b, sc).b)
    decreases ss, 0
  {
    hide TargetsFrom, Grows, Build.Valid;
    if ss == [] {
      TargetsRefl(b.nextLabel, b);
    } else {
      var p := Stm(ss[0], cur, b, sc);
      var q := Stms(ss[1..], p.cur, p.b, sc);
      StmTargets(ss[0], cur, b, sc);
      StmGrows(ss[0], cur, b, sc);
      GrowsKeys(b.nextLabel, cur, b, p.b);
      StmsTargets(ss[1..], p.cur, p.b, sc);
      StmsGrows(ss[1..], p.cur, p.b, sc);
      GrowsKeys(p.b.nextLabel, p.cur, p.b, q.b);
      TargetsWeaken(p.b.nextLabel, b.nextLabel, p.b, q.b);
      TargetsTrans(b.nextLabel, b, p.b, q.b);
    }
  }

  lemma TargetsRefl(n: Label, b: Build)
    ensures TargetsFrom(n, b, b)
  {
  }

  /** Nested statements only branch to x and to labels from b.nextLabel on. */
  lemma NestedTargets(n: Label, ss: seq<S.Stm>, at: Label, b: Build, sc: S.Scope, x: Label)
    requires b.Valid() && at in b.code && n <= x < b.nextLabel
    ensures TargetsFrom(n, b, Nested(ss, at, b, sc, x))
    decreases ss, 1
  {
    hide TargetsFrom, Grows, Build.Valid, Build.Append, AllTargets;
    var p := Stms(ss, at, b, sc);
    StmsTargets(ss, at, b, sc);
    StmsGrows(ss, at, b, sc);
    GrowsKeys(b.nextLabel, at, b, p.b);
    TargetsWeaken(b.nextLabel, n, b, p.b);
    OneTarget(Br(x));
    TargetsAppend(n, p.b, p.cur, [Br(x)]);
    AppendGrows(b.nextLabel, at, p.b, p.cur, [Br(x)]);
    GrowsKeys(b.nextLabel, at, p.b, p.b.Append(p.cur, [Br(x)]));
    TargetsTrans(n, b, p.b, p.b.Append(p.cur, [Br(x)]));
  }

  lemma IfTargets(s: S.Stm, cur: Label, b: Build, sc: S.Scope)
    requires b.Valid() && cur in b.code && s.Conditional?
    ensures TargetsFrom(b.nextLabel, b, If(s, cur, b, sc).b)
    decreases s, 1
  {
    hide TargetsFrom, Grows, Build.Valid, Build.Append, AllTargets, NewIf, Branch;
    var t, f, x := b.nextLabel, b.nextLabel + 1, b.nextLabel + 2;
    var b0 := NewIf(b, cur);
    var b1 := Branch(b0, cur, s.cond, sc, t, f, false);
    var b2 := Nested(s.ifblock, t, b1, sc, x);
    IfPieces(s, cur, b, sc);
    TargetsNewBlocks(t, b, cur);
    BranchTargetsFrom(t, b0, cur, s.cond, sc, t, f, false);
    TargetsTrans(t, b, b0, b1);
    NestedTargets(t, s.ifblock, t, b1, sc, x);
    TargetsTrans(t, b, b1, b2);
    if s.elseblock.Else? {
      NestedTargets(t, s.elseblock.stms, f, b2, sc, x);
      TargetsTrans(t, b, b2, Nested(s.elseblock.stms, f, b2, sc, x));
    } else {
      OneTarget(Br(x));
      TargetsAppend(t, b2, f, [Br(x)]);
      TargetsTrans(t, b, b2, b2.Append(f, [Br(x)]));
    }
  }

  lemma ForTargets(s: S.Stm, cur: Label, b: Build, sc: S.Scope)
    requires b.Valid() && cur in b.code && s.Loop?
    ensures TargetsFrom(b.nextLabel, b, For(s, cur, b, sc).b)
    decreases s, 1
  {
    hide TargetsFrom, Grows, Build.Valid, Build.Append, AllTargets, NewFor, Branch;
    var e, y, x := b.nextLabel, b.nextLabel + 1, b.nextLabel + 2;
    var b0 := NewFor(b, cur);
    var b1 := b0.Append(cur, [Br(e)]);
    var b2 := Branch(b1, e, s.cond, sc, y, x, true);
    var b3 := Nested(s.block, y, b2, sc, e);
    ForPieces(s, cur, b, sc);
    TargetsNewBlocks(e, b, cur);
    OneTarget(Br(e));
    TargetsAppend(e, b0, cur, [Br(e)]);
    TargetsTrans(e, b, b0, b1);
    BranchTargetsFrom(e, b1, e, s.cond, sc, y, x, true);
    TargetsTrans(e, b, b1, b2);
    NestedTargets(e, s.block, y, b2, sc, e);
    TargetsTrans(e, b, b2, b3);
  }

  // ----- Dead blocks -----

  lemma {:induction false} FirstExitAppend(a: seq<Instr>, b: seq<Instr>)
    ensures FirstExit(a + b) == if Terminated(a) then FirstExit(a) else |a| + FirstExit(b)
    ensures Terminated(a + b) == (Terminated(a) || Terminated(b))
    ensures Exits(a + b) == if Terminated(a) then Exits(a) else Exits(b)
  {
    if a == [] {
      assert a + b == b;
    } else {
      assert (a + b)[1..] == a[1..] + b;
      FirstExitAppend(a[1..], b);
      if !Terminated(a) && Terminated(b) { assert (a + b)[|a| + FirstExit(b)] == b[FirstExit(b)]; }
    }
  }

  lemma {:induction false} UnterminatedHasNoTargets(ins: seq<Instr>)
    requires !Terminated(ins)
    ensures AllTargets(ins) == {}
  {
    assert Straight(ins);
    StraightHasNoTargets(ins);
  }

  lemma {:induction false} ExitIsTarget(ins: seq<Instr>, v: Label)
    requires v in Exits(ins)
    ensures v in AllTargets(ins)
  {
    if ins[0].IsTerminator() {
    } else {
      assert ins == [ins[0]] + ins[1..];
      FirstExitAppend([ins[0]], ins[1..]);
      ExitIsTarget(ins[1..], v);
    }
  }

  /** A set of blocks without the root that is only branched to, by branches that can run, from inside itself. */
  ghost predicate DeadSet(b: Build, d: set<Label>, root: Label) {
    && b.Valid() && root in b.code && root !in d && d <= b.code.Keys
    && (forall u, v :: v in AllTargets(b.Code(u)) ==> v < b.nextLabel)
    && (forall v <- d :: OnlyFrom(b, d, v))
  }

  /** Branches to v that can run are in blocks of d. */
  ghost predicate OnlyFrom(b: Build, d: set<Label>, v: Label) {
    forall u :: v in Exits(b.Code(u)) ==> u in d
  }

  /** Nothing placed at the end of l can run: l ends already, or is never reached. */
  ghost predicate Shut(b: Build, d: set<Label>, l: Label) {
    l in d || Terminated(b.Code(l))
  }

  lemma DeadIsNotLive(b: Build, d: set<Label>, root: Label, l: Label)
    requires DeadSet(b, d, root) && Live(b.code, root, l)
    ensures l !in d
  {
    var n: nat :| Reach(FlowGraph(b.code), root, l, n);
    NotReached(b, d, root, l, n);
  }

  lemma {:induction false} NotReached(b: Build, d: set<Label>, root: Label, l: Label, n: nat)
    requires DeadSet(b, d, root) && Reach(FlowGraph(b.code), root, l, n)
    ensures l !in d
    decreases n
  {
    if n > 0 {
      var g := FlowGraph(b.code);
      var k :| Reach(g, root, k, n - 1) && k in g && l in g[k];
      NotReached(b, d, root, k, n - 1);
      assert l in Exits(b.Code(k));
      assert l in d ==> OnlyFrom(b, d, l);
    }
  }

  lemma OnlyFromAppend(b: Build, d: set<Label>, v: Label, l: Label, ins: seq<Instr>)
    requires OnlyFrom(b, d, v) && (Shut(b, d, l) || v !in Exits(ins))
    ensures OnlyFrom(b.Append(l, ins), d, v)
  {
    FirstExitAppend(b.Code(l), ins);
    var c := b.Append(l, ins);
    forall u | v in Exits(c.Code(u)) ensures u in d {
      if u != l { assert c.Code(u) == b.Code(u); } else { assert c.Code(l) == b.Code(l) + ins; }
    }
  }

  lemma DeadAppend(b: Build, d: set<Label>, root: Label, l: Label, ins: seq<Instr>)
    requires DeadSet(b, d, root) && l in b.code
    requires forall v <- AllTargets(ins) :: v < b.nextLabel && (Shut(b, d, l) || v !in d)
    ensures DeadSet(b.Append(l, ins), d, root)
  {
    AllTargetsAppend(b.Code(l), ins);
    var c := b.Append(l, ins);
    forall u, v | v in AllTargets(c.Code(u)) ensures v < c.nextLabel {
      if u != l { assert c.Code(u) == b.Code(u); } else { assert c.Code(l) == b.Code(l) + ins; }
    }
    forall v <- d ensures OnlyFrom(c, d, v) {
      assert OnlyFrom(b, d, v);
      if v in Exits(ins) { ExitIsTarget(ins, v); }
      OnlyFromAppend(b, d, v, l, ins);
    }
  }

  lemma DeadAdd(b: Build, d: set<Label>, root: Label, v: Label)
    requires DeadSet(b, d, root) && OnlyFrom(b, d, v) && v != root && v in b.code
    ensures DeadSet(b, d + {v}, root)
  {
    forall x <- d + {v} ensures OnlyFrom(b, d + {v}, x) {
      assert OnlyFrom(b, d, x);
    }
  }

  /** Code that only grows, and only towards labels from n on, opens no new way to an older label. */
  lemma OnlyFromKept(n: Label, b: Build, c: Build, d: set<Label>, d': set<Label>, x: Label)
    requires OnlyFrom(b, d, x) && TargetsFrom(n, b, c) && x < n && d <= d'
    requires forall u :: b.Code(u) <= c.Code(u)
    ensures OnlyFrom(c, d', x)
  {
    forall u | x in Exits(c.Code(u)) ensures u in d' {
      var more := c.Code(u)[|b.Code(u)|..];
      assert c.Code(u) == b.Code(u) + more;
      FirstExitAppend(b.Code(u), more);
      ExitIsTarget(c.Code(u), x);
      if !Terminated(b.Code(u)) {
        UnterminatedHasNoTargets(b.Code(u));
      }
    }
  }

  lemma GrowsCode(base: Label, cur: Label, b: Build, c: Build)
    requires Grows(base, cur, b, c)
    ensures forall u :: b.Code(u) <= c.Code(u)
  {
  }

  /** The new dead set holds the old one and otherwise only new labels. */
  ghost predicate DeadGrows(d: set<Label>, d': set<Label>, n: Label) {
    d <= d' && forall l <- d' :: l in d || l >= n
  }

  /** What translating a statement from cur adds to the dead blocks: where it ends is shut if it returns, or if
      cur was shut. */
  ghost predicate DeadAfter(b: Build, cur: Label, p: Placed, d: set<Label>, d': set<Label>, root: Label, done: bool) {
    && DeadSet(p.b, d', root) && DeadGrows(d, d', b.nextLabel)
    && (done || Shut(b, d, cur) ==> Shut(p.b, d', p.cur))
  }

  lemma SimpleTerminates(s: S.Stm, sc: S.Scope, n: nat)
    requires s.Return?
    ensures Terminated(Simple(s, sc, n).0)
  {
    var ins := Simple(s, sc, n).0;
    assert ins[|ins| - 1].IsTerminator();
  }

  lemma SimpleDead(s: S.Stm, cur: Label, b: Build, sc: S.Scope, d: set<Label>, root: Label)
    requires !s.Conditional? && !s.Loop? && DeadSet(b, d, root) && cur in b.code
    ensures DeadAfter(b, cur, Stm(s, cur, b, sc), d, d, root, StmReturnsOutsideLoops(s))
  {
    hide Simple, AllTargets, Exits, FirstExit;
    var (ins, next) := Simple(s, sc, b.nextReg);
    SimpleHasNoTargets(s, sc, b.nextReg);
    DeadAppend(b, d, root, cur, ins);
    NextRegDead(b.Append(cur, ins), d, root, next);
    FirstExitAppend(b.Code(cur), ins);
    if s.Return? { SimpleTerminates(s, sc, b.nextReg); }
  }

  lemma NextRegDead(b: Build, d: set<Label>, root: Label, r: nat)
    requires DeadSet(b, d, root)
    ensures DeadSet(b.(nextReg := r), d, root)
  {
    var c := b.(nextReg := r);
    assert forall u :: c.Code(u) == b.Code(u);
    forall v <- d ensures OnlyFrom(c, d, v) { assert OnlyFrom(b, d, v); }
  }

  lemma StmDead(s: S.Stm, cur: Label, b: Build, sc: S.Scope, d: set<Label>, root: Label) returns (d': set<Label>)
    requires DeadSet(b, d, root) && cur in b.code
    ensures DeadAfter(b, cur, Stm(s, cur, b, sc), d, d', root, StmReturnsOutsideLoops(s))
    decreases s, 2
  {
    hide DeadSet, DeadGrows, Shut;
    if s.Conditional? {
      d' := IfDead(s, cur, b, sc, d, root);
    } else if s.Loop? {
      d' := ForDead(s, cur, b, sc, d, root);
    } else {
      d' := d;
      SimpleDead(s, cur, b, sc, d, root);
    }
  }

  lemma DeadValid(b: Build, d: set<Label>, root: Label)
    requires DeadSet(b, d, root)
    ensures b.Valid() && d <= b.code.Keys && root in b.code
  {
  }

  lemma StmsDead(ss: seq<S.Stm>, cur: Label, b: Build, sc: S.Scope, d: set<Label>, root: Label) returns (d': set<Label>)
    requires DeadSet(b, d, root) && cur in b.code
    ensures DeadAfter(b, cur, Stms(ss, cur, b, sc), d, d', root, ReturnsOutsideLoops(ss))
    decreases ss, 0
  {
    hide DeadSet, Shut, Build.Valid, Grows;
    DeadValid(b, d, root);
    if ss == [] {
      d' := d;
    } else {
      var p := Stm(ss[0], cur, b, sc);
      var d1 := StmDead(ss[0], cur, b, sc, d, root);
      StmGrows(ss[0], cur, b, sc);
      GrowsKeys(b.nextLabel, cur, b, p.b);
      d' := StmsDead(ss[1..], p.cur, p.b, sc, d1, root);
    }
  }

  /** A nested list closed by a branch to x, a block outside the dead ones unless the list starts shut: if it returns
      or starts shut, that branch never runs. */
  lemma NestedDead(ss: seq<S.Stm>, at: Label, b: Build, sc: S.Scope, x: Label, d: set<Label>, root: Label)
    returns (d': set<Label>)
    requires DeadSet(b, d, root) && at in b.code && x < b.nextLabel && (x !in d || Shut(b, d, at))
    ensures DeadSet(Nested(ss, at, b, sc, x), d', root) && DeadGrows(d, d', b.nextLabel)
    ensures OnlyFrom(b, d, x) && (ReturnsOutsideLoops(ss) || Shut(b, d, at)) ==>
        OnlyFrom(Nested(ss, at, b, sc, x), d', x)
    decreases ss, 1
  {
    hide DeadSet, Shut, Build.Valid, Grows, OnlyFrom, TargetsFrom, Build.Append, Build.Code, AllTargets, Exits;
    DeadValid(b, d, root);
    var p := Stms(ss, at, b, sc);
    d' := StmsDead(ss, at, b, sc, d, root);
    StmsGrows(ss, at, b, sc);
    GrowsKeys(b.nextLabel, at, b, p.b);
    StmsTargets(ss, at, b, sc);
    GrowsCode(b.nextLabel, at, b, p.b);
    OneTarget(Br(x));
    DeadAppend(p.b, d', root, p.cur, [Br(x)]);
    if OnlyFrom(b, d, x) && (ReturnsOutsideLoops(ss) || Shut(b, d, at)) {
      OnlyFromKept(b.nextLabel, b, p.b, d, d', x);
      OnlyFromAppend(p.b, d', x, p.cur, [Br(x)]);
    }
  }

  /** After the branch of a conditional: its two targets are dead if the block it ends was shut. */
  lemma BranchDead(b: Build, cur: Label, cond: S.Expr, sc: S.Scope, d: set<Label>, root: Label) returns (d': set<Label>)
    requires DeadSet(b, d, root) && cur in b.code
    ensures var t, f, x := b.nextLabel, b.nextLabel + 1, b.nextLabel + 2;
      var c := Branch(NewIf(b, cur), cur, cond, sc, t, f, false);
      && DeadSet(c, d', root) && OnlyFrom(c, d', x)
      && d' == if Shut(b, d, cur) then d + {t, f} else d
  {
    hide DeadSet, OnlyFrom, Build.Valid, Grows, Test, Expr, AllTargets, Exits, Build.Append, NewIf;
    DeadValid(b, d, root);
    var t, f, x := b.nextLabel, b.nextLabel + 1, b.nextLabel + 2;
    var b0 := NewIf(b, cur);
    NewIfGrows(b, cur);
    GrowsKeys(t, cur, b, b0);
    NewIfDead(b, cur, d, root);
    var c := Test(Expr(cond, sc, b0.nextReg), false);
    var ins := c.ins + [BrCond(c.opnd, t, f, EQ)];
    BranchTargets(cond, sc, b0.nextReg, t, f, false);
    BelowNext(b0, x);
    OldIsNotNew(b, d, root);
    DeadAppend(b0, d, root, cur, ins);
    var b1 := b0.Append(cur, ins);
    if Shut(b, d, cur) {
      OnlyFromAppend(b0, d, t, cur, ins);
      OnlyFromAppend(b0, d, f, cur, ins);
      AppendKeys(b0, cur, ins);
      DeadAdd(b1, d, root, t);
      OnlyFromMono(b1, d, d + {t}, f);
      DeadAdd(b1, d + {t}, root, f);
      assert d + {t} + {f} == d + {t, f};
      d' := d + {t, f};
    } else {
      d' := d;
    }
    if x in Exits(ins) { ExitIsTarget(ins, x); }
    OnlyFromAppend(b0, d, x, cur, ins);
    OnlyFromMono(b1, d, d', x);
    NextRegDead(b1, d', root, c.next);
    NextRegOnlyFrom(b1, d', x, c.next);
  }

  lemma AppendKeys(b: Build, l: Label, ins: seq<Instr>)
    requires l in b.code
    ensures b.Append(l, ins).code.Keys == b.code.Keys && b.Append(l, ins).nextLabel == b.nextLabel
  {
  }

  lemma NextRegOnlyFrom(b: Build, d: set<Label>, x: Label, r: nat)
    requires OnlyFrom(b, d, x)
    ensures OnlyFrom(b.(nextReg := r), d, x)
  {
  }

  lemma OnlyFromMono(b: Build, d: set<Label>, d': set<Label>, x: Label)
    requires OnlyFrom(b, d, x) && d <= d'
    ensures OnlyFrom(b, d', x)
  {
  }

  lemma OldIsNotNew(b: Build, d: set<Label>, root: Label)
    requires DeadSet(b, d, root)
    ensures forall l <- d :: l < b.nextLabel
    ensures root < b.nextLabel
  {
  }

  /** New empty blocks are reached from nowhere yet. */
  lemma NewIfDead(b: Build, cur: Label, d: set<Label>, root: Label)
    requires DeadSet(b, d, root) && cur in b.code && NewIf(b, cur).Valid()
    ensures var t, f, x := b.nextLabel, b.nextLabel + 1, b.nextLabel + 2; var c := NewIf(b, cur);
      && DeadSet(c, d, root) && OnlyFrom(c, d, t) && OnlyFrom(c, d, f) && OnlyFrom(c, d, x)
      && (Shut(b, d, cur) <==> Shut(c, d, cur))
  {
    hide Exits, AllTargets;
    var c := NewIf(b, cur);
    assert forall u :: c.Code(u) == b.Code(u);
    forall u, v | v in Exits(b.Code(u)) ensures v in AllTargets(b.Code(u)) { ExitIsTarget(b.Code(u), v); }
    forall v <- d ensures OnlyFrom(c, d, v) { assert OnlyFrom(b, d, v); }
  }

  lemma IfDead(s: S.Stm, cur: Label, b: Build, sc: S.Scope, d: set<Label>, root: Label) returns (d': set<Label>)
    requires s.Conditional? && DeadSet(b, d, root) && cur in b.code
    ensures DeadAfter(b, cur, If(s, cur, b, sc), d, d', root, StmReturnsOutsideLoops(s))
    decreases s, 1
  {
    hide DeadSet, OnlyFrom, Build.Valid, Grows, Branch, AllTargets, Exits, Build.Append, Build.Code, NewIf, FirstExit;
    DeadValid(b, d, root);
    OldIsNotNew(b, d, root);
    var t, f, x := b.nextLabel, b.nextLabel + 1, b.nextLabel + 2;
    var b1 := Branch(NewIf(b, cur), cur, s.cond, sc, t, f, false);
    var b2 := Nested(s.ifblock, t, b1, sc, x);
    IfPieces(s, cur, b, sc);
    var d0 := BranchDead(b, cur, s.cond, sc, d, root);
    var d1 := NestedDead(s.ifblock, t, b1, sc, x, d0, root);
    var d2 := d1;
    var b3 := if s.elseblock.Else? then Nested(s.elseblock.stms, f, b2, sc, x) else b2.Append(f, [Br(x)]);
    if s.elseblock.Else? {
      d2 := NestedDead(s.elseblock.stms, f, b2, sc, x, d1, root);
    } else {
      OneTarget(Br(x));
      DeadAppend(b2, d1, root, f, [Br(x)]);
      if Shut(b, d, cur) { OnlyFromAppend(b2, d1, x, f, [Br(x)]); }
    }
    if StmReturnsOutsideLoops(s) || Shut(b, d, cur) {
      IfExitRegistered(s, cur, b, sc);
      DeadAdd(b3, d2, root, x);
      d' := d2 + {x};
    } else {
      d' := d2;
    }
  }

  /** The entry of a new loop, its body and its exit, reached from nowhere yet. */
  lemma NewForDead(b: Build, cur: Label, d: set<Label>, root: Label)
    requires DeadSet(b, d, root) && cur in b.code && NewFor(b, cur).Valid()
    ensures var e, y, x := b.nextLabel, b.nextLabel + 1, b.nextLabel + 2; var c := NewFor(b, cur);
      && DeadSet(c, d, root) && OnlyFrom(c, d, e) && OnlyFrom(c, d, y) && OnlyFrom(c, d, x)
      && (Shut(b, d, cur) <==> Shut(c, d, cur))
  {
    hide Exits, AllTargets;
    var c := NewFor(b, cur);
    assert forall u :: c.Code(u) == b.Code(u);
    forall u, v | v in Exits(b.Code(u)) ensures v in AllTargets(b.Code(u)) { ExitIsTarget(b.Code(u), v); }
    forall v <- d ensures OnlyFrom(c, d, v) { assert OnlyFrom(b, d, v); }
  }

  /** After a loop has been entered and its condition tested: entry, body and exit are dead if the loop is placed behind
      a block that was shut. */
  lemma EntryDead(b: Build, cur: Label, cond: S.Expr, sc: S.Scope, d: set<Label>, root: Label) returns (d': set<Label>)
    requires DeadSet(b, d, root) && cur in b.code
    ensures var e, y, x := b.nextLabel, b.nextLabel + 1, b.nextLabel + 2;
      var c := Branch(NewFor(b, cur).Append(cur, [Br(e)]), e, cond, sc, y, x, true);
      DeadSet(c, d', root) && d' == if Shut(b, d, cur) then d + {e, y, x} else d
  {
    hide DeadSet, OnlyFrom, Build.Valid, Grows, Test, Expr, AllTargets, Exits, Build.Append, NewFor, Terminated;
    DeadValid(b, d, root);
    OldIsNotNew(b, d, root);
    var e, y, x := b.nextLabel, b.nextLabel + 1, b.nextLabel + 2;
    var b0 := NewFor(b, cur);
    NewForGrows(b, cur);
    GrowsKeys(e, cur, b, b0);
    NewForDead(b, cur, d, root);
    OneTarget(Br(e));
    BelowNext(b0, x);
    DeadAppend(b0, d, root, cur, [Br(e)]);
    var b1 := b0.Append(cur, [Br(e)]);
    AppendKeys(b0, cur, [Br(e)]);
    var c := Test(Expr(cond, sc, b1.nextReg), true);
    var ins := c.ins + [BrCond(c.opnd, y, x, EQ)];
    BranchTargets(cond, sc, b1.nextReg, y, x, true);
    var b2 := b1.Append(e, ins);
    AppendKeys(b1, e, ins);
    if Shut(b, d, cur) {
      OnlyFromAppend(b0, d, e, cur, [Br(e)]);
      OnlyFromAppend(b0, d, y, cur, [Br(e)]);
      OnlyFromAppend(b0, d, x, cur, [Br(e)]);
      DeadAdd(b1, d, root, e);
      OnlyFromMono(b1, d, d + {e}, y);
      OnlyFromMono(b1, d, d + {e}, x);
      DeadAppend(b1, d + {e}, root, e, ins);
      OnlyFromAppend(b1, d + {e}, y, e, ins);
      OnlyFromAppend(b1, d + {e}, x, e, ins);
      DeadAdd(b2, d + {e}, root, y);
      OnlyFromMono(b2, d + {e}, d + {e} + {y}, x);
      DeadAdd(b2, d + {e} + {y}, root, x);
      assert d + {e} + {y} + {x} == d + {e, y, x};
      d' := d + {e, y, x};
    } else {
      d' := d;
      DeadAppend(b1, d, root, e, ins);
    }
    NextRegDead(b2, d', root, c.next);
  }

  /** A loop never shuts what follows it, but stays dead as a whole where it is placed behind a block that was shut. */
  lemma ForDead(s: S.Stm, cur: Label, b: Build, sc: S.Scope, d: set<Label>, root: Label) returns (d': set<Label>)
    requires s.Loop? && DeadSet(b, d, root) && cur in b.code
    ensures DeadAfter(b, cur, For(s, cur, b, sc), d, d', root, false)
    decreases s, 1
  {
    hide DeadSet, OnlyFrom, Build.Valid, Branch, AllTargets, Exits, Build.Append, Build.Code, NewFor, Terminated;
    DeadValid(b, d, root);
    OldIsNotNew(b, d, root);
    var e, y, x := b.nextLabel, b.nextLabel + 1, b.nextLabel + 2;
    var b2 := Branch(NewFor(b, cur).Append(cur, [Br(e)]), e, s.cond, sc, y, x, true);
    ForPieces(s, cur, b, sc);
    var d0 := EntryDead(b, cur, s.cond, sc, d, root);
    d' := NestedDead(s.block, y, b2, sc, e, d0, root);
  }

  lemma IfExitRegistered(s: S.Stm, cur: Label, b: Build, sc: S.Scope)
    requires s.Conditional? && b.Valid() && cur in b.code
    ensures If(s, cur, b, sc).cur in If(s, cur, b, sc).b.code
  {
    StmGrows(s, cur, b, sc);
  }

  // ----- Ended blocks -----

  /** Every block outside open has a terminator. */
  ghost predicate EndedBut(b: Build, open: set<Label>) {
    forall l <- b.code :: l !in open ==> Terminated(b.Code(l))
  }

  lemma AppendKeepsEnded(b: Build, open: set<Label>, l: Label, ins: seq<Instr>)
    requires EndedBut(b, open) && l in b.code
    ensures EndedBut(b.Append(l, ins), if Terminated(ins) then open - {l} else open)
  {
    FirstExitAppend(b.Code(l), ins);
    var c := b.Append(l, ins);
    assert forall u :: u != l ==> c.Code(u) == b.Code(u);
  }

  lemma EndedMono(b: Build, open: set<Label>, open': set<Label>)
    requires EndedBut(b, open) && open <= open'
    ensures EndedBut(b, open')
  {
  }

  lemma NextRegEnded(b: Build, open: set<Label>, r: nat)
    requires EndedBut(b, open)
    ensures EndedBut(b.(nextReg := r), open)
  {
    assert forall u :: b.(nextReg := r).Code(u) == b.Code(u);
  }

  lemma AddBlockEnded(b: Build, open: set<Label>, preds: seq<Label>, succs: seq<Label>, exit: Option<Label>)
    requires EndedBut(b, open)
    ensures EndedBut(AddBlock(b, preds, succs, exit), open + {b.nextLabel})
  {
    var c := AddBlock(b, preds, succs, exit);
    assert forall u: Label :: u != b.nextLabel ==> c.Code(u) == b.Code(u);
  }

  lemma AddSuccsEnded(b: Build, open: set<Label>, l: Label, ls: seq<Label>)
    requires EndedBut(b, open)
    ensures EndedBut(AddSuccs(b, l, ls), open)
  {
    assert forall u: Label :: AddSuccs(b, l, ls).Code(u) == b.Code(u);
  }

  lemma NewIfEnded(b: Build, cur: Label, open: set<Label>)
    requires EndedBut(b, open)
    ensures var n := b.nextLabel; EndedBut(NewIf(b, cur), open + {n} + {n + 1} + {n + 2})
  {
    hide EndedBut;
    var t, f, x := b.nextLabel, b.nextLabel + 1, b.nextLabel + 2;
    var b0 := AddSuccs(b, cur, [t, f]);
    var b1 := AddBlock(b0, [cur], [x], b.LoopExit(cur));
    AddSuccsEnded(b, open, cur, [t, f]);
    AddBlockEnded(b0, open, [cur], [x], b.LoopExit(cur));
    AddBlockEnded(b1, open + {t}, [cur], [x], b.LoopExit(cur));
    AddBlockEnded(AddBlock(b1, [cur], [x], b.LoopExit(cur)), open + {t} + {f}, [t, f], [], b.LoopExit(cur));
  }

  lemma NewForEnded(b: Build, cur: Label, open: set<Label>)
    requires EndedBut(b, open)
    ensures var n := b.nextLabel; EndedBut(NewFor(b, cur), open + {n} + {n + 1} + {n + 2})
  {
    hide EndedBut;
    var e, y, x := b.nextLabel, b.nextLabel + 1, b.nextLabel + 2;
    var b0 := AddSuccs(b, cur, [e]);
    var b1 := AddBlock(b0, [], [y, x], Some(x));
    AddSuccsEnded(b, open, cur, [e]);
    AddBlockEnded(b0, open, [], [y, x], Some(x));
    AddBlockEnded(b1, open + {e}, [e], [e], Some(x));
    AddBlockEnded(AddBlock(b1, [e], [e], Some(x)), open + {e} + {y}, [e], [], None);
  }

  lemma BranchEnds(b: Build, open: set<Label>, at: Label, cond: S.Expr, sc: S.Scope, t: Label, f: Label, isLoop: bool)
    requires EndedBut(b, open) && at in b.code
    ensures EndedBut(Branch(b, at, cond, sc, t, f, isLoop), open - {at})
  {
    hide Expr, Test;
    var c := Test(Expr(cond, sc, b.nextReg), isLoop);
    LastEnds(c.ins, BrCond(c.opnd, t, f, EQ));
    AppendKeepsEnded(b, open, at, c.ins + [BrCond(c.opnd, t, f, EQ)]);
    NextRegEnded(b.Append(at, c.ins + [BrCond(c.opnd, t, f, EQ)]), open - {at}, c.next);
  }

  lemma LastEnds(ins: seq<Instr>, i: Instr)
    requires i.IsTerminator()
    ensures Terminated(ins + [i])
  {
    assert (ins + [i])[|ins|] == i;
  }

  /** Every statement ends its block, except that execution goes on in the block it is left in. */
  lemma StmEnds(s: S.Stm, cur: Label, b: Build, sc: S.Scope, open: set<Label>)
    requires b.Valid() && cur in b.code && EndedBut(b, open + {cur})
    ensures var p := Stm(s, cur, b, sc); EndedBut(p.b, open + {p.cur})
    decreases s, 2
  {
    hide EndedBut, Build.Valid, FirstExit, Simple;
    if s.Conditional? {
      IfEnds(s, cur, b, sc, open);
    } else if s.Loop? {
      ForEnds(s, cur, b, sc, open);
    } else {
      var (ins, next) := Simple(s, sc, b.nextReg);
      AppendKeepsEnded(b, open + {cur}, cur, ins);
      EndedMono(b.Append(cur, ins), if Terminated(ins) then open + {cur} - {cur} else open + {cur}, open + {cur});
      NextRegEnded(b.Append(cur, ins), open + {cur}, next);
    }
  }

  lemma StmsEnd(ss: seq<S.Stm>, cur: Label, b: Build, sc: S.Scope, open: set<Label>)
    requires b.Valid() && cur in b.code && EndedBut(b, open + {cur})
    ensures var p := Stms(ss, cur, b, sc); EndedBut(p.b, open + {p.cur})
    decreases ss, 0
  {
    hide EndedBut, Build.Valid, Grows;
    if ss != [] {
      var p := Stm(ss[0], cur, b, sc);
      StmEnds(ss[0], cur, b, sc, open);
      StmGrows(ss[0], cur, b, sc);
      GrowsKeys(b.nextLabel, cur, b, p.b);
      StmsEnd(ss[1..], p.cur, p.b, sc, open);
    }
  }

  lemma NestedEnds(ss: seq<S.Stm>, at: Label, b: Build, sc: S.Scope, x: Label, open: set<Label>)
    requires b.Valid() && at in b.code && EndedBut(b, open + {at})
    ensures EndedBut(Nested(ss, at, b, sc, x), open)
    decreases ss, 1
  {
    hide EndedBut, Build.Valid, Grows;
    var p := Stms(ss, at, b, sc);
    StmsEnd(ss, at, b, sc, open);
    StmsGrows(ss, at, b, sc);
    LastEnds([], Br(x));
    assert [] + [Br(x)] == [Br(x)];
    AppendKeepsEnded(p.b, open + {p.cur}, p.cur, [Br(x)]);
    EndedMono(p.b.Append(p.cur, [Br(x)]), open + {p.cur} - {p.cur}, open);
  }

  lemma IfEnds(s: S.Stm, cur: Label, b: Build, sc: S.Scope, open: set<Label>)
    requires s.Conditional? && b.Valid() && cur in b.code && EndedBut(b, open + {cur})
    ensures var p := If(s, cur, b, sc); EndedBut(p.b, open + {p.cur})
    decreases s, 1
  {
    hide EndedBut, Build.Valid, NewIf, Branch, Build.Append;
    var t, f, x := b.nextLabel, b.nextLabel + 1, b.nextLabel + 2;
    var b0 := NewIf(b, cur);
    var b1 := Branch(b0, cur, s.cond, sc, t, f, false);
    var b2 := Nested(s.ifblock, t, b1, sc, x);
    IfPieces(s, cur, b, sc);
    NewIfEnded(b, cur, open + {cur});
    BranchEnds(b0, open + {cur} + {t} + {f} + {x}, cur, s.cond, sc, t, f, false);
    EndedMono(b1, open + {cur} + {t} + {f} + {x} - {cur}, open + {x} + {f} + {t});
    NestedEnds(s.ifblock, t, b1, sc, x, open + {x} + {f});
    if s.elseblock.Else? {
      NestedEnds(s.elseblock.stms, f, b2, sc, x, open + {x});
    } else {
      LastEnds([], Br(x));
      assert [] + [Br(x)] == [Br(x)];
      AppendKeepsEnded(b2, open + {x} + {f}, f, [Br(x)]);
      EndedMono(b2.Append(f, [Br(x)]), open + {x} + {f} - {f}, open + {x});
    }
  }

  lemma ForEnds(s: S.Stm, cur: Label, b: Build, sc: S.Scope, open: set<Label>)
    requires s.Loop? && b.Valid() && cur in b.code && EndedBut(b, open + {cur})
    ensures var p := For(s, cur, b, sc); EndedBut(p.b, open + {p.cur})
    decreases s, 1
  {
    hide EndedBut, Build.Valid, NewFor, Branch, Build.Append;
    var e, y, x := b.nextLabel, b.nextLabel + 1, b.nextLabel + 2;
    var b0 := NewFor(b, cur);
    var b1 := b0.Append(cur, [Br(e)]);
    var b2 := Branch(b1, e, s.cond, sc, y, x, true);
    ForPieces(s, cur, b, sc);
    NewForEnded(b, cur, open + {cur});
    LastEnds([], Br(e));
    assert [] + [Br(e)] == [Br(e)];
    AppendKeepsEnded(b0, open + {cur} + {e} + {y} + {x}, cur, [Br(e)]);
    BranchEnds(b1, open + {cur} + {e} + {y} + {x} - {cur}, e, s.cond, sc, y, x, true);
    EndedMono(b2, open + {cur} + {e} + {y} + {x} - {cur} - {e}, open + {x} + {y});
    NestedEnds(s.block, y, b2, sc, e, open + {x});
  }
}
