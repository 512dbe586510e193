/** The return-path check: what it decides, and what it guarantees about generated blocks. */
module ReturnAnalysis {
  import opened Words
  import opened Events
  import S = Source

  /** The check on one statement and on a block: some statement of the block returns. */
  function StmReturns(s: S.Stm): bool
    decreases s, 1
  {
    match s
    case Return(_) => true
    case Conditional(_, t, e) => BlockReturns(t) && e.Else? && BlockReturns(e.stms)
    case Loop(_, b) => BlockReturns(b)
    case _ => false
  }

  function BlockReturns(ss: seq<S.Stm>): bool
    decreases ss, 0
  {
    ss != [] && (StmReturns(ss[0]) || BlockReturns(ss[1..]))
  }

  /** The function-level check, scanning from the last statement back. */
  function ReturnCheckHelper(ss: seq<S.Stm>, index: nat): bool
    requires index <= |ss|
  {
    index != 0 && (StmReturns(ss[index - 1]) || ReturnCheckHelper(ss, index - 1))
  }

  function ReturnCheck(f: S.Function): bool {
    f.ret.None? || ReturnCheckHelper(f.stms, |f.stms|)
  }

  lemma {:induction false} BlockReturnsAppend(a: seq<S.Stm>, b: seq<S.Stm>)
    ensures BlockReturns(a + b) == (BlockReturns(a) || BlockReturns(b))
  {
    if a == [] {
      assert a + b == b;
    } else {
      assert (a + b)[1..] == a[1..] + b;
      BlockReturnsAppend(a[1..], b);
    }
  }

  /** Scanning back from the end finds a returning statement exactly when scanning forward does. */
  lemma {:induction false} HelperIsBlockReturns(ss: seq<S.Stm>, index: nat)
    requires index <= |ss|
    ensures ReturnCheckHelper(ss, index) == BlockReturns(ss[..index])
  {
    if index > 0 {
      HelperIsBlockReturns(ss, index - 1);
      assert ss[..index] == ss[..index - 1] + [ss[index - 1]];
      BlockReturnsAppend(ss[..index - 1], [ss[index - 1]]);
      assert [ss[index - 1]][1..] == [];
    }
  }

  /** The exists-scan over the statements of a block, and the recursion it takes part in. */
  method BlockReturnCheck(ss: seq<S.Stm>) returns (b: bool)
    ensures b == BlockReturns(ss)
    decreases ss, 0
  {
    for i := 0 to |ss|
      invariant !BlockReturns(ss[..i])
    {
      assert ss[..i + 1] == ss[..i] + [ss[i]];
      BlockReturnsAppend(ss[..i], [ss[i]]);
      assert [ss[i]][1..] == [];
      var r := StmReturnCheck(ss[i]);
      if r {
        assert ss == ss[..i + 1] + ss[i + 1..];
        BlockReturnsAppend(ss[..i + 1], ss[i + 1..]);
        return true;
      }
    }
    assert ss[..|ss|] == ss;
    return false;
  }

  method StmReturnCheck(s: S.Stm) returns (b: bool)
    ensures b == StmReturns(s)
    decreases s, 1
  {
    match s
    case Return(_) => b := true;
    case Conditional(_, t, e) =>
      b := BlockReturnCheck(t);
      if b {
        if e.Else? { b := BlockReturnCheck(e.stms); } else { b := false; }
      }
    case Loop(_, body) => b := BlockReturnCheck(body);
    case _ => b := false;
  }

  // ----- Control paths, every loop entered at least once -----

  datatype Walk = Through(rest: seq<bool>) | Exited | Starved

  /** One control path: each decision picks a branch of a conditional or says whether a loop goes round again. */
  function WalkStm(s: S.Stm, ds: seq<bool>): (w: Walk)
    ensures w.Through? ==> |w.rest| <= |ds|
    decreases |ds|, s, 1
  {
    match s
    case Return(_) => Exited
    case Conditional(_, t, e) =>
      if ds == [] then Starved
      else if ds[0] then WalkAll(t, ds[1..])
      else if e.Else? then WalkAll(e.stms, ds[1..])
      else Through(ds[1..])
    case Loop(_, b) =>
      var w := WalkAll(b, ds);
      if !w.Through? then w
      else if w.rest == [] then Starved
      else if w.rest[0] then WalkStm(s, w.rest[1..])
      else Through(w.rest[1..])
    case _ => Through(ds)
  }

  function WalkAll(ss: seq<S.Stm>, ds: seq<bool>): (w: Walk)
    ensures w.Through? ==> |w.rest| <= |ds|
    decreases |ds|, ss, 0
  {
    if ss == [] then Through(ds)
    else
      var w := WalkStm(ss[0], ds);
      if w.Through? then WalkAll(ss[1..], w.rest) else w
  }

  /** No path falls through a statement that passes the check. */
  lemma {:induction false} CheckedNeverThrough(s: S.Stm, ds: seq<bool>)
    requires StmReturns(s)
    ensures !WalkStm(s, ds).Through?
    decreases |ds|, s, 1
  {
    match s
    case Return(_) =>
    case Conditional(_, t, e) =>
      if ds != [] {
        if ds[0] { CheckedBlockNeverThrough(t, ds[1..]); } else { CheckedBlockNeverThrough(e.stms, ds[1..]); }
      }
    case Loop(_, b) => CheckedBlockNeverThrough(b, ds);
  }

  lemma {:induction false} CheckedBlockNeverThrough(ss: seq<S.Stm>, ds: seq<bool>)
    requires BlockReturns(ss)
    ensures !WalkAll(ss, ds).Through?
    decreases |ds|, ss, 0
  {
    if StmReturns(ss[0]) {
      CheckedNeverThrough(ss[0], ds);
    } else {
      var w := WalkStm(ss[0], ds);
      if w.Through? { CheckedBlockNeverThrough(ss[1..], w.rest); }
    }
  }

  /** The decisions of a path through a statement that fails the check. */
  function Gap(s: S.Stm): seq<bool>
    decreases s, 1
  {
    match s
    case Conditional(_, t, e) =>
      if !BlockReturns(t) then [true] + BlockGap(t)
      else if e.Else? then [false] + BlockGap(e.stms)
      else [false]
    case Loop(_, b) => BlockGap(b) + [false]
    case _ => []
  }

  function BlockGap(ss: seq<S.Stm>): seq<bool>
    decreases ss, 0
  {
    if ss == [] then [] else Gap(ss[0]) + BlockGap(ss[1..])
  }

  /** That path falls through, leaving whatever decisions follow. */
  lemma {:induction false} GapFallsThrough(s: S.Stm, tail: seq<bool>)
    requires !StmReturns(s)
    ensures WalkStm(s, Gap(s) + tail) == Through(tail)
    decreases s, 1
  {
    if s.Conditional? {
      var ds := Gap(s) + tail;
      if !BlockReturns(s.ifblock) {
        assert ds[1..] == BlockGap(s.ifblock) + tail;
        BlockGapFallsThrough(s.ifblock, tail);
      } else if s.elseblock.Else? {
        assert ds[1..] == BlockGap(s.elseblock.stms) + tail;
        BlockGapFallsThrough(s.elseblock.stms, tail);
      } else {
        assert ds[1..] == tail;
      }
    } else if s.Loop? {
      assert Gap(s) + tail == BlockGap(s.block) + ([false] + tail);
      BlockGapFallsThrough(s.block, [false] + tail);
      assert ([false] + tail)[1..] == tail;
    } else {
      assert [] + tail == tail;
    }
  }

  lemma {:induction false} BlockGapFallsThrough(ss: seq<S.Stm>, tail: seq<bool>)
    requires !BlockReturns(ss)
    ensures WalkAll(ss, BlockGap(ss) + tail) == Through(tail)
    decreases ss, 0
  {
    if ss == [] {
      assert [] + tail == tail;
    } else {
      var rest := BlockGap(ss[1..]) + tail;
      var ds := BlockGap(ss) + tail;
      assert ds == Gap(ss[0]) + rest;
      GapFallsThrough(ss[0], rest);
      assert WalkStm(ss[0], ds) == Through(rest);
      BlockGapFallsThrough(ss[1..], tail);
    }
  }

  /** The check is exact: a function passes iff no control path, taking every loop at least once, falls off its end. */
  lemma ReturnCheckIsExact(f: S.Function)
    requires f.ret.Some?
    ensures ReturnCheck(f) <==> forall ds :: !WalkAll(f.stms, ds).Through?
  {
    HelperIsBlockReturns(f.stms, |f.stms|);
    assert f.stms[..|f.stms|] == f.stms;
    if BlockReturns(f.stms) {
      forall ds ensures !WalkAll(f.stms, ds).Through? { CheckedBlockNeverThrough(f.stms, ds); }
    } else {
      BlockGapFallsThrough(f.stms, []);
      assert WalkAll(f.stms, BlockGap(f.stms) + []).Through?;
    }
  }

  // ----- When a function cannot fall off its end -----

  /** What the check would have to ask: loops may be skipped, so a return inside one does not count. */
  predicate ReturnsOutsideLoops(ss: seq<S.Stm>)
    decreases ss, 0
  {
    ss != [] && (StmReturnsOutsideLoops(ss[0]) || ReturnsOutsideLoops(ss[1..]))
  }

  predicate StmReturnsOutsideLoops(s: S.Stm)
    decreases s, 1
  {
    match s
    case Return(_) => true
    case Conditional(_, t, e) => ReturnsOutsideLoops(t) && e.Else? && ReturnsOutsideLoops(e.stms)
    case _ => false
  }

  /** It is the stronger of the two, and the same where there are no loops. */
  lemma {:induction false} OutsideLoopsIsStronger(ss: seq<S.Stm>)
    ensures ReturnsOutsideLoops(ss) ==> BlockReturns(ss)
    ensures LoopFree(ss) ==> ReturnsOutsideLoops(ss) == BlockReturns(ss)
    decreases ss, 0
  {
    if ss != [] {
      StmOutsideLoopsIsStronger(ss[0]);
      OutsideLoopsIsStronger(ss[1..]);
    }
  }

  lemma {:induction false} StmOutsideLoopsIsStronger(s: S.Stm)
    ensures StmReturnsOutsideLoops(s) ==> StmReturns(s)
    ensures LoopFreeStm(s) ==> StmReturnsOutsideLoops(s) == StmReturns(s)
    decreases s, 1
  {
    if s.Conditional? {
      OutsideLoopsIsStronger(s.ifblock);
      if s.elseblock.Else? { OutsideLoopsIsStronger(s.elseblock.stms); }
    }
  }

  /** A loop whose condition is false at once skips the return inside it. */
  const SKIPS_RETURN :=
    S.Function("f", [], [], Some(S.IntType), [S.Loop(S.BoolLit(false), [S.Return(Some(S.IntLit(1)))])])

  lemma PassesButSkips()
    ensures ReturnCheck(SKIPS_RETURN) && !ReturnsOutsideLoops(SKIPS_RETURN.stms)
  {
    var loop := SKIPS_RETURN.stms[0];
    assert BlockReturns(loop.block);
    assert StmReturns(loop);
    assert SKIPS_RETURN.stms[1..] == [];
  }

  /** With loops the check does not mean that every run returns. */
  lemma LoopCanSkipReturn(sc: S.Scope, w: World, m: S.Memory)
    ensures ReturnCheck(SKIPS_RETURN) && S.ExecAll(SKIPS_RETURN.stms, m, sc, w, 1) == S.Done(m)
  {
    PassesButSkips();
    var loop := SKIPS_RETURN.stms[0];
    assert S.Exec(loop, m, sc, w, 1) == S.Done(m);
    assert SKIPS_RETURN.stms[1..] == [];
    assert S.ExecAll([], m, sc, w, 1) == S.Done(m);
  }

  predicate LoopFree(ss: seq<S.Stm>)
    decreases ss, 0
  {
    ss == [] || (LoopFreeStm(ss[0]) && LoopFree(ss[1..]))
  }

  predicate LoopFreeStm(s: S.Stm)
    decreases s, 1
  {
    match s
    case Conditional(_, t, e) => LoopFree(t) && (e.Else? ==> LoopFree(e.stms))
    case Loop(_, _) => false
    case _ => true
  }

  /** A run of such statements that comes to an end has returned, whatever loops are among them. */
  lemma {:induction false} OutsideLoopsRunReturns(ss: seq<S.Stm>, m: S.Memory, sc: S.Scope, w: World, fuel: nat)
    requires ReturnsOutsideLoops(ss)
    ensures !S.ExecAll(ss, m, sc, w, fuel).Done?
    decreases ss, 0
  {
    if StmReturnsOutsideLoops(ss[0]) {
      OutsideLoopsStmReturns(ss[0], m, sc, w, fuel);
    } else {
      var out := S.Exec(ss[0], m, sc, w, fuel);
      if out.Done? { OutsideLoopsRunReturns(ss[1..], out.mem, sc, w, fuel); }
    }
  }

  lemma {:induction false} OutsideLoopsStmReturns(s: S.Stm, m: S.Memory, sc: S.Scope, w: World, fuel: nat)
    requires StmReturnsOutsideLoops(s)
    ensures !S.Exec(s, m, sc, w, fuel).Done?
    decreases s, 1
  {
    match s
    case Return(_) =>
    case Conditional(c, t, e) =>
      match S.Eval(c, m, sc, w) {
        case Stuck =>
        case Value(v, m1) =>
          if v == 1 {
            OutsideLoopsRunReturns(t, m1, sc, w, fuel);
          } else {
            OutsideLoopsRunReturns(e.stms, m1, sc, w, fuel);
          }
      }
  }
}
