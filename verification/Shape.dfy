/** The shape of generated graphs: which blocks every path to a block goes through, and how the recorded
    successor edges cover the branches although they are not the branch graph. */
module Shape {
  import opened Words
  import opened Ir
  import opened IrSemantics
  import opened Translation
  import opened Growth
  import opened ExprPreservation
  import S = Source

  type Doms = map<Label, set<Label>>

  function AllTargets(ins: seq<Instr>): set<Label> {
    if ins == [] then {} else ins[0].Targets() + AllTargets(ins[1..])
  }

  lemma {:induction false} AllTargetsAppend(a: seq<Instr>, b: seq<Instr>)
    ensures AllTargets(a + b) == AllTargets(a) + AllTargets(b)
  {
    if a == [] {
      assert a + b == b;
    } else {
      assert (a + b)[1..] == a[1..] + b;
      AllTargetsAppend(a[1..], b);
    }
  }

  lemma {:induction false} StraightHasNoTargets(ins: seq<Instr>)
    requires Straight(ins)
    ensures AllTargets(ins) == {}
  {
    if ins != [] {
      assert !ins[0].IsTerminator();
      StraightHasNoTargets(ins[1..]);
    }
  }

  /** dom[l] holds l, the root, and with each block everything that block is behind. */
  ghost predicate DomsNest(dom: Doms, root: Label) {
    && root in dom && dom[root] == {root}
    && (forall l <- dom :: l in dom[l] && root in dom[l] && dom[l] <= dom.Keys)
    && (forall l <- dom, k <- dom :: k in dom[l] ==> dom[k] <= dom[l])
  }

  /** A branch from u to v: all that v is behind u is behind too, and one of the blocks u is behind has a recorded edge
      to v. */
  ghost predicate EdgeCovered(succs: map<Label, seq<Label>>, dom: Doms, u: Label, v: Label) {
    && u in dom && v in dom && dom[v] - {v} <= dom[u]
    && exists k :: k in dom[u] && Recorded(succs, k, v)
  }

  ghost predicate EdgesCovered(code: Code, succs: map<Label, seq<Label>>, dom: Doms) {
    forall u, v :: u in code && v in AllTargets(code[u]) ==> EdgeCovered(succs, dom, u, v)
  }

  ghost predicate Recorded(succs: map<Label, seq<Label>>, k: Label, v: Label) {
    k in succs && v in succs[k]
  }

  /** Recorded edges stay inside the graph, and every block but the root has one from an older block. */
  ghost predicate Linked(succs: map<Label, seq<Label>>, root: Label) {
    LinkedBut(succs, root, 0, 0)
  }

  /** The same for a graph still to receive the blocks from lo up to hi. */
  ghost predicate LinkedBut(succs: map<Label, seq<Label>>, root: Label, lo: Label, hi: Label) {
    && root in succs
    && (forall k: Label, v: Label :: Recorded(succs, k, v) ==> v in succs || lo <= v < hi)
    && (forall l <- succs :: l != root ==> HasOlderPred(succs, l))
  }

  ghost predicate HasOlderPred(succs: map<Label, seq<Label>>, l: Label) {
    exists k: Label :: Recorded(succs, k, l) && k < l
  }

  ghost predicate Nests(b: Build, dom: Doms, root: Label) {
    b.Valid() && dom.Keys == b.code.Keys && DomsNest(dom, root) && EdgesCovered(b.code, b.succs, dom)
  }

  ghost predicate Shaped(b: Build, dom: Doms, root: Label) {
    Nests(b, dom, root) && Linked(b.succs, root)
  }

  /** A set of blocks that holds the root and everything its members are behind. */
  ghost predicate Behind(dom: Doms, root: Label, h: set<Label>) {
    h <= dom.Keys && root in h && forall k <- h :: dom[k] <= h
  }

  ghost predicate DomsExtend(dom: Doms, dom': Doms) {
    forall l <- dom :: l in dom' && dom'[l] == dom[l]
  }

  lemma DomsExtendTrans(a: Doms, b: Doms, c: Doms)
    requires DomsExtend(a, b) && DomsExtend(b, c)
    ensures DomsExtend(a, c)
  {
  }

  ghost predicate SuccsGrow(succs: map<Label, seq<Label>>, succs': map<Label, seq<Label>>) {
    forall k: Label, v: Label :: Recorded(succs, k, v) ==> Recorded(succs', k, v)
  }

  lemma EdgeStaysCovered(succs: map<Label, seq<Label>>, dom: Doms, succs': map<Label, seq<Label>>, dom': Doms,
                         u: Label, v: Label)
    requires EdgeCovered(succs, dom, u, v) && SuccsGrow(succs, succs') && DomsExtend(dom, dom')
    ensures EdgeCovered(succs', dom', u, v)
  {
    var k :| k in dom[u] && Recorded(succs, k, v);
    assert k in dom'[u] && Recorded(succs', k, v);
  }

  lemma EdgesStayCovered(code: Code, succs: map<Label, seq<Label>>, dom: Doms, succs': map<Label, seq<Label>>,
                         dom': Doms)
    requires EdgesCovered(code, succs, dom) && SuccsGrow(succs, succs') && DomsExtend(dom, dom')
    ensures EdgesCovered(code, succs', dom')
  {
    forall u, v | u in code && v in AllTargets(code[u]) ensures EdgeCovered(succs', dom', u, v) {
      EdgeStaysCovered(succs, dom, succs', dom', u, v);
    }
  }

  lemma EdgesAppend(code: Code, succs: map<Label, seq<Label>>, dom: Doms, l: Label, ins: seq<Instr>)
    requires EdgesCovered(code, succs, dom) && l in code
    requires forall v <- AllTargets(ins) :: EdgeCovered(succs, dom, l, v)
    ensures EdgesCovered(code[l := code[l] + ins], succs, dom)
  {
    hide EdgeCovered;
    AllTargetsAppend(code[l], ins);
  }

  /** Appending instructions whose branch targets are covered keeps the shape. */
  lemma AppendShaped(b: Build, dom: Doms, root: Label, l: Label, ins: seq<Instr>)
    requires Shaped(b, dom, root) && l in dom
    requires forall v <- AllTargets(ins) :: EdgeCovered(b.succs, dom, l, v)
    ensures Shaped(b.Append(l, ins), dom, root) && b.Append(l, ins).succs == b.succs
  {
    hide EdgesCovered, Linked, DomsNest, EdgeCovered;
    EdgesAppend(b.code, b.succs, dom, l, ins);
  }

  lemma DomsAdd(dom: Doms, root: Label, l: Label, behind: set<Label>)
    requires DomsNest(dom, root) && l !in dom
    requires behind <= dom.Keys && root in behind && forall k <- behind :: dom[k] <= behind
    ensures DomsNest(dom[l := behind + {l}], root) && DomsExtend(dom, dom[l := behind + {l}])
  {
  }

  lemma EdgesAddBlock(code: Code, succs: map<Label, seq<Label>>, dom: Doms, l: Label)
    requires EdgesCovered(code, succs, dom)
    ensures EdgesCovered(code[l := []], succs, dom)
  {
    hide EdgeCovered;
  }

  /** A new block that everything in h, and nothing else, lies before. */
  lemma AddBlockNests(b: Build, dom: Doms, root: Label, preds: seq<Label>, succs: seq<Label>, exit: Option<Label>,
                      h: set<Label>)
    requires Nests(b, dom, root) && Behind(dom, root, h)
    ensures Nests(AddBlock(b, preds, succs, exit), dom[b.nextLabel := h + {b.nextLabel}], root)
    ensures DomsExtend(dom, dom[b.nextLabel := h + {b.nextLabel}])
    ensures AddBlock(b, preds, succs, exit).nextLabel == b.nextLabel + 1
    ensures Behind(dom[b.nextLabel := h + {b.nextLabel}], root, h)
    ensures Behind(dom[b.nextLabel := h + {b.nextLabel}], root, h + {b.nextLabel})
  {
    var l := b.nextLabel;
    hide DomsNest, EdgesCovered;
    DomsAdd(dom, root, l, h);
    EdgesAddBlock(b.code, b.succs, dom, l);
    EdgesStayCovered(b.code[l := []], b.succs, dom, b.succs[l := succs], dom[l := h + {l}]);
  }

  lemma CurBehind(b: Build, dom: Doms, root: Label, cur: Label)
    requires Nests(b, dom, root) && cur in dom
    ensures Behind(dom, root, dom[cur]) && cur in dom[cur]
  {
  }

  lemma AddSuccsNests(b: Build, dom: Doms, root: Label, cur: Label, ls: seq<Label>)
    requires Nests(b, dom, root) && cur in dom
    ensures Nests(AddSuccs(b, cur, ls), dom, root) && AddSuccs(b, cur, ls).nextLabel == b.nextLabel
  {
    hide EdgesCovered, DomsNest, SuccsGrow;
    AddSuccsGrow(b, cur, ls);
    EdgesStayCovered(b.code, b.succs, dom, AddSuccs(b, cur, ls).succs, dom);
  }

  lemma AddSuccsGrow(b: Build, cur: Label, ls: seq<Label>)
    requires b.Valid() && cur in b.code
    ensures SuccsGrow(b.succs, AddSuccs(b, cur, ls).succs)
  {
    RecordedAppend(b.succs, cur, ls);
  }

  // ----- The constructs -----

  lemma RecordedInsert(succs: map<Label, seq<Label>>, l: Label, ls: seq<Label>)
    requires l !in succs
    ensures forall k: Label, v: Label :: Recorded(succs[l := ls], k, v) <==>
        Recorded(succs, k, v) || (k == l && v in ls)
  {
    var s := succs[l := ls];
    forall k: Label, v: Label ensures Recorded(s, k, v) <==> Recorded(succs, k, v) || (k == l && v in ls) {
      if k == l { assert s[k] == ls; }
    }
  }

  lemma RecordedAppend(succs: map<Label, seq<Label>>, l: Label, ls: seq<Label>)
    requires l in succs
    ensures forall k: Label, v: Label :: Recorded(succs[l := succs[l] + ls], k, v) <==>
        Recorded(succs, k, v) || (k == l && v in ls)
  {
    var s := succs[l := succs[l] + ls];
    forall k: Label, v: Label ensures Recorded(s, k, v) <==> Recorded(succs, k, v) || (k == l && v in ls) {
      if k == l { assert s[k] == succs[k] + ls; }
    }
  }

  /** More recorded edges keep the older predecessors there were. */
  lemma OlderPredsStay(succs: map<Label, seq<Label>>, s: map<Label, seq<Label>>, root: Label)
    requires forall l <- succs :: l != root ==> HasOlderPred(succs, l)
    requires SuccsGrow(succs, s)
    ensures forall l <- succs :: l != root ==> HasOlderPred(s, l)
  {
    forall l <- succs | l != root ensures HasOlderPred(s, l) {
      var k: Label :| Recorded(succs, k, l) && k < l;
      assert Recorded(s, k, l);
    }
  }

  lemma LinkMore(succs: map<Label, seq<Label>>, root: Label, cur: Label, ls: seq<Label>, lo: Label, hi: Label)
    requires Linked(succs, root) && cur in succs && forall v <- ls :: lo <= v < hi
    ensures LinkedBut(succs[cur := succs[cur] + ls], root, lo, hi)
    ensures SuccsGrow(succs, succs[cur := succs[cur] + ls])
    ensures forall v <- ls :: Recorded(succs[cur := succs[cur] + ls], cur, v)
  {
    hide Recorded;
    var s := succs[cur := succs[cur] + ls];
    RecordedAppend(succs, cur, ls);
    OlderPredsStay(succs, s, root);
    forall k: Label, v: Label | Recorded(s, k, v) ensures v in s || lo <= v < hi {
      assert Recorded(succs, k, v) || v in ls;
    }
  }

  lemma LinkBlock(succs: map<Label, seq<Label>>, root: Label, l: Label, ls: seq<Label>, hi: Label, pred: Label)
    requires LinkedBut(succs, root, l, hi) && l !in succs && l < hi && Recorded(succs, pred, l) && pred < l
    requires forall v <- ls :: v in succs || l <= v < hi
    ensures LinkedBut(succs[l := ls], root, l + 1, hi) && SuccsGrow(succs, succs[l := ls])
    ensures forall v <- ls :: Recorded(succs[l := ls], l, v)
  {
    hide Recorded;
    RecordedInsert(succs, l, ls);
    var s := succs[l := ls];
    assert Recorded(s, pred, l);
    OlderPredsStay(succs, s, root);
    forall k: Label, v: Label | Recorded(s, k, v) ensures v in s || l + 1 <= v < hi {
      assert Recorded(succs, k, v) || v in ls;
    }
  }

  lemma SuccsGrowTrans(a: map<Label, seq<Label>>, b: map<Label, seq<Label>>, c: map<Label, seq<Label>>)
    requires SuccsGrow(a, b) && SuccsGrow(b, c)
    ensures SuccsGrow(a, c)
  {
  }

  lemma LinkedNewIf(b: Build, cur: Label, root: Label)
    requires b.Valid() && cur in b.code && Linked(b.succs, root)
    ensures Linked(NewIf(b, cur).succs, root) && SuccsGrow(b.succs, NewIf(b, cur).succs)
    ensures var t := b.nextLabel; var s := NewIf(b, cur).succs;
      Recorded(s, cur, t) && Recorded(s, cur, t + 1) && Recorded(s, t, t + 2) && Recorded(s, t + 1, t + 2)
  {
    hide Linked, Recorded, SuccsGrow;
    LinkThree(b.succs, root, cur, b.nextLabel, [b.nextLabel, b.nextLabel + 1], [b.nextLabel + 2], [b.nextLabel + 2],
              cur, b.nextLabel);
  }

  lemma LinkedNewFor(b: Build, cur: Label, root: Label)
    requires b.Valid() && cur in b.code && Linked(b.succs, root)
    ensures Linked(NewFor(b, cur).succs, root) && SuccsGrow(b.succs, NewFor(b, cur).succs)
    ensures var e := b.nextLabel; var s := NewFor(b, cur).succs;
      Recorded(s, cur, e) && Recorded(s, e, e + 1) && Recorded(s, e, e + 2) && Recorded(s, e + 1, e)
  {
    hide Linked, Recorded, SuccsGrow;
    LinkThree(b.succs, root, cur, b.nextLabel, [b.nextLabel], [b.nextLabel + 1, b.nextLabel + 2], [b.nextLabel],
              b.nextLabel, b.nextLabel);
  }

  /** Three new blocks numbered from n, the first recorded after cur, the others after k2 and k3. */
  lemma LinkThree(succs: map<Label, seq<Label>>, root: Label, cur: Label, n: Label,
                  ls: seq<Label>, l1: seq<Label>, l2: seq<Label>, k2: Label, k3: Label)
    requires Linked(succs, root) && cur in succs && cur < n && n !in succs && n + 1 !in succs && n + 2 !in succs
    requires (forall v <- ls :: n <= v < n + 3) && (forall v <- l1 :: n <= v < n + 3)
    requires (forall v <- l2 :: n <= v < n + 3)
    requires n in ls && k3 == n && n + 2 in l1
    requires (k2 == cur && n + 1 in ls) || (k2 == n && n + 1 in l1)
    ensures var s := succs[cur := succs[cur] + ls][n := l1][n + 1 := l2][n + 2 := []];
      && Linked(s, root) && SuccsGrow(succs, s)
      && (forall v <- ls :: Recorded(s, cur, v)) && (forall v <- l1 :: Recorded(s, n, v))
          && (forall v <- l2 :: Recorded(s, n + 1, v))
  {
    hide Recorded, LinkedBut, SuccsGrow;
    var s0 := succs[cur := succs[cur] + ls];
    var s1 := s0[n := l1];
    var s2 := s1[n + 1 := l2];
    var s3 := s2[n + 2 := []];
    LinkMore(succs, root, cur, ls, n, n + 3);
    LinkBlock(s0, root, n, l1, n + 3, cur);
    SuccsGrowRecorded(s0, s1);
    LinkBlock(s1, root, n + 1, l2, n + 3, k2);
    SuccsGrowRecorded(s1, s2);
    LinkBlock(s2, root, n + 2, [], n + 3, k3);
    SuccsGrowRecorded(s2, s3);
    SuccsGrowTrans(succs, s0, s1);
    SuccsGrowTrans(succs, s1, s2);
    SuccsGrowTrans(succs, s2, s3);
    LinkedWhenFull(s3, root, n + 3);
  }

  lemma SuccsGrowRecorded(a: map<Label, seq<Label>>, b: map<Label, seq<Label>>)
    requires SuccsGrow(a, b)
    ensures forall k: Label, v: Label :: Recorded(a, k, v) ==> Recorded(b, k, v)
  {
  }

  lemma LinkedWhenFull(s: map<Label, seq<Label>>, root: Label, n: Label)
    requires LinkedBut(s, root, n, n)
    ensures Linked(s, root)
  {
  }

  lemma CoveredBy(succs: map<Label, seq<Label>>, dom: Doms, u: Label, v: Label, k: Label)
    requires u in dom && v in dom && dom[v] - {v} <= dom[u] && k in dom[u] && Recorded(succs, k, v)
    ensures EdgeCovered(succs, dom, u, v)
  {
  }

  /** The blocks of a new conditional are behind cur, and its branches will be covered. */
  ghost predicate IfShape(c: Build, dom: Doms, dom': Doms, root: Label, cur: Label, t: Label, f: Label, x: Label) {
    && Shaped(c, dom', root) && DomsExtend(dom, dom')
    && cur in dom' && t in dom' && f in dom' && x in dom' && cur in dom'[t] && cur in dom'[f] && cur in dom'[x]
    && EdgeCovered(c.succs, dom', cur, t) && EdgeCovered(c.succs, dom', cur, f)
    && EdgeCovered(c.succs, dom', t, x) && EdgeCovered(c.succs, dom', f, x)
  }

  /** The blocks of a new loop are behind cur, and its branches will be covered. */
  ghost predicate ForShape(c: Build, dom: Doms, dom': Doms, root: Label, cur: Label, e: Label, y: Label, x: Label) {
    && Shaped(c, dom', root) && DomsExtend(dom, dom')
    && cur in dom' && e in dom' && y in dom' && x in dom' && cur in dom'[x]
    && EdgeCovered(c.succs, dom', cur, e) && EdgeCovered(c.succs, dom', e, y) && EdgeCovered(c.succs, dom', e, x)
    && EdgeCovered(c.succs, dom', y, e)
  }

  lemma IfCovers(succs: map<Label, seq<Label>>, b: Build, dom: Doms, root: Label, cur: Label, t: Label, f: Label,
                 x: Label)
    requires Nests(b, dom, root) && cur in dom && t !in dom && f !in dom && x !in dom && t != f && f != x && t != x
    requires Recorded(succs, cur, t) && Recorded(succs, cur, f) && Recorded(succs, t, x) && Recorded(succs, f, x)
    ensures var d := dom[t := dom[cur] + {t}][f := dom[cur] + {f}][x := dom[cur] + {x}];
      && cur in d[t] && cur in d[f] && cur in d[x]
      && EdgeCovered(succs, d, cur, t) && EdgeCovered(succs, d, cur, f) && EdgeCovered(succs, d, t, x)
          && EdgeCovered(succs, d, f, x)
  {
    var d := dom[t := dom[cur] + {t}][f := dom[cur] + {f}][x := dom[cur] + {x}];
    hide Nests, EdgeCovered, Recorded, Behind;
    CurBehind(b, dom, root, cur);
    CoveredBy(succs, d, cur, t, cur);
    CoveredBy(succs, d, cur, f, cur);
    CoveredBy(succs, d, t, x, t);
    CoveredBy(succs, d, f, x, f);
  }

  lemma ForCovers(succs: map<Label, seq<Label>>, b: Build, dom: Doms, root: Label, cur: Label, e: Label, y: Label,
                  x: Label)
    requires Nests(b, dom, root) && cur in dom && e !in dom && y !in dom && x !in dom && e != y && y != x && e != x
    requires Recorded(succs, cur, e) && Recorded(succs, e, y) && Recorded(succs, e, x) && Recorded(succs, y, e)
    ensures var d := dom[e := dom[cur] + {e}][y := dom[cur] + {e} + {y}][x := dom[cur] + {e} + {x}];
      && cur in d[x]
      && EdgeCovered(succs, d, cur, e) && EdgeCovered(succs, d, e, y) && EdgeCovered(succs, d, e, x)
          && EdgeCovered(succs, d, y, e)
  {
    var d := dom[e := dom[cur] + {e}][y := dom[cur] + {e} + {y}][x := dom[cur] + {e} + {x}];
    hide Nests, EdgeCovered, Recorded, Behind;
    CurBehind(b, dom, root, cur);
    assert d[cur] == dom[cur] && d[e] == dom[cur] + {e} && d[y] == d[e] + {y} && d[x] == d[e] + {x};
    CoveredBy(succs, d, cur, e, cur);
    CoveredBy(succs, d, e, y, e);
    CoveredBy(succs, d, e, x, e);
    CoveredBy(succs, d, y, e, y);
  }

  lemma NewIfShaped(b: Build, dom: Doms, root: Label, cur: Label) returns (dom': Doms)
    requires Shaped(b, dom, root) && cur in dom
    ensures IfShape(NewIf(b, cur), dom, dom', root, cur, b.nextLabel, b.nextLabel + 1, b.nextLabel + 2)
  {
    hide Nests, Linked, EdgeCovered, SuccsGrow, Recorded, Behind, AddBlock, AddSuccs, DomsExtend, Build.Valid;
    var t, f, x := b.nextLabel, b.nextLabel + 1, b.nextLabel + 2;
    CurBehind(b, dom, root, cur);
    var h := dom[cur];
    var b0 := AddSuccs(b, cur, [t, f]);
    var b1 := AddBlock(b0, [cur], [x], b.LoopExit(cur));
    var b2 := AddBlock(b1, [cur], [x], b.LoopExit(cur));
    var d1 := dom[t := h + {t}];
    var d2 := d1[f := h + {f}];
    dom' := d2[x := h + {x}];
    AddSuccsNests(b, dom, root, cur, [t, f]);
    AddBlockNests(b0, dom, root, [cur], [x], b.LoopExit(cur), h);
    AddBlockNests(b1, d1, root, [cur], [x], b.LoopExit(cur), h);
    AddBlockNests(b2, d2, root, [t, f], [], b.LoopExit(cur), h);
    DomsExtendTrans(dom, d1, d2);
    DomsExtendTrans(dom, d2, dom');
    NestsValid(b, dom, root);
    LinkedNewIf(b, cur, root);
    IfCovers(NewIf(b, cur).succs, b, dom, root, cur, t, f, x);
  }

  lemma NestsValid(b: Build, dom: Doms, root: Label)
    requires Nests(b, dom, root)
    ensures b.Valid() && dom.Keys == b.code.Keys && forall l <- dom :: l < b.nextLabel
  {
  }

  lemma NewForShaped(b: Build, dom: Doms, root: Label, cur: Label) returns (dom': Doms)
    requires Shaped(b, dom, root) && cur in dom
    ensures ForShape(NewFor(b, cur), dom, dom', root, cur, b.nextLabel, b.nextLabel + 1, b.nextLabel + 2)
  {
    hide Nests, Linked, EdgeCovered, SuccsGrow, Recorded, Behind, AddBlock, AddSuccs, DomsExtend, Build.Valid;
    var e, y, x := b.nextLabel, b.nextLabel + 1, b.nextLabel + 2;
    CurBehind(b, dom, root, cur);
    var h := dom[cur];
    var b0 := AddSuccs(b, cur, [e]);
    var b1 := AddBlock(b0, [], [y, x], Some(x));
    var b2 := AddBlock(b1, [e], [e], Some(x));
    var d1 := dom[e := h + {e}];
    var d2 := d1[y := h + {e} + {y}];
    dom' := d2[x := h + {e} + {x}];
    AddSuccsNests(b, dom, root, cur, [e]);
    AddBlockNests(b0, dom, root, [], [y, x], Some(x), h);
    AddBlockNests(b1, d1, root, [e], [e], Some(x), h + {e});
    AddBlockNests(b2, d2, root, [e], [], None, h + {e});
    DomsExtendTrans(dom, d1, d2);
    DomsExtendTrans(dom, d2, dom');
    NestsValid(b, dom, root);
    LinkedNewFor(b, cur, root);
    ForCovers(NewFor(b, cur).succs, b, dom, root, cur, e, y, x);
  }

  // ----- Statements -----

  lemma GrowsSuccs(base: Label, cur: Label, b: Build, c: Build)
    requires Grows(base, cur, b, c)
    ensures SuccsGrow(b.succs, c.succs)
  {
  }

  lemma SimpleHasNoTargets(s: S.Stm, sc: S.Scope, n: nat)
    requires !s.Conditional? && !s.Loop?
    ensures AllTargets(Simple(s, sc, n).0) == {}
  {
    match s
    case Assignment(x, e) =>
      ExprShape(e, sc, n);
      StraightHasNoTargets(Simple(s, sc, n).0);
    case Print(_, es) =>
      ExprsShape(es, sc, n);
      StraightHasNoTargets(Simple(s, sc, n).0);
    case Invocation(_, es) =>
      ExprsShape(es, sc, n);
      StraightHasNoTargets(Simple(s, sc, n).0);
    case Read(_) =>
      StraightHasNoTargets(Simple(s, sc, n).0);
    case Return(None) => ReturnHasNoTargets(Imm(0, I64), n);
    case Return(Some(e)) =>
      var r := Expr(e, sc, n);
      ExprShape(e, sc, n);
      StraightHasNoTargets(r.ins);
      ReturnHasNoTargets(r.opnd, r.next);
      AllTargetsAppend(r.ins, ReturnOf(r.opnd, r.next));
  }

  lemma ReturnHasNoTargets(v: Operand, n: nat)
    ensures AllTargets(ReturnOf(v, n)) == {}
  {
    var r := ReturnOf(v, n);
    assert r == [r[0], r[1]] + [r[2]];
    StraightHasNoTargets([r[0], r[1]]);
    OneTarget(r[2]);
    AllTargetsAppend([r[0], r[1]], [r[2]]);
  }

  lemma OneTarget(i: Instr)
    ensures AllTargets([i]) == i.Targets()
  {
    assert [i][1..] == [];
    assert AllTargets([]) == {};
  }

  lemma TestIsStraight(c: Emitted, isLoop: bool)
    requires Straight(c.ins)
    ensures Straight(Test(c, isLoop).ins)
  {
  }

  lemma BranchTargets(cond: S.Expr, sc: S.Scope, n: nat, t: Label, f: Label, isLoop: bool)
    ensures var c := Test(Expr(cond, sc, n), isLoop); AllTargets(c.ins + [BrCond(c.opnd, t, f, EQ)]) == {t, f}
  {
    var c := Test(Expr(cond, sc, n), isLoop);
    ExprShape(cond, sc, n);
    TestIsStraight(Expr(cond, sc, n), isLoop);
    StraightHasNoTargets(c.ins);
    OneTarget(BrCond(c.opnd, t, f, EQ));
    AllTargetsAppend(c.ins, [BrCond(c.opnd, t, f, EQ)]);
  }

  lemma BranchShaped(b: Build, dom: Doms, root: Label, at: Label, cond: S.Expr, sc: S.Scope, t: Label, f: Label,
                     isLoop: bool)
    requires Shaped(b, dom, root) && at in dom
    requires EdgeCovered(b.succs, dom, at, t) && EdgeCovered(b.succs, dom, at, f)
    ensures Shaped(Branch(b, at, cond, sc, t, f, isLoop), dom, root)
    ensures Branch(b, at, cond, sc, t, f, isLoop).succs == b.succs
  {
    hide Expr, Test, AllTargets, Nests, Linked, EdgeCovered;
    var c := Test(Expr(cond, sc, b.nextReg), isLoop);
    BranchTargets(cond, sc, b.nextReg, t, f, isLoop);
    AppendShaped(b, dom, root, at, c.ins + [BrCond(c.opnd, t, f, EQ)]);
    NextRegShaped(b.Append(at, c.ins + [BrCond(c.opnd, t, f, EQ)]), dom, root, c.next);
  }

  lemma NextRegShaped(b: Build, dom: Doms, root: Label, r: nat)
    requires Shaped(b, dom, root)
    ensures Shaped(b.(nextReg := r), dom, root)
  {
  }

  /** A statement list placed behind cur: the shape is kept, and where it ends lies behind cur too. */
  ghost predicate StaysShaped(dom: Doms, dom': Doms, root: Label, cur: Label, p: Placed) {
    && Shaped(p.b, dom', root) && DomsExtend(dom, dom')
    && cur in dom' && p.cur in dom' && cur in dom'[p.cur]
  }

  lemma StmShaped(s: S.Stm, cur: Label, b: Build, sc: S.Scope, dom: Doms, root: Label) returns (dom': Doms)
    requires Shaped(b, dom, root) && cur in dom
    ensures StaysShaped(dom, dom', root, cur, Stm(s, cur, b, sc))
    decreases s, 2
  {
    if s.Conditional? {
      dom' := IfShaped(s, cur, b, sc, dom, root);
    } else if s.Loop? {
      dom' := ForShaped(s, cur, b, sc, dom, root);
    } else {
      SimpleHasNoTargets(s, sc, b.nextReg);
      AppendShaped(b, dom, root, cur, Simple(s, sc, b.nextReg).0);
      CurBehind(b, dom, root, cur);
      dom' := dom;
    }
  }

  lemma StmsShaped(ss: seq<S.Stm>, cur: Label, b: Build, sc: S.Scope, dom: Doms, root: Label) returns (dom': Doms)
    requires Shaped(b, dom, root) && cur in dom
    ensures StaysShaped(dom, dom', root, cur, Stms(ss, cur, b, sc))
    decreases ss, 0
  {
    hide Nests, Linked, NewIf, NewFor, Branch, Build.Append;
    CurBehind(b, dom, root, cur);
    if ss == [] {
      dom' := dom;
    } else {
      var p := Stm(ss[0], cur, b, sc);
      var d := StmShaped(ss[0], cur, b, sc, dom, root);
      dom' := StmsShaped(ss[1..], p.cur, p.b, sc, d, root);
      var q := Stms(ss[1..], p.cur, p.b, sc);
      BehindTrans(q.b, dom', root, p.cur, q.cur);
    }
  }

  lemma BehindTrans(b: Build, dom: Doms, root: Label, l: Label, k: Label)
    requires Nests(b, dom, root) && l in dom && k in dom && l in dom[k]
    ensures dom[l] <= dom[k]
  {
  }

  /** A nested list from at, then a branch to x. */
  lemma NestedShaped(ss: seq<S.Stm>, at: Label, b: Build, sc: S.Scope, x: Label, dom: Doms, root: Label)
    returns (dom': Doms)
    requires Shaped(b, dom, root) && at in dom && EdgeCovered(b.succs, dom, at, x)
    ensures Shaped(Nested(ss, at, b, sc, x), dom', root) && DomsExtend(dom, dom')
    ensures SuccsGrow(b.succs, Nested(ss, at, b, sc, x).succs)
    decreases ss, 1
  {
    hide Nests, Linked, EdgeCovered, SuccsGrow, Recorded, DomsExtend, Grows, Build.Valid, AllTargets;
    NestsValid(b, dom, root);
    var p := Stms(ss, at, b, sc);
    dom' := StmsShaped(ss, at, b, sc, dom, root);
    StmsGrows(ss, at, b, sc);
    GrowsSuccs(b.nextLabel, at, b, p.b);
    EdgeStaysCovered(b.succs, dom, p.b.succs, dom', at, x);
    CoveredFurther(p.b, dom', root, at, p.cur, x);
    OneTarget(Br(x));
    AppendShaped(p.b, dom', root, p.cur, [Br(x)]);
  }

  /** What is covered from a block is covered from every block behind it. */
  lemma CoveredFurther(b: Build, dom: Doms, root: Label, u: Label, v: Label, x: Label)
    requires Nests(b, dom, root) && EdgeCovered(b.succs, dom, u, x) && v in dom && u in dom[v]
    ensures EdgeCovered(b.succs, dom, v, x)
  {
    var k :| k in dom[u] && Recorded(b.succs, k, x);
    assert k in dom[v];
  }

  lemma IfShaped(s: S.Stm, cur: Label, b: Build, sc: S.Scope, dom: Doms, root: Label) returns (dom': Doms)
    requires Shaped(b, dom, root) && cur in dom && s.Conditional?
    ensures StaysShaped(dom, dom', root, cur, If(s, cur, b, sc))
    decreases s, 1
  {
    hide Nests, Linked, EdgeCovered, SuccsGrow, Recorded, DomsExtend, Build.Valid, AllTargets, NewIf, NewFor, Branch,
        Build.Append;
    var t, f, x := b.nextLabel, b.nextLabel + 1, b.nextLabel + 2;
    var b0 := NewIf(b, cur);
    var b1 := Branch(b0, cur, s.cond, sc, t, f, false);
    var b2 := Nested(s.ifblock, t, b1, sc, x);
    var d0 := NewIfShaped(b, dom, root, cur);
    BranchShaped(b0, d0, root, cur, s.cond, sc, t, f, false);
    var d1 := NestedShaped(s.ifblock, t, b1, sc, x, d0, root);
    EdgeStaysCovered(b1.succs, d0, b2.succs, d1, f, x);
    DomsExtendAt(d0, d1, f);
    DomsExtendTrans(dom, d0, d1);
    if s.elseblock.Else? {
      dom' := NestedShaped(s.elseblock.stms, f, b2, sc, x, d1, root);
    } else {
      dom' := d1;
      OneTarget(Br(x));
      AppendShaped(b2, d1, root, f, [Br(x)]);
      DomsExtendTrans(d1, d1, d1);
    }
    DomsExtendTrans(dom, d1, dom');
    DomsExtendTrans(d0, d1, dom');
    DomsExtendAt(d0, dom', x);
    DomsExtendAt(d0, dom', cur);
  }

  lemma DomsExtendAt(dom: Doms, dom': Doms, l: Label)
    requires DomsExtend(dom, dom') && l in dom
    ensures l in dom' && dom'[l] == dom[l]
  {
  }

  lemma ForShaped(s: S.Stm, cur: Label, b: Build, sc: S.Scope, dom: Doms, root: Label) returns (dom': Doms)
    requires Shaped(b, dom, root) && cur in dom && s.Loop?
    ensures StaysShaped(dom, dom', root, cur, For(s, cur, b, sc))
    decreases s, 1
  {
    hide Nests, Linked, EdgeCovered, SuccsGrow, Recorded, DomsExtend, Build.Valid, AllTargets, NewIf, NewFor, Branch,
        Build.Append;
    var e, y, x := b.nextLabel, b.nextLabel + 1, b.nextLabel + 2;
    var b0 := NewFor(b, cur);
    var b1 := b0.Append(cur, [Br(e)]);
    var b2 := Branch(b1, e, s.cond, sc, y, x, true);
    var d0 := NewForShaped(b, dom, root, cur);
    OneTarget(Br(e));
    AppendShaped(b0, d0, root, cur, [Br(e)]);
    BranchShaped(b1, d0, root, e, s.cond, sc, y, x, true);
    dom' := NestedShaped(s.block, y, b2, sc, e, d0, root);
    DomsExtendTrans(dom, d0, dom');
    DomsExtendAt(d0, dom', x);
    DomsExtendAt(d0, dom', cur);
  }
}
