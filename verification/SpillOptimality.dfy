/** Linear scan keeps as many variables in registers as any choice over the same registers can. */
module SpillOptimality {
  import opened Ir
  import opened LinearScan
  import opened LinearScanSafety

  ghost predicate WellFormed(order: seq<Entry>, rg: Ranges) {
    forall v <- order :: At(rg.start, v) <= At(rg.end, v)
  }

  /** Any choice of pool registers for some of the variables in which overlapping intervals never share one. */
  ghost predicate Feasible(choice: map<Entry, int>, order: seq<Entry>, rg: Ranges) {
    && (forall v <- choice :: v in order && InPool(choice[v]))
    && (forall v <- choice, w <- choice :: v != w && rg.Overlap(v, w) ==> choice[v] != choice[w])
  }

  ghost function Kept(s: Scan): set<Entry> {
    set v | v in s.registers && s.registers[v] != -1
  }

  ghost function EndingBefore(vs: set<Entry>, rg: Ranges, x: int): set<Entry> {
    set v | v in vs && At(rg.end, v) < x
  }

  ghost function Covering(vs: set<Entry>, rg: Ranges, p: int): set<Entry> {
    set v | v in vs && At(rg.start, v) <= p <= At(rg.end, v)
  }

  /** At no point do more than 15 of the intervals meet. */
  ghost predicate AtMostPool(vs: set<Entry>, rg: Ranges) {
    forall p :: |Covering(vs, rg, p)| <= REGISTERS
  }

  lemma InjectionSize(choice: map<Entry, int>, vs: set<Entry>)
    requires vs <= choice.Keys
    requires forall v <- vs, w <- vs :: v != w ==> choice[v] != choice[w]
    ensures |vs| == |set v | v in vs :: choice[v]|
  {
    if vs != {} {
      var v :| v in vs;
      var rest := vs - {v};
      InjectionSize(choice, rest);
      assert (set w | w in vs :: choice[w]) == (set w | w in rest :: choice[w]) + {choice[v]};
    } else {
      assert (set v | v in vs :: choice[v]) == {};
    }
  }

  /** A feasible choice never has more than 15 intervals at a point, since those hold distinct registers. */
  lemma FeasibleIsAtMostPool(choice: map<Entry, int>, order: seq<Entry>, rg: Ranges)
    requires Feasible(choice, order, rg)
    ensures AtMostPool(choice.Keys, rg)
  {
    forall p ensures |Covering(choice.Keys, rg, p)| <= REGISTERS {
      var vs := Covering(choice.Keys, rg, p);
      forall v <- vs, w <- vs | v != w ensures choice[v] != choice[w] {
        assert rg.Overlap(v, w);
      }
      InjectionSize(choice, vs);
      PoolSize();
      SubsetSize(set v | v in vs :: choice[v], Pool());
    }
  }

  lemma SubsetIsAtMostPool(vs: set<Entry>, ws: set<Entry>, rg: Ranges)
    requires AtMostPool(vs, rg) && ws <= vs
    ensures AtMostPool(ws, rg)
  {
    forall p ensures |Covering(ws, rg, p)| <= REGISTERS {
      SubsetSize(Covering(ws, rg, p), Covering(vs, rg, p));
    }
  }

  lemma EndingBeforeAdd(vs: set<Entry>, v: Entry, rg: Ranges, x: int)
    requires v !in vs
    ensures |EndingBefore(vs + {v}, rg, x)| == |EndingBefore(vs, rg, x)| + (if At(rg.end, v) < x then 1 else 0)
  {
    if At(rg.end, v) < x {
      assert EndingBefore(vs + {v}, rg, x) == EndingBefore(vs, rg, x) + {v};
    } else {
      assert EndingBefore(vs + {v}, rg, x) == EndingBefore(vs, rg, x);
    }
  }

  lemma KeptAfterAssign(s: Scan, v: Entry)
    requires MinFree(s.free) != -1
    ensures Kept(Assign(s, v)) == Kept(s) + {v}
  {
  }

  lemma KeptAfterSpill(s: Scan, v: Entry, rg: Ranges)
    requires s.active != [] && s.InRegister(Last(s, rg)) && !s.InRegister(v)
    ensures Kept(Spill(s, v, rg)) ==
            if At(rg.end, Last(s, rg)) > At(rg.end, v) then Kept(s) - {Last(s, rg)} + {v} else Kept(s)
  {
  }

  /** What one step does to the kept set: v joins when a register is left, else the latest-ending of
      v and the active variables goes. */
  ghost predicate KeptStep(s: Scan, v: Entry, rg: Ranges, kept: set<Entry>) {
    var s1 := Expire(s, v, rg);
    if |s1.active| < REGISTERS then kept == Kept(s) + {v}
    else
      |s1.active| == REGISTERS && Last(s1, rg) in Kept(s) &&
      kept == if At(rg.end, Last(s1, rg)) > At(rg.end, v) then Kept(s) - {Last(s1, rg)} + {v} else Kept(s)
  }

  lemma KeptAfterStep(s: Scan, order: seq<Entry>, v: Entry, rg: Ranges, p: int)
    requires Inv(s, order, rg, p) && p <= At(rg.start, v) && v !in order
    ensures v !in Kept(s) && KeptStep(s, v, rg, Kept(Step(s, v, rg)))
  {
    assert !s.InRegister(v);
    var s1 := Expire(s, v, rg);
    ExpireKeepsPool(s, v, rg);
    if |s1.active| < REGISTERS {
      FreeRegisterExists(s1);
      KeptAfterAssign(s1, v);
    } else {
      assert s1.InRegister(Last(s1, rg));
      KeptAfterSpill(s1, v, rg);
    }
  }

  ghost function ToSet(s: seq<Entry>): set<Entry> { set v | v in s }

  lemma DistinctSize(s: seq<Entry>)
    requires Distinct(s)
    ensures |ToSet(s)| == |s|
  {
    if s != [] {
      DistinctSize(s[1..]);
      assert s[0] !in ToSet(s[1..]);
      assert ToSet(s) == ToSet(s[1..]) + {s[0]};
    }
  }

  /** The kept variables that have not ended before a point are the active ones left by expiry there. */
  lemma KeptSplitsAt(s: Scan, active: seq<Entry>, rg: Ranges, p: int, point: int)
    requires ActiveAt(s, rg, p) && p <= point && Distinct(active)
    requires forall w :: w in active <==> w in s.active && At(rg.end, w) >= point
    ensures forall w :: w in Kept(s) <==> w in EndingBefore(Kept(s), rg, point) || w in active
    ensures |Kept(s)| == |EndingBefore(Kept(s), rg, point)| + |active|
  {
    var before := EndingBefore(Kept(s), rg, point);
    assert before !! ToSet(active);
    assert Kept(s) == before + ToSet(active);
    DistinctSize(active);
  }

  /** Past the end of every active variable and of v, a feasible set cannot beat a full pool. */
  lemma FullPoolBound(vs: set<Entry>, order: seq<Entry>, v: Entry, rg: Ranges, kept: nat)
    requires AtMostPool(vs, rg) && WellFormed(order + [v], rg)
    requires forall w <- vs :: w in order + [v]
    requires forall w <- order :: At(rg.start, w) <= At(rg.start, v)
    requires |EndingBefore(vs, rg, At(rg.start, v))| <= kept
    ensures |vs| <= kept + REGISTERS
  {
    var p := At(rg.start, v);
    assert vs == EndingBefore(vs, rg, p) + Covering(vs, rg, p);
  }

  /** The invariant behind optimality: at every point x, at least as many kept intervals as
      intervals of any feasible set have ended. */
  lemma {:induction false} KeptDominates(order: seq<Entry>, rg: Ranges, vs: set<Entry>, x: int)
    requires IsScanOrder(order, rg) && WellFormed(order, rg)
    requires AtMostPool(vs, rg) && forall v <- vs :: v in order
    ensures |EndingBefore(vs, rg, x)| <= |EndingBefore(Kept(Run(order, rg)), rg, x)|
    decreases |order|
  {
    if order == [] {
      assert EndingBefore(vs, rg, x) == {};
    } else {
      var before := order[..|order| - 1];
      var v := order[|order| - 1];
      assert order == before + [v] && v !in before;
      var ws := vs - {v};
      SubsetIsAtMostPool(vs, ws, rg);
      KeptDominates(before, rg, ws, x);
      KeptDominates(before, rg, ws, At(rg.start, v));
      DominatesStep(before, v, rg, vs, x);
    }
  }

  lemma DominatesStep(before: seq<Entry>, v: Entry, rg: Ranges, vs: set<Entry>, x: int)
    requires IsScanOrder(before + [v], rg) && WellFormed(before + [v], rg) && v !in before
    requires AtMostPool(vs, rg) && forall w <- vs :: w in before + [v]
    requires |EndingBefore(vs - {v}, rg, x)| <= |EndingBefore(Kept(Run(before, rg)), rg, x)|
    requires |EndingBefore(vs - {v}, rg, At(rg.start, v))| <= |EndingBefore(Kept(Run(before, rg)), rg, At(rg.start, v))|
    ensures |EndingBefore(vs, rg, x)| <= |EndingBefore(Kept(Run(before + [v], rg)), rg, x)|
  {
    var s := Run(before, rg);
    var p := if before == [] then At(rg.start, v) else PointOf(before, rg);
    PrefixInvariant(before, v, rg);
    assert (before + [v])[..|before|] == before;
    KeptAfterStep(s, before, v, rg, p);
    var s1 := Expire(s, v, rg);
    if |s1.active| == REGISTERS && At(rg.end, v) < x && At(rg.end, Last(s1, rg)) < x {
      PastTheActive(s, before, v, rg, p, vs, x);
    }
    CountAfterStep(s, v, rg, Kept(Step(s, v, rg)), vs, x);
  }

  lemma CountAfterStep(s: Scan, v: Entry, rg: Ranges, kept: set<Entry>, vs: set<Entry>, x: int)
    requires v !in Kept(s) && KeptStep(s, v, rg, kept)
    requires |EndingBefore(vs - {v}, rg, x)| <= |EndingBefore(Kept(s), rg, x)|
    requires |Expire(s, v, rg).active| == REGISTERS && At(rg.end, v) < x && At(rg.end, Last(Expire(s, v, rg), rg)) < x
      ==> |EndingBefore(vs, rg, x)| <= |EndingBefore(Kept(s), rg, x)|
    ensures |EndingBefore(vs, rg, x)| <= |EndingBefore(kept, rg, x)|
  {
    if v in vs {
      assert vs == vs - {v} + {v};
      EndingBeforeAdd(vs - {v}, v, rg, x);
    } else {
      assert vs - {v} == vs;
    }
    var s1 := Expire(s, v, rg);
    if |s1.active| < REGISTERS {
      EndingBeforeAdd(Kept(s), v, rg, x);
    } else if At(rg.end, Last(s1, rg)) > At(rg.end, v) {
      var w := Last(s1, rg);
      var common := Kept(s) - {w};
      assert Kept(s) == common + {w};
      EndingBeforeAdd(common, w, rg, x);
      EndingBeforeAdd(common, v, rg, x);
    }
  }

  /** The case of DominatesStep beyond the end of v and of every active variable. */
  lemma PastTheActive(s: Scan, before: seq<Entry>, v: Entry, rg: Ranges, p: int, vs: set<Entry>, x: int)
    requires PoolConserved(s) && ActiveAt(s, rg, p) && p <= At(rg.start, v)
    requires WellFormed(before + [v], rg) && forall w <- before :: At(rg.start, w) <= At(rg.start, v)
    requires AtMostPool(vs, rg) && forall w <- vs :: w in before + [v]
    requires |EndingBefore(vs - {v}, rg, At(rg.start, v))| <= |EndingBefore(Kept(s), rg, At(rg.start, v))|
    requires |Expire(s, v, rg).active| == REGISTERS
    requires At(rg.end, v) < x && At(rg.end, Last(Expire(s, v, rg), rg)) < x
    ensures |EndingBefore(vs, rg, x)| <= |EndingBefore(Kept(s), rg, x)|
  {
    var point := At(rg.start, v);
    var active := Expire(s, v, rg).active;
    var last := Last(Expire(s, v, rg), rg);
    ExpireSplits(s, v, rg);
    KeptSplitsAt(s, active, rg, p, point);
    FeasiblePastTheActive(before, v, rg, vs, x, |EndingBefore(Kept(s), rg, point)|);
    assert EndingBefore(Kept(s), rg, x) == Kept(s) by {
      hide *;
      forall w | w in Kept(s) ensures w in EndingBefore(Kept(s), rg, x) {
        assert w in EndingBefore(Kept(s), rg, point) || w in active;
        EndsBefore(w, Kept(s), rg, point, x, active, last);
      }
      EndingBeforeIsSubset(Kept(s), rg, x);
    }
  }

  lemma EndingBeforeIsSubset(vs: set<Entry>, rg: Ranges, x: int)
    ensures EndingBefore(vs, rg, x) <= vs
  {
  }

  lemma EndsBefore(w: Entry, vs: set<Entry>, rg: Ranges, point: int, x: int, active: seq<Entry>, last: Entry)
    requires w in vs && (w in EndingBefore(vs, rg, point) || w in active)
    requires point <= x && At(rg.end, last) < x && forall u <- active :: At(rg.end, u) <= At(rg.end, last)
    ensures w in EndingBefore(vs, rg, x)
  {
  }

  lemma FeasiblePastTheActive(before: seq<Entry>, v: Entry, rg: Ranges, vs: set<Entry>, x: int, kept: nat)
    requires WellFormed(before + [v], rg) && forall w <- before :: At(rg.start, w) <= At(rg.start, v)
    requires AtMostPool(vs, rg) && forall w <- vs :: w in before + [v]
    requires |EndingBefore(vs - {v}, rg, At(rg.start, v))| <= kept
    ensures |EndingBefore(vs, rg, x)| <= kept + REGISTERS
  {
    assert At(rg.start, v) <= At(rg.end, v) by { assert (before + [v])[|before|] == v; }
    assert EndingBefore(vs - {v}, rg, At(rg.start, v)) == EndingBefore(vs, rg, At(rg.start, v));
    FullPoolBound(vs, before, v, rg, kept);
    SubsetSize(EndingBefore(vs, rg, x), vs);
  }

  lemma PrefixInvariant(before: seq<Entry>, v: Entry, rg: Ranges)
    requires IsScanOrder(before + [v], rg)
    ensures var p := if before == [] then At(rg.start, v) else PointOf(before, rg);
      Inv(Run(before, rg), before, rg, p) && p <= At(rg.start, v)
    ensures forall w <- before :: At(rg.start, w) <= At(rg.start, v)
  {
    var order := before + [v];
    forall i, j | 0 <= i < j < |before| ensures before[i] != before[j]
        && At(rg.start, before[i]) <= At(rg.start, before[j]) {
      assert order[i] == before[i] && order[j] == before[j];
    }
    forall w <- before ensures At(rg.start, w) <= At(rg.start, v) {
      var i :| 0 <= i < |before| && before[i] == w;
      assert order[i] == w && order[|before|] == v;
    }
    if before == [] {
      EmptyScan(rg, At(rg.start, v));
    } else {
      ScanInvariant(before, rg);
    }
  }

  ghost function MaxEnd(order: seq<Entry>, rg: Ranges): (m: int)
    ensures forall v <- order :: At(rg.end, v) < m
  {
    if order == [] then 0
    else
      var m := MaxEnd(order[1..], rg);
      assert forall v <- order :: v == order[0] || v in order[1..];
      if At(rg.end, order[0]) < m then m else At(rg.end, order[0]) + 1
  }

  /** The scan keeps at least as many variables as any set of which at most 15 meet at any point. */
  lemma ScanKeepsMost(order: seq<Entry>, rg: Ranges, vs: set<Entry>)
    requires IsScanOrder(order, rg) && WellFormed(order, rg)
    requires AtMostPool(vs, rg) && forall v <- vs :: v in order
    ensures |vs| <= |Kept(Run(order, rg))|
  {
    var s := Run(order, rg);
    var x := MaxEnd(order, rg);
    KeptDominates(order, rg, vs, x);
    assert EndingBefore(vs, rg, x) == vs;
    SubsetSize(EndingBefore(Kept(s), rg, x), Kept(s));
  }

  /** For every scan order, no feasible choice keeps more variables in registers, so none spills fewer. */
  lemma ScanIsOptimal(order: seq<Entry>, rg: Ranges, choice: map<Entry, int>)
    requires IsScanOrder(order, rg) && WellFormed(order, rg)
    requires Feasible(choice, order, rg)
    ensures |choice| <= |Kept(Run(order, rg))|
    ensures |Run(order, rg).locations| == |order| - |Kept(Run(order, rg))|
    ensures |Run(order, rg).locations| <= |order| - |choice|
  {
    FeasibleIsAtMostPool(choice, order, rg);
    ScanKeepsMost(order, rg, choice.Keys);
    assert |choice| == |choice.Keys|;
    assert OneHome(Run(order, rg), order) by { ScanInvariant(order, rg); }
    SpilledAreTheRest(Run(order, rg), order);
  }

  /** Nothing is spilled exactly when at no point more than 15 of the intervals meet. */
  lemma SpillsNothingExactly(order: seq<Entry>, rg: Ranges)
    requires IsScanOrder(order, rg) && WellFormed(order, rg)
    ensures Run(order, rg).locations == map[] <==> AtMostPool(ToSet(order), rg)
  {
    hide AtMostPool, Run, WellFormed, InterferenceFree, ActiveAt, PoolConserved, SlotsDistinct;
    var s := Run(order, rg);
    ScanInvariant(order, rg);
    InvHomes(s, order, rg);
    SpilledAreTheRest(s, order);
    DistinctSize(order);
    if AtMostPool(ToSet(order), rg) {
      ScanKeepsMost(order, rg, ToSet(order));
      assert |s.locations| == 0;
    }
    if s.locations == map[] {
      var choice := map v | v in Kept(s) :: s.registers[v];
      ScanIsFeasible(order, rg);
      FeasibleIsAtMostPool(choice, order, rg);
      assert choice.Keys == ToSet(order);
    }
  }

  /** What is spilled ends last among the new and the active variables, and an active one is only displaced by one that
      ends strictly before it. */
  lemma LatestIsSpilled(s: Scan, v: Entry, rg: Ranges) returns (w: Entry)
    requires s.active != []
    ensures w == v || (w in s.active && At(rg.end, v) < At(rg.end, w))
    ensures At(rg.end, v) <= At(rg.end, w) && forall u <- s.active :: At(rg.end, u) <= At(rg.end, w)
    ensures var t := Spill(s, v, rg);
      t.locations == s.locations[w := s.stackSize] && t.stackSize == s.stackSize + 8 && t.free == s.free
  {
    hide StableSort;
    w := if At(rg.end, Last(s, rg)) > At(rg.end, v) then Last(s, rg) else v;
    LastIsLast(s, rg);
  }

  lemma LastIsLast(s: Scan, rg: Ranges)
    requires s.active != []
    ensures var sorted := StableSort(s.active, rg.end); sorted != [] && Last(s, rg) == sorted[|sorted| - 1]
  {
    StableSortSorts(s.active, rg.end);
  }

  /** A displaced variable leaves its register to the new one; everything else stays where it is. */
  lemma DisplacedHandsOver(s: Scan, v: Entry, rg: Ranges)
    requires s.active != [] && v !in s.active && !s.InRegister(v)
    ensures var t := Spill(s, v, rg); var w := Last(s, rg);
      if At(rg.end, w) > At(rg.end, v) then
        && !t.InRegister(w) && t.registers[v] == At(s.registers, w)
        && forall u :: u != v && u != w ==>
             (u in t.registers <==> u in s.registers) && (u in s.registers ==> t.registers[u] == s.registers[u])
      else t.registers == s.registers
  {
    hide StableSort;
    LastIsLast(s, rg);
  }

  /** With a register left, the new variable gets the least free one and nothing else moves. */
  lemma LeastIsTaken(s: Scan, v: Entry)
    requires PoolConserved(s) && |s.active| < REGISTERS
    ensures var t := Assign(s, v);
      && t.InRegister(v) && t.registers[v] in s.free && (forall q <- s.free :: t.registers[v] <= q)
      && t.free == s.free - {t.registers[v]} && t.locations == s.locations && t.active == s.active + [v]
      && forall u :: u != v ==>
           (u in t.registers <==> u in s.registers) && (u in s.registers ==> t.registers[u] == s.registers[u])
  {
    FreeRegisterExists(s);
  }

  lemma InvHomes(s: Scan, order: seq<Entry>, rg: Ranges)
    requires Inv(s, order, rg, PointOf(order, rg))
    ensures OneHome(s, order)
  {
  }

  lemma SpilledAreTheRest(s: Scan, order: seq<Entry>)
    requires OneHome(s, order) && Distinct(order)
    ensures |s.locations| == |order| - |Kept(s)|
  {
    DistinctSize(order);
    assert ToSet(order) == Kept(s) + s.locations.Keys;
    assert |s.locations| == |s.locations.Keys|;
  }

  /** The scan's own registers are themselves a feasible choice, so the bound is reached. */
  lemma ScanIsFeasible(order: seq<Entry>, rg: Ranges)
    requires IsScanOrder(order, rg)
    ensures var s := Run(order, rg); Feasible(map v | v in Kept(s) :: s.registers[v], order, rg)
  {
    ScanInvariant(order, rg);
  }
}
