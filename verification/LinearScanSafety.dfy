/** What every prefix of a linear scan keeps: the register pool is conserved, every scanned
    variable has exactly one home, and no two overlapping intervals share a register. */
module LinearScanSafety {
  import opened Ir
  import opened LinearScan

  /** An order the scan may take its variables in: each once, by increasing start. */
  ghost predicate IsScanOrder(order: seq<Entry>, rg: Ranges) {
    Distinct(order) && SortedBy(order, rg.start)
  }

  /** The registers of the active variables and the free registers partition the pool. */
  ghost predicate PoolConserved(s: Scan) {
    && Distinct(s.active)
    && |s.active| <= REGISTERS
    && (forall v <- s.active :: s.InRegister(v) && InPool(s.registers[v]))
    && (forall v <- s.active, w <- s.active :: v != w ==> s.registers[v] != s.registers[w])
    && s.free == Pool() - RegistersOf(s.registers, s.active)
  }

  /** Each of the scanned variables, and nothing else, has a register or a stack slot, and never both. */
  ghost predicate OneHome(s: Scan, order: seq<Entry>) {
    && (forall v :: v in order <==> s.InRegister(v) || v in s.locations)
    && (forall v :: !(s.InRegister(v) && v in s.locations))
    && (forall v <- s.registers :: s.registers[v] == -1 || InPool(s.registers[v]))
  }

  /** No two variables whose intervals overlap hold the same register. */
  ghost predicate InterferenceFree(s: Scan, rg: Ranges) {
    forall v, w :: s.InRegister(v) && s.InRegister(w) && v != w && rg.Overlap(v, w)
      ==> s.registers[v] != s.registers[w]
  }

  /** Stack slots are distinct 8-byte cells counted up from 16. */
  ghost predicate SlotsDistinct(locations: map<Entry, int>, stackSize: int) {
    && stackSize == 16 + 8 * |locations|
    && (forall v <- locations :: 16 <= locations[v] <= stackSize - 8 && locations[v] % 8 == 0)
    && (forall v <- locations, w <- locations :: v != w ==> locations[v] != locations[w])
  }

  lemma AddSlot(locations: map<Entry, int>, stackSize: int, v: Entry)
    requires SlotsDistinct(locations, stackSize) && v !in locations
    ensures SlotsDistinct(locations[v := stackSize], stackSize + 8)
  {
    assert |locations[v := stackSize]| == |locations| + 1;
  }

  /** A variable in a register is active unless its interval ended before p. */
  ghost predicate ActiveAt(s: Scan, rg: Ranges, p: int) {
    && (forall v <- s.active :: s.InRegister(v))
    && (forall v :: s.InRegister(v) && v !in s.active ==> At(rg.end, v) < p)
  }

  ghost predicate Inv(s: Scan, order: seq<Entry>, rg: Ranges, p: int) {
    PoolConserved(s) && OneHome(s, order) && InterferenceFree(s, rg) && SlotsDistinct(s.locations, s.stackSize)
        && ActiveAt(s, rg, p)
  }

  lemma ExpiredPrefixSplits(sorted: seq<Entry>, end: map<Entry, int>, p: int)
    requires SortedBy(sorted, end)
    ensures forall w :: w in sorted[ExpiredPrefix(sorted, end, p)..] <==> w in sorted && At(end, w) >= p
    ensures forall w :: w in sorted[..ExpiredPrefix(sorted, end, p)] <==> w in sorted && At(end, w) < p
  {
    var k := ExpiredPrefix(sorted, end, p);
    forall i | k <= i < |sorted| ensures At(end, sorted[i]) >= p {
      assert At(end, sorted[k]) <= At(end, sorted[i]);
    }
    forall w ensures w in sorted[k..] <==> w in sorted && At(end, w) >= p {
      if w in sorted && At(end, w) >= p {
        var i :| 0 <= i < |sorted| && sorted[i] == w;
        assert sorted[k..][i - k] == w;
      }
    }
    forall w ensures w in sorted[..k] <==> w in sorted && At(end, w) < p {
      if w in sorted && At(end, w) < p {
        var i :| 0 <= i < |sorted| && sorted[i] == w;
        assert sorted[..k][i] == w;
      }
    }
  }

  /** Expiry drops exactly the active variables whose intervals ended before v starts. */
  lemma ExpireSplits(s: Scan, v: Entry, rg: Ranges)
    requires Distinct(s.active)
    ensures Distinct(Expire(s, v, rg).active) && |Expire(s, v, rg).active| <= |s.active|
    ensures forall w :: w in Expire(s, v, rg).active <==> w in s.active && At(rg.end, w) >= At(rg.start, v)
    ensures forall r :: r in Expire(s, v, rg).free <==>
              r in s.free || exists w :: w in s.active && At(rg.end, w) < At(rg.start, v) && At(s.registers, w) == r
  {
    var sorted := StableSort(s.active, rg.end);
    StableSortSorts(s.active, rg.end);
    ExpiredPrefixSplits(sorted, rg.end, At(rg.start, v));
  }

  lemma ExpireKeepsPool(s: Scan, v: Entry, rg: Ranges)
    requires PoolConserved(s)
    ensures PoolConserved(Expire(s, v, rg))
  {
    ExpireSplits(s, v, rg);
    var t := Expire(s, v, rg);
    forall r ensures r in t.free <==> r in Pool() && r !in RegistersOf(t.registers, t.active) {
      if r in Pool() && r !in t.free {
        assert r in RegistersOf(s.registers, s.active);
        var w :| w in s.active && At(s.registers, w) == r;
        assert w in t.active;
      }
      if r in RegistersOf(t.registers, t.active) {
        var w :| w in t.active && At(s.registers, w) == r;
        assert w in s.active && r in RegistersOf(s.registers, s.active);
        assert r !in s.free;
      }
    }
  }

  lemma ExpireKeeps(s: Scan, order: seq<Entry>, v: Entry, rg: Ranges, p: int)
    requires Inv(s, order, rg, p) && p <= At(rg.start, v)
    ensures Inv(Expire(s, v, rg), order, rg, At(rg.start, v))
  {
    var t := Expire(s, v, rg);
    assert PoolConserved(t) by { ExpireKeepsPool(s, v, rg); }
    assert ActiveAt(t, rg, At(rg.start, v)) by { ExpireSplits(s, v, rg); }
    assert OneHome(t, order);
    assert InterferenceFree(t, rg);
    assert SlotsDistinct(t.locations, t.stackSize);
  }

  /** Counting the pool: fewer than 15 active variables leave a free register. */
  lemma FreeRegisterExists(s: Scan)
    requires PoolConserved(s) && |s.active| < REGISTERS
    ensures MinFree(s.free) in s.free && InPool(MinFree(s.free))
  {
    RegistersOfSize(s.registers, s.active);
    PoolSize();
    if Pool() <= RegistersOf(s.registers, s.active) {
      SubsetSize(Pool(), RegistersOf(s.registers, s.active));
      assert false;
    }
    var r :| r in Pool() && r !in RegistersOf(s.registers, s.active);
    assert r in s.free && InPool(r);
    assert MinFree(s.free) != -1;
  }

  lemma RegistersOfSize(registers: map<Entry, int>, vs: seq<Entry>)
    ensures |RegistersOf(registers, vs)| <= |vs|
  {
    if vs != [] {
      RegistersOfSize(registers, vs[1..]);
      assert RegistersOf(registers, vs) <= {At(registers, vs[0])} + RegistersOf(registers, vs[1..]);
      SubsetSize(RegistersOf(registers, vs), {At(registers, vs[0])} + RegistersOf(registers, vs[1..]));
    } else {
      assert RegistersOf(registers, vs) == {};
    }
  }

  lemma SubsetSize<T>(a: set<T>, b: set<T>)
    requires a <= b
    ensures |a| <= |b|
  {
    assert b == a + (b - a);
  }

  lemma RegistersOfAppend(registers: map<Entry, int>, vs: seq<Entry>, v: Entry, r: int)
    requires v !in vs
    ensures RegistersOf(registers[v := r], vs + [v]) == RegistersOf(registers, vs) + {r}
  {
    var after := RegistersOf(registers[v := r], vs + [v]);
    forall q | q in RegistersOf(registers, vs) ensures q in after {
      var w :| w in vs && At(registers, w) == q;
      assert w in vs + [v] && At(registers[v := r], w) == q;
    }
    assert v in vs + [v] && At(registers[v := r], v) == r;
  }

  lemma RegistersOfSameSet(registers: map<Entry, int>, vs: seq<Entry>, ws: seq<Entry>)
    requires forall v :: v in vs <==> v in ws
    ensures RegistersOf(registers, vs) == RegistersOf(registers, ws)
  {
  }

  lemma AssignKeepsPool(s: Scan, v: Entry)
    requires PoolConserved(s) && v !in s.active && |s.active| < REGISTERS
    ensures MinFree(s.free) != -1 && InPool(MinFree(s.free))
    ensures PoolConserved(Assign(s, v))
  {
    FreeRegisterExists(s);
    var r := MinFree(s.free);
    forall w <- s.active ensures s.registers[w] != r {
      assert At(s.registers, w) in RegistersOf(s.registers, s.active);
    }
    RegistersOfAppend(s.registers, s.active, v, r);
  }

  lemma AssignKeepsApart(s: Scan, order: seq<Entry>, v: Entry, rg: Ranges)
    requires PoolConserved(s) && OneHome(s, order) && InterferenceFree(s, rg)
    requires ActiveAt(s, rg, At(rg.start, v)) && v !in order && |s.active| < REGISTERS
    ensures InterferenceFree(Assign(s, v), rg)
  {
    FreeRegisterExists(s);
    var r := MinFree(s.free);
    var t := Assign(s, v);
    forall x | t.InRegister(x) && x != v && rg.Overlap(v, x) ensures t.registers[x] != r {
      assert s.InRegister(x) && x in s.active;
      assert At(s.registers, x) in RegistersOf(s.registers, s.active);
    }
  }

  lemma AssignKeeps(s: Scan, order: seq<Entry>, v: Entry, rg: Ranges)
    requires Inv(s, order, rg, At(rg.start, v)) && v !in order && |s.active| < REGISTERS
    ensures Inv(Assign(s, v), order + [v], rg, At(rg.start, v))
  {
    var t := Assign(s, v);
    assert !s.InRegister(v);
    AssignKeepsPool(s, v);
    AssignKeepsApart(s, order, v, rg);
    assert OneHome(t, order + [v]);
    assert ActiveAt(t, rg, At(rg.start, v));
  }

  /** The active variable whose interval ends last. */
  function Last(s: Scan, rg: Ranges): (w: Entry)
    requires s.active != []
    ensures w in s.active && forall x <- s.active :: At(rg.end, x) <= At(rg.end, w)
  {
    var sorted := StableSort(s.active, rg.end);
    StableSortSorts(s.active, rg.end);
    assert forall x <- s.active :: x in sorted;
    sorted[|sorted| - 1]
  }

  lemma SpillKeepsHomes(s: Scan, order: seq<Entry>, v: Entry, rg: Ranges)
    requires PoolConserved(s) && OneHome(s, order) && v !in order && s.active != []
    ensures OneHome(Spill(s, v, rg), order + [v])
  {
    var w := Last(s, rg);
    assert !s.InRegister(v) && v !in s.locations;
    assert s.InRegister(w) && w !in s.locations;
  }

  lemma SpillKeepsSlots(s: Scan, order: seq<Entry>, v: Entry, rg: Ranges)
    requires PoolConserved(s) && OneHome(s, order) && v !in order && s.active != []
    requires SlotsDistinct(s.locations, s.stackSize)
    ensures SlotsDistinct(Spill(s, v, rg).locations, Spill(s, v, rg).stackSize)
  {
    var w := Last(s, rg);
    assert s.InRegister(w) && w !in s.locations;
    AddSlot(s.locations, s.stackSize, if At(rg.end, w) > At(rg.end, v) then w else v);
  }

  lemma SpillKeepsApart(s: Scan, order: seq<Entry>, v: Entry, rg: Ranges)
    requires PoolConserved(s) && OneHome(s, order) && InterferenceFree(s, rg)
    requires ActiveAt(s, rg, At(rg.start, v)) && v !in order && s.active != []
    ensures InterferenceFree(Spill(s, v, rg), rg)
  {
    var w := Last(s, rg);
    var t := Spill(s, v, rg);
    assert !s.InRegister(v) && s.InRegister(w);
    if At(rg.end, w) > At(rg.end, v) {
      forall x | t.InRegister(x) && x != v && rg.Overlap(v, x) ensures t.registers[x] != t.registers[v] {
        assert x != w && s.InRegister(x);
        assert x in s.active;
      }
    }
  }

  /** Displacing an active variable hands its register to v and leaves the pool as it was. */
  lemma SwapRegisters(registers: map<Entry, int>, kept: seq<Entry>, w: Entry, v: Entry)
    requires v !in kept && w !in kept && v != w
    ensures RegistersOf(registers[v := At(registers, w)][w := -1], kept + [v]) == RegistersOf(registers, kept + [w])
  {
    var r := At(registers, w);
    var after := registers[v := r][w := -1];
    assert forall x <- kept :: At(after, x) == At(registers, x);
    forall q | q in RegistersOf(registers, kept + [w]) ensures q in RegistersOf(after, kept + [v]) {
      var x :| x in kept + [w] && At(registers, x) == q;
      var y := if x == w then v else x;
      assert y in kept + [v] && At(after, y) == q;
    }
    forall q | q in RegistersOf(after, kept + [v]) ensures q in RegistersOf(registers, kept + [w]) {
      var x :| x in kept + [v] && At(after, x) == q;
      var y := if x == v then w else x;
      assert y in kept + [w] && At(registers, y) == q;
    }
  }

  lemma SpillKeepsPool(s: Scan, v: Entry, rg: Ranges)
    requires PoolConserved(s) && v !in s.active && |s.active| == REGISTERS
    ensures PoolConserved(Spill(s, v, rg))
  {
    StableSortSorts(s.active, rg.end);
    var sorted := StableSort(s.active, rg.end);
    RegistersOfSameSet(s.registers, sorted, s.active);
    var w := Last(s, rg);
    if At(rg.end, w) > At(rg.end, v) {
      var kept := sorted[..|sorted| - 1];
      assert sorted == kept + [w];
      assert w !in kept;
      SwapRegisters(s.registers, kept, w, v);
      SwapKeepsApart(s.registers, kept, w, v);
    }
  }

  lemma SwapKeepsApart(registers: map<Entry, int>, kept: seq<Entry>, w: Entry, v: Entry)
    requires v !in kept && w !in kept && v != w
    requires forall x <- kept + [w] :: x in registers && InPool(registers[x])
    requires forall x <- kept + [w], y <- kept + [w] :: x != y ==> registers[x] != registers[y]
    ensures var after := registers[v := At(registers, w)][w := -1];
      && (forall x <- kept + [v] :: x in after && InPool(after[x]))
      && (forall x <- kept + [v], y <- kept + [v] :: x != y ==> after[x] != after[y])
  {
    assert w in kept + [w];
    assert forall x <- kept :: x in kept + [w];
  }

  lemma SpillKeeps(s: Scan, order: seq<Entry>, v: Entry, rg: Ranges)
    requires Inv(s, order, rg, At(rg.start, v)) && v !in order && |s.active| == REGISTERS
    ensures Inv(Spill(s, v, rg), order + [v], rg, At(rg.start, v))
  {
    assert !s.InRegister(v);
    SpillKeepsPool(s, v, rg);
    SpillKeepsHomes(s, order, v, rg);
    SpillKeepsSlots(s, order, v, rg);
    SpillKeepsApart(s, order, v, rg);
    StableSortSorts(s.active, rg.end);
    assert ActiveAt(Spill(s, v, rg), rg, At(rg.start, v));
  }

  function PointOf(order: seq<Entry>, rg: Ranges): int {
    if order == [] then 0 else At(rg.start, order[|order| - 1])
  }

  lemma StepKeeps(s: Scan, order: seq<Entry>, v: Entry, rg: Ranges, p: int)
    requires Inv(s, order, rg, p) && p <= At(rg.start, v) && v !in order
    ensures Inv(Step(s, v, rg), order + [v], rg, At(rg.start, v))
  {
    ExpireKeeps(s, order, v, rg, p);
    var s1 := Expire(s, v, rg);
    if |s1.active| == REGISTERS { SpillKeeps(s1, order, v, rg); } else { AssignKeeps(s1, order, v, rg); }
  }

  lemma EmptyScan(rg: Ranges, p: int)
    ensures Inv(EMPTY_SCAN, [], rg, p)
  {
    assert RegistersOf(map[], []) == {};
  }

  /** The invariant holds after every prefix of every scan. */
  lemma {:induction false} ScanInvariant(order: seq<Entry>, rg: Ranges)
    requires IsScanOrder(order, rg)
    ensures Inv(Run(order, rg), order, rg, PointOf(order, rg))
  {
    if order == [] {
      EmptyScan(rg, 0);
    } else {
      var before := order[..|order| - 1];
      var v := order[|order| - 1];
      assert order == before + [v] && v !in before;
      if before == [] {
        EmptyScan(rg, At(rg.start, v));
        StepKeeps(EMPTY_SCAN, before, v, rg, At(rg.start, v));
      } else {
        ScanInvariant(before, rg);
        StepKeeps(Run(before, rg), before, v, rg, PointOf(before, rg));
      }
    }
  }
}
