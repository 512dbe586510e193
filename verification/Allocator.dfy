/** The allocator as it runs: maps and one shared slice of active variables, all updated in place. */
module Allocator {
  import opened Ir
  import opened LinearScan
  import opened LinearScanSafety
  import opened SpillOptimality

  function RemoveFirst(s: seq<Entry>, v: Entry): (r: seq<Entry>)
    ensures |r| == if v in s then |s| - 1 else |s|
  {
    if s == [] then [] else if s[0] == v then s[1..] else [s[0]] + RemoveFirst(s[1..], v)
  }

  lemma {:induction false} RemoveFirstAt(s: seq<Entry>, v: Entry, i: nat)
    requires i < |s| && s[i] == v && v !in s[..i]
    ensures RemoveFirst(s, v) == s[..i] + s[i + 1..]
  {
    if i > 0 {
      assert s[1..][..i - 1] == s[..i][1..];
      assert v !in s[1..][..i - 1];
      RemoveFirstAt(s[1..], v, i - 1);
      assert s[0] == s[..i][0];
    }
  }

  function TrueKeys(m: map<int, bool>): set<int> { set r | r in m && m[r] }

  class Allocator {
    const rg: Ranges
    /** Backing array of the active slice; the slice is its first count elements. */
    const active: array<Entry>
    var count: nat
    var registers: map<Entry, int>
    var locations: map<Entry, int>
    var freeRegs: map<int, bool>
    var stackSize: int

    ghost predicate Valid()
      reads this
    {
      active.Length == REGISTERS && count <= REGISTERS
    }

    ghost function View(): Scan
      requires Valid()
      reads this, active
    {
      Scan(registers, locations, TrueKeys(freeRegs), active[..count], stackSize)
    }

    constructor (rg: Ranges)
      ensures Valid() && fresh(active) && this.rg == rg
      ensures View() == EMPTY_SCAN
    {
      this.rg := rg;
      active := new Entry[REGISTERS](_ => RetVal);
      count, stackSize := 0, 16;
      registers, locations := map[], map[];
      new;
      freeRegs := map[];
      for i := START_REG to END_REG + 1
        invariant Valid() && count == 0 && stackSize == 16 && registers == map[] && locations == map[]
        invariant forall r :: r in freeRegs <==> InPool(r) && r < i
        invariant forall r <- freeRegs :: freeRegs[r]
      {
        if i < 16 || i > 18 {
          freeRegs := freeRegs[i := true];
        }
      }
      assert TrueKeys(freeRegs) == Pool();
    }

    /** Stable sort of the active slice, in place. */
    method SortActive()
      requires Valid()
      modifies active
      ensures Valid() && active[..count] == StableSort(old(active[..count]), rg.end)
    {
      var sorted := StableSort(active[..count], rg.end);
      StableSortSorts(active[..count], rg.end);
      forall i | 0 <= i < count {
        active[i] := sorted[i];
      }
    }

    /** Takes the least free register; with fewer than 15 active variables there always is one. */
    method ExtractMin() returns (r: int)
      requires Valid() && PoolConserved(View()) && count < REGISTERS
      modifies this`freeRegs
      ensures Valid() && r == MinFree(old(View()).free) && InPool(r)
      ensures View() == old(View()).(free := old(View()).free - {r})
    {
      ghost var free := TrueKeys(freeRegs);
      FreeRegisterExists(View());
      for i := START_REG to 29
        invariant freeRegs == old(freeRegs)
        invariant forall q :: START_REG <= q < i ==> q !in free
      {
        if i in freeRegs && freeRegs[i] {
          assert i in free;
          freeRegs := freeRegs[i := false];
          return i;
        }
      }
      assert false;
      r := -1;
    }

    /** Removes the first occurrence of v from the active slice by shifting the tail down. */
    method Remove(v: Entry)
      requires Valid()
      modifies active, this`count
      ensures Valid() && active[..count] == RemoveFirst(old(active[..count]), v)
    {
      for i := 0 to count
        invariant count == old(count) && active[..] == old(active[..])
        invariant v !in active[..i]
      {
        if active[i] == v {
          RemoveFirstAt(active[..count], v, i);
          forall j | i <= j < count - 1 {
            active[j] := active[j + 1];
          }
          count := count - 1;
          assert active[..count] == old(active[..count])[..i] + old(active[..count])[i + 1..];
          return;
        }
      }
      RemoveAbsent(active[..count], v);
    }

    /** Drops the variables that ended before v starts and frees their registers. */
    method ExpireOldIntervals(v: Entry)
      requires Valid()
      modifies active, this`count, this`freeRegs
      ensures Valid() && View() == Expire(old(View()), v, rg)
    {
      SortActive();
      ghost var sorted := active[..count];
      var expired := FreeExpired(v, sorted);
      RemoveAll(expired);
      assert active[..count] == sorted[|expired|..];
    }

    /** The loop over the sorted active slice that stops at the first interval still open. */
    method FreeExpired(v: Entry, ghost sorted: seq<Entry>) returns (expired: seq<Entry>)
      requires Valid() && sorted == active[..count]
      modifies this`freeRegs
      ensures expired == sorted[..ExpiredPrefix(sorted, rg.end, At(rg.start, v))]
      ensures TrueKeys(freeRegs) == TrueKeys(old(freeRegs)) + RegistersOf(registers, expired)
    {
      expired := [];
      assert RegistersOf(registers, expired) == {};
      hide TrueKeys, RegistersOf, ExpiredPrefix;
      ghost var k := ExpiredPrefix(sorted, rg.end, At(rg.start, v));
      var i := 0;
      while i < count && At(rg.end, active[i]) < At(rg.start, v)
        invariant 0 <= i <= k && expired == sorted[..i]
        invariant TrueKeys(freeRegs) == TrueKeys(old(freeRegs)) + RegistersOf(registers, expired)
      {
        RegistersOfSnoc(registers, sorted, i);
        expired := expired + [active[i]];
        AddTrueKey(freeRegs, At(registers, active[i]));
        freeRegs := freeRegs[At(registers, active[i]) := true];
        assert sorted[..i + 1] == sorted[..i] + [sorted[i]];
        i := i + 1;
      }
    }

    method RemoveAll(expired: seq<Entry>)
      requires Valid() && |expired| <= count && expired == active[..|expired|]
      modifies active, this`count
      ensures Valid() && active[..count] == old(active[..count])[|expired|..]
    {
      for j := 0 to |expired|
        invariant Valid() && active[..count] == old(active[..count])[j..]
      {
        assert active[..count][0] == expired[j];
        Remove(expired[j]);
      }
    }

    /** With every register taken: the latest-ending of v and the active variables goes to the stack. When that
        is an active variable, v overwrites it in the caller's slice and takes over its register. */
    method SpillAtInterval(v: Entry)
      requires Valid() && count == REGISTERS
      modifies active, this`registers, this`locations, this`stackSize
      ensures Valid() && View() == Spill(old(View()), v, rg)
    {
      hide StableSort;
      SortActive();
      ghost var sorted := active[..count];
      var spill := active[count - 1];
      if At(rg.end, spill) > At(rg.end, v) {
        registers := registers[v := At(registers, spill)];
        registers := registers[spill := -1];
        locations := locations[spill := stackSize];
        stackSize := stackSize + 8;
        active[count - 1] := v;
        assert active[..count] == sorted[..count - 1] + [v];
      } else {
        locations := locations[v := stackSize];
        stackSize := stackSize + 8;
      }
    }

    /** One iteration of the allocation loop. */
    method AllocateOne(v: Entry)
      requires Valid() && PoolConserved(View())
      modifies this, active
      ensures Valid() && View() == Step(old(View()), v, rg)
    {
      hide Expire, Spill, Assign, PoolConserved;
      ExpireKeepsPool(View(), v, rg);
      ExpireOldIntervals(v);
      if count == REGISTERS { SpillAtInterval(v); } else { AssignRegister(v); }
    }

    method AssignRegister(v: Entry)
      requires Valid() && PoolConserved(View()) && count < REGISTERS
      modifies this`registers, this`freeRegs, this`count, active
      ensures Valid() && View() == Assign(old(View()), v)
    {
      hide PoolConserved;
      ghost var before := View();
      var r := ExtractMin();
      registers := registers[v := r];
      active[count] := v;
      count := count + 1;
      assert active[..count] == before.active + [v];
    }
  }

  /** The variables in an arbitrary order, then sorted stably by start: every order a scan may take. */
  method SortByStart(rg: Ranges) returns (order: seq<Entry>)
    ensures IsScanOrder(order, rg)
    ensures forall v :: v in order <==> v in rg.start
  {
    order := [];
    var keys := rg.start.Keys;
    while keys != {}
      invariant Distinct(order)
      invariant forall v :: v in rg.start <==> v in order || v in keys
      invariant forall v <- order :: v !in keys
    {
      var k :| k in keys;
      order := order + [k];
      keys := keys - {k};
    }
    StableSortSorts(order, rg.start);
    order := StableSort(order, rg.start);
  }

  /** Every variable has exactly one home, overlapping intervals never share a register, and the
      stack slots are distinct 8-byte cells from 16 up to the stack size. */
  ghost predicate GoodHomes(registers: map<Entry, int>, locations: map<Entry, int>, stackSize: int, rg: Ranges) {
    && (forall v :: v in rg.start <==> (v in registers && InPool(registers[v])) || v in locations)
    && (forall v <- registers :: registers[v] == -1 || InPool(registers[v]))
    && (forall v <- locations :: v in registers ==> registers[v] == -1)
    && (forall v <- registers, w <- registers :: v != w && registers[v] != -1 && registers[w] != -1 && rg.Overlap(v, w)
          ==> registers[v] != registers[w])
    && SlotsDistinct(locations, stackSize)
  }

  /** A choice of registers for some of the variables, never one register for two overlapping intervals. */
  ghost predicate FeasibleChoice(choice: map<Entry, int>, rg: Ranges) {
    && (forall v <- choice :: v in rg.start && InPool(choice[v]))
    && (forall v <- choice, w <- choice :: v != w && rg.Overlap(v, w) ==> choice[v] != choice[w])
  }

  ghost predicate NoEmptyRange(rg: Ranges) {
    forall v <- rg.start :: At(rg.start, v) <= At(rg.end, v)
  }

  /** No choice over the same registers leaves fewer variables on the stack. */
  ghost predicate FewestSpills(locations: map<Entry, int>, rg: Ranges) {
    forall choice :: FeasibleChoice(choice, rg) ==> |locations| <= |rg.start| - |choice|
  }

  /** Register allocation by linear scan, whatever order the variables come in. */
  method GenerateVarLocations(rg: Ranges)
    returns (registers: map<Entry, int>, locations: map<Entry, int>, stackSize: int)
    ensures GoodHomes(registers, locations, stackSize, rg)
    ensures NoEmptyRange(rg) ==> FewestSpills(locations, rg) && (locations == map[] <==> AtMostPool(rg.start.Keys, rg))
  {
    hide NoEmptyRange, FewestSpills, GoodHomes, AtMostPool, LinearScan.Run, IsScanOrder, PoolConserved, Distinct;
    EmptyRun(rg);
    var order := SortByStart(rg);
    var a := new Allocator(rg);
    for i := 0 to |order|
      invariant a.Valid() && a.rg == rg && fresh(a) && fresh(a.active)
      invariant a.View() == Run(order[..i], rg)
    {
      PrefixKeepsPool(order, i, rg);
      a.AllocateOne(order[i]);
      RunOneMore(order, i, rg);
    }
    assert order[..|order|] == order;
    AllocationIsGood(order, rg, a.View());
    AllocationSpillsLeast(order, rg, a.View());
    return a.registers, a.locations, a.stackSize;
  }

  lemma EmptyRun(rg: Ranges)
    ensures Run([], rg) == EMPTY_SCAN
  {
  }

  lemma RunOneMore(order: seq<Entry>, i: nat, rg: Ranges)
    requires i < |order|
    ensures Run(order[..i + 1], rg) == Step(Run(order[..i], rg), order[i], rg)
  {
    assert order[..i + 1][..i] == order[..i];
  }

  lemma PrefixKeepsPool(order: seq<Entry>, i: nat, rg: Ranges)
    requires IsScanOrder(order, rg) && i <= |order|
    ensures PoolConserved(Run(order[..i], rg))
  {
    ScanInvariant(order[..i], rg);
  }

  lemma AllocationIsGood(order: seq<Entry>, rg: Ranges, s: Scan)
    requires IsScanOrder(order, rg) && s == Run(order, rg)
    requires forall v :: v in order <==> v in rg.start
    ensures GoodHomes(s.registers, s.locations, s.stackSize, rg)
  {
    ScanInvariant(order, rg);
    InvariantGivesGoodHomes(order, rg, s);
  }

  lemma InvariantGivesGoodHomes(order: seq<Entry>, rg: Ranges, s: Scan)
    requires OneHome(s, order) && InterferenceFree(s, rg) && SlotsDistinct(s.locations, s.stackSize)
    requires forall v :: v in order <==> v in rg.start
    ensures GoodHomes(s.registers, s.locations, s.stackSize, rg)
  {
    assert forall v :: s.InRegister(v) <==> v in s.registers && InPool(s.registers[v]);
    assert forall v, w {:trigger s.registers[v], s.registers[w]} ::
      s.InRegister(v) && s.InRegister(w) && v != w && rg.Overlap(v, w) ==> s.registers[v] != s.registers[w];
  }

  lemma AllocationSpillsLeast(order: seq<Entry>, rg: Ranges, s: Scan)
    requires IsScanOrder(order, rg) && s == Run(order, rg)
    requires forall v :: v in order <==> v in rg.start
    ensures NoEmptyRange(rg) ==>
      FewestSpills(s.locations, rg) && (s.locations == map[] <==> AtMostPool(rg.start.Keys, rg))
  {
    if NoEmptyRange(rg) {
      assert ToSet(order) == rg.start.Keys;
      SpillsNothingExactly(order, rg);
      forall choice | FeasibleChoice(choice, rg) ensures |s.locations| <= |rg.start| - |choice| {
        assert Feasible(choice, order, rg);
        ScanIsOptimal(order, rg, choice);
        DistinctSize(order);
        assert |rg.start| == |rg.start.Keys|;
      }
    }
  }

  lemma AddTrueKey(m: map<int, bool>, r: int)
    ensures TrueKeys(m[r := true]) == TrueKeys(m) + {r}
  {
  }

  lemma {:induction false} RemoveAbsent(s: seq<Entry>, v: Entry)
    requires v !in s
    ensures RemoveFirst(s, v) == s
  {
    if s != [] { RemoveAbsent(s[1..], v); }
  }

  lemma RegistersOfSnoc(registers: map<Entry, int>, s: seq<Entry>, i: nat)
    requires i < |s|
    ensures RegistersOf(registers, s[..i + 1]) == RegistersOf(registers, s[..i]) + {At(registers, s[i])}
  {
    assert s[..i + 1] == s[..i] + [s[i]];
  }
}
