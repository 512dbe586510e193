/** Linear-scan register allocation over live intervals: the allocation as a function of the scan order. */
module LinearScan {
  import opened Ir

  /** A lookup in the allocator's maps, which yield 0 for an absent key. */
  function At(m: map<Entry, int>, v: Entry): int {
    if v in m then m[v] else 0
  }

  /** First and last point at which each variable needs a home. */
  datatype Ranges = Ranges(start: map<Entry, int>, end: map<Entry, int>) {
    predicate Overlap(v: Entry, w: Entry) {
      At(start, v) <= At(end, w) && At(start, w) <= At(end, v)
    }
  }

  const START_REG := 8
  const END_REG := 25
  const REGISTERS := END_REG - START_REG - 2

  predicate InPool(r: int) { START_REG <= r <= END_REG && (r < 16 || r > 18) }

  function Pool(): (p: set<int>)
    ensures forall r :: r in p <==> InPool(r)
  {
    set r | START_REG <= r <= END_REG && InPool(r)
  }

  /** The register count used by the scan is the size of the pool. */
  lemma PoolSize()
    ensures |Pool()| == REGISTERS == 15
    ensures Pool() == {8, 9, 10, 11, 12, 13, 14, 15, 19, 20, 21, 22, 23, 24, 25}
  {
    var low := {8, 9, 10, 11, 12, 13, 14, 15};
    var high := {19, 20, 21, 22, 23, 24, 25};
    assert |low| == 8 && |high| == 7 && low !! high;
    assert Pool() == low + high;
  }

  // ----- Stable sort by a key -----

  predicate SortedBy(s: seq<Entry>, key: map<Entry, int>) {
    forall i, j :: 0 <= i < j < |s| ==> At(key, s[i]) <= At(key, s[j])
  }

  predicate Distinct<T(==)>(s: seq<T>) {
    forall i, j :: 0 <= i < j < |s| ==> s[i] != s[j]
  }

  lemma DistinctAsMultiset<T>(s: seq<T>)
    ensures Distinct(s) <==> forall v :: multiset(s)[v] <= 1
  {
    if s != [] {
      DistinctAsMultiset(s[1..]);
      assert s == [s[0]] + s[1..];
      assert s[0] in s[1..] <==> s[0] in multiset(s[1..]);
      if Distinct(s) {
        assert s[0] !in s[1..];
      } else if s[0] !in s[1..] {
        assert !Distinct(s[1..]);
        var v :| multiset(s[1..])[v] > 1;
        assert multiset(s)[v] > 1;
      } else {
        assert multiset(s)[s[0]] > 1;
      }
    }
  }

  lemma SameMembers(r: seq<Entry>, s: seq<Entry>)
    requires multiset(r) == multiset(s)
    ensures forall v :: v in r <==> v in s
    ensures |r| == |s|
    ensures Distinct(s) ==> Distinct(r)
  {
    assert |r| == |multiset(r)| && |s| == |multiset(s)|;
    forall v ensures v in r <==> v in s {
      assert v in r <==> v in multiset(r);
      assert v in s <==> v in multiset(s);
    }
    DistinctAsMultiset(r);
    DistinctAsMultiset(s);
  }

  function InsertByKey(v: Entry, s: seq<Entry>, key: map<Entry, int>): seq<Entry> {
    if s == [] || At(key, v) <= At(key, s[0]) then [v] + s
    else [s[0]] + InsertByKey(v, s[1..], key)
  }

  lemma {:induction false} InsertIsPermutation(v: Entry, s: seq<Entry>, key: map<Entry, int>)
    ensures multiset(InsertByKey(v, s, key)) == multiset{v} + multiset(s)
  {
    if s != [] {
      assert s == [s[0]] + s[1..];
      InsertIsPermutation(v, s[1..], key);
    }
  }

  lemma {:induction false} InsertKeepsSorted(v: Entry, s: seq<Entry>, key: map<Entry, int>)
    requires SortedBy(s, key)
    ensures SortedBy(InsertByKey(v, s, key), key)
  {
    if s != [] && At(key, v) > At(key, s[0]) {
      var t := InsertByKey(v, s[1..], key);
      InsertKeepsSorted(v, s[1..], key);
      InsertIsPermutation(v, s[1..], key);
      forall w | w in t ensures At(key, s[0]) <= At(key, w) {
        assert w in multiset(t);
        assert w == v || w in s[1..];
      }
    }
  }

  /** sort.SliceStable with the given key. */
  function StableSort(s: seq<Entry>, key: map<Entry, int>): seq<Entry> {
    if s == [] then [] else InsertByKey(s[0], StableSort(s[1..], key), key)
  }

  lemma {:induction false} StableSortSorts(s: seq<Entry>, key: map<Entry, int>)
    ensures SortedBy(StableSort(s, key), key)
    ensures multiset(StableSort(s, key)) == multiset(s)
    ensures |StableSort(s, key)| == |s|
    ensures forall v :: v in StableSort(s, key) <==> v in s
    ensures Distinct(s) ==> Distinct(StableSort(s, key))
  {
    if s != [] {
      assert s == [s[0]] + s[1..];
      var t := StableSort(s[1..], key);
      StableSortSorts(s[1..], key);
      InsertKeepsSorted(s[0], t, key);
      InsertIsPermutation(s[0], t, key);
    }
    SameMembers(StableSort(s, key), s);
  }

  // ----- The scan -----

  /** The allocator's maps, -1 marking a displaced variable, and the set of its free registers. */
  datatype Scan = Scan(
    registers: map<Entry, int>,
    locations: map<Entry, int>,
    free: set<int>,
    active: seq<Entry>,
    stackSize: int)
  {
    predicate InRegister(v: Entry) { v in registers && registers[v] != -1 }
  }

  const EMPTY_SCAN := Scan(map[], map[], Pool(), [], 16)

  /** The length of the prefix of s whose intervals end before the point p. */
  function ExpiredPrefix(s: seq<Entry>, end: map<Entry, int>, p: int): (k: nat)
    ensures k <= |s|
    ensures forall i :: 0 <= i < k ==> At(end, s[i]) < p
    ensures k < |s| ==> At(end, s[k]) >= p
  {
    if s == [] || At(end, s[0]) >= p then 0
    else
      var k := ExpiredPrefix(s[1..], end, p) + 1;
      assert forall i :: 1 <= i < k ==> s[i] == s[1..][i - 1];
      k
  }

  function RegistersOf(registers: map<Entry, int>, vs: seq<Entry>): set<int> {
    set w | w in vs :: At(registers, w)
  }

  function Expire(s: Scan, v: Entry, rg: Ranges): Scan {
    var sorted := StableSort(s.active, rg.end);
    var k := ExpiredPrefix(sorted, rg.end, At(rg.start, v));
    s.(active := sorted[k..], free := s.free + RegistersOf(s.registers, sorted[..k]))
  }

  /** The least free register from 8 up, or -1. */
  function MinFree(free: set<int>): (r: int)
    ensures r == -1 || (r in free && START_REG <= r < 29 && forall q :: START_REG <= q < r ==> q !in free)
    ensures r == -1 ==> forall q :: START_REG <= q < 29 ==> q !in free
  {
    MinFreeFrom(free, START_REG)
  }

  function MinFreeFrom(free: set<int>, i: int): (r: int)
    requires START_REG <= i <= 29
    ensures r == -1 || (r in free && i <= r < 29 && forall q :: i <= q < r ==> q !in free)
    ensures r == -1 ==> forall q :: i <= q < 29 ==> q !in free
    decreases 29 - i
  {
    if i == 29 then -1 else if i in free then i else MinFreeFrom(free, i + 1)
  }

  function Assign(s: Scan, v: Entry): Scan {
    var r := MinFree(s.free);
    s.(registers := s.registers[v := r], free := s.free - {r}, active := s.active + [v])
  }

  function Spill(s: Scan, v: Entry, rg: Ranges): Scan
    requires s.active != []
  {
    var sorted := StableSort(s.active, rg.end);
    StableSortSorts(s.active, rg.end);
    var spill := sorted[|sorted| - 1];
    if At(rg.end, spill) > At(rg.end, v) then
      s.(registers := s.registers[v := At(s.registers, spill)][spill := -1],
         locations := s.locations[spill := s.stackSize],
         active := sorted[..|sorted| - 1] + [v],
         stackSize := s.stackSize + 8)
    else
      s.(locations := s.locations[v := s.stackSize],
         active := sorted,
         stackSize := s.stackSize + 8)
  }

  function Step(s: Scan, v: Entry, rg: Ranges): Scan {
    var s1 := Expire(s, v, rg);
    if |s1.active| == REGISTERS then Spill(s1, v, rg) else Assign(s1, v)
  }

  /** The scan after the variables of order, taken left to right. */
  function Run(order: seq<Entry>, rg: Ranges): Scan {
    if order == [] then EMPTY_SCAN
    else Step(Run(order[..|order| - 1], rg), order[|order| - 1], rg)
  }
}
