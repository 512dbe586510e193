/** A function being lowered: where its variables live, its frame, and the scratch registers handed out. */
module FrameLayout {
  import opened Words
  import opened Ir
  import opened LinearScan
  import opened LinearScanSafety
  import opened Allocator
  import opened Arm
  import opened Lowering
  import opened BlockSimulation

  // ----- The frame -----

  /** What a frame holds, besides the saved frame pointer and return address in its first 16 bytes. */
  datatype Slot = SpillOf(v: Entry) | SaveOf(reg: int) | ParamAt(i: int)

  predicate IsSaved(r: int) { 0 <= r <= 15 || 19 <= r <= 28 }

  /** The offset of each slot from the stack pointer. */
  type Frame = map<Slot, int>

  /** Slots are pairwise disjoint 8-byte cells, between the first 16 bytes and the end of the frame. */
  ghost predicate Disjoint(frame: Frame, low: int, size: int) {
    && (forall a <- frame :: low <= frame[a] <= size - 8 && frame[a] % 8 == 0)
    && (forall a <- frame, b <- frame :: a != b ==> frame[a] + 8 <= frame[b] || frame[b] + 8 <= frame[a])
  }

  lemma AddToFrame(frame: Frame, size: int, slot: Slot)
    requires Disjoint(frame, 16, size) && slot !in frame && size >= 16 && size % 8 == 0
    ensures Disjoint(frame[slot := size], 16, size + 8)
  {
  }

  function SpillFrame(locations: map<Entry, int>): Frame {
    map v | v in locations :: SpillOf(v) := locations[v]
  }

  lemma SpillsDisjoint(locations: map<Entry, int>, stackSize: int)
    requires SlotsDistinct(locations, stackSize)
    ensures Disjoint(SpillFrame(locations), 16, stackSize) && stackSize % 8 == 0 && stackSize >= 16
    ensures forall a <- SpillFrame(locations) :: a.SpillOf?
    ensures forall v <- locations ::
      SpillOf(v) in SpillFrame(locations) && SpillFrame(locations)[SpillOf(v)] == locations[v]
  {
    var frame := SpillFrame(locations);
    forall a <- frame, b <- frame | a != b ensures frame[a] + 8 <= frame[b] || frame[b] + 8 <= frame[a] {
      MultiplesApart(locations[a.v], locations[b.v]);
    }
  }

  lemma MultiplesApart(a: int, b: int)
    requires a % 8 == 0 && b % 8 == 0 && a != b
    ensures a + 8 <= b || b + 8 <= a
  {
  }

  lemma GrowFrame(frame: Frame, size: int, size': int)
    requires Disjoint(frame, 16, size) && size <= size'
    ensures Disjoint(frame, 16, size')
  {
  }

  class ArmFunction {
    const params: seq<Entry>
    const registers: map<Entry, int>
    const locations: map<Entry, int>
    var stackSize: int
    var varLocations: Homes
    var savedAddresses: map<int, ArmOperand>
    var nextAvailableRegister: nat

    constructor (params: seq<Entry>, stackSize: int, registers: map<Entry, int>, locations: map<Entry, int>)
      ensures this.params == params && this.stackSize == stackSize && this.registers == registers
      ensures this.locations == locations
      ensures varLocations == map[] && savedAddresses == map[] && nextAvailableRegister == SCRATCH
    {
      this.params, this.stackSize, this.registers, this.locations := params, stackSize, registers, locations;
      varLocations, savedAddresses, nextAvailableRegister := map[], map[], SCRATCH;
    }

    /** What a store adds to the offset of a spilled parameter slot. */
    function Shift(): int
      reads this`stackSize
    {
      stackSize - 8 * (if |params| > 14 then |params| - 14 else 0)
    }

    /** The table of spilled variables and the homes agree: variables not in a register are spilled, globals never. */
    ghost predicate SpillsMatch()
      reads this`varLocations
    {
      && (forall v <- locations :: !v.Global?)
      && (forall v <- varLocations :: IsVariable(v) ==> (varLocations[v].R? <==> v !in locations))
    }

    /** Gives every variable the place the allocator chose, in any order. */
    method PlaceVariables()
      requires forall v <- registers :: registers[v] == -1 || InPool(registers[v])
      requires varLocations == map[]
      modifies this`varLocations
      ensures varLocations == HomesOf(registers, locations)
      ensures forall v <- locations :: v in varLocations && varLocations[v] == Addr(SP, locations[v])
      ensures forall v <- registers :: v !in locations && registers[v] != -1 ==>
        v in varLocations && varLocations[v] == R(registers[v])
    {
      var keys := registers.Keys;
      while keys != {}
        invariant keys <= registers.Keys
        invariant forall v :: v in varLocations <==> v in registers.Keys - keys && registers[v] != -1
        invariant forall v <- varLocations :: varLocations[v] == R(registers[v])
      {
        var v :| v in keys;
        keys := keys - {v};
        if registers[v] != -1 { varLocations := varLocations[v := R(registers[v])]; }
      }
      keys := locations.Keys;
      while keys != {}
        invariant keys <= locations.Keys
        invariant forall v :: v in varLocations <==>
          (v in registers && registers[v] != -1) || v in locations.Keys - keys
        invariant forall v <- varLocations ::
          varLocations[v] == if v in locations.Keys - keys then Addr(SP, locations[v]) else R(registers[v])
      {
        var v :| v in keys;
        keys := keys - {v};
        varLocations := varLocations[v := Addr(SP, locations[v])];
      }
    }

    method SaveRange(low: int, high: int, ghost frame: Frame) returns (ghost frame': Frame)
      requires Disjoint(frame, 16, stackSize) && stackSize % 8 == 0 && stackSize >= 16 && low <= high + 1
      requires forall r :: low <= r <= high ==> SaveOf(r) !in frame && r !in savedAddresses
      modifies this`stackSize, this`savedAddresses
      ensures Disjoint(frame', 16, stackSize) && stackSize == old(stackSize) + 8 * (high + 1 - low)
      ensures forall r :: r in savedAddresses <==> r in old(savedAddresses) || low <= r <= high
      ensures forall r <- old(savedAddresses) :: savedAddresses[r] == old(savedAddresses[r])
      ensures forall r :: low <= r <= high ==> SaveOf(r) in frame' && savedAddresses[r] == Addr(SP, frame'[SaveOf(r)])
      ensures forall a :: a in frame' <==> a in frame || (a.SaveOf? && low <= a.reg <= high)
      ensures forall a <- frame :: frame'[a] == frame[a]
    {
      frame' := frame;
      for r := low to high + 1
        invariant Disjoint(frame', 16, stackSize) && stackSize == old(stackSize) + 8 * (r - low)
        invariant forall q :: q in savedAddresses <==> q in old(savedAddresses) || low <= q < r
        invariant forall q <- old(savedAddresses) :: savedAddresses[q] == old(savedAddresses[q])
        invariant forall q :: low <= q < r ==> SaveOf(q) in frame' && savedAddresses[q] == Addr(SP, frame'[SaveOf(q)])
        invariant forall a :: a in frame' <==> a in frame || (a.SaveOf? && low <= a.reg < r)
        invariant forall a <- frame :: frame'[a] == frame[a]
      {
        AddToFrame(frame', stackSize, SaveOf(r));
        frame' := frame'[SaveOf(r) := stackSize];
        savedAddresses := savedAddresses[r := Addr(SP, stackSize)];
        stackSize := stackSize + 8;
      }
    }

    /** The first eight parameters stay in their registers, the others get a cell each. */
    method PlaceParams(ghost frame: Frame) returns (ghost frame': Frame)
      requires Disjoint(frame, 16, stackSize) && stackSize % 8 == 0 && stackSize >= 16
      requires forall i, j :: 0 <= i < j < |params| ==> params[i] != params[j]
      requires forall i :: ParamAt(i) !in frame
      modifies this`stackSize, this`varLocations
      ensures Disjoint(frame', 16, stackSize)
      ensures stackSize == old(stackSize) + 8 * (if |params| > 8 then |params| - 8 else 0)
      ensures forall v :: v !in params ==> (v in varLocations <==> v in old(varLocations))
      ensures forall v <- old(varLocations) :: v !in params ==> varLocations[v] == old(varLocations[v])
      ensures forall i :: 0 <= i < |params| ==>
        params[i] in varLocations &&
          (if i < 8 then varLocations[params[i]] == R(i)
           else ParamAt(i) in frame' && varLocations[params[i]] == Addr(SP, frame'[ParamAt(i)]))
      ensures forall a <- frame :: a in frame' && frame'[a] == frame[a]
    {
      frame' := frame;
      for i := 0 to |params|
        invariant Disjoint(frame', 16, stackSize) && stackSize == old(stackSize) + 8 * (if i > 8 then i - 8 else 0)
        invariant forall v :: v !in params ==> (v in varLocations <==> v in old(varLocations))
        invariant forall v <- old(varLocations) :: v !in params ==>
            v in varLocations && varLocations[v] == old(varLocations[v])
        invariant forall j :: 0 <= j < i ==>
          params[j] in varLocations &&
          (if j < 8 then varLocations[params[j]] == R(j)
           else ParamAt(j) in frame' && varLocations[params[j]] == Addr(SP, frame'[ParamAt(j)]))
        invariant forall j :: ParamAt(j) in frame' ==> j < i
        invariant forall a <- frame :: a in frame' && frame'[a] == frame[a]
      {
        if i < 8 {
          varLocations := varLocations[params[i] := R(i)];
        } else {
          AddToFrame(frame', stackSize, ParamAt(i));
          frame' := frame'[ParamAt(i) := stackSize];
          varLocations := varLocations[params[i] := Addr(SP, stackSize)];
          stackSize := stackSize + 8;
        }
      }
    }

    /** Lays out the frame. The raw parameters keep their registers or get cells whatever the allocator chose for them;
        every other variable lives where it chose. */
    method GenerateVarLocations() returns (ghost frame: Frame)
      requires SlotsDistinct(locations, stackSize)
      requires forall v <- registers :: registers[v] == -1 || InPool(registers[v])
      requires forall i, j :: 0 <= i < j < |params| ==> params[i] != params[j]
      requires varLocations == map[] && savedAddresses == map[]
      modifies this`stackSize, this`varLocations, this`savedAddresses
      ensures Disjoint(frame, 16, stackSize) && stackSize % 16 == 0 && Shift() > 0
      ensures var used := old(stackSize) + 8 * 26 + 8 * (if |params| > 8 then |params| - 8 else 0);
        used < stackSize <= used + 16
      ensures forall v <- locations :: SpillOf(v) in frame && frame[SpillOf(v)] == locations[v]
      ensures forall r :: r in savedAddresses <==> IsSaved(r)
      ensures forall r :: IsSaved(r) ==> SaveOf(r) in frame && savedAddresses[r] == Addr(SP, frame[SaveOf(r)])
      ensures forall i :: 0 <= i < |params| ==>
        params[i] in varLocations && if i < 8 then varLocations[params[i]] == R(i)
                                     else ParamAt(i) in frame && varLocations[params[i]] == Addr(SP, frame[ParamAt(i)])
      ensures forall v :: v !in params ==>
        (v in varLocations <==> v in HomesOf(registers, locations))
        && (v in varLocations ==> varLocations[v] == HomesOf(registers, locations)[v])
    {
      hide Disjoint, SlotsDistinct, HomesOf, SpillFrame;
      SpillsDisjoint(locations, stackSize);
      frame := SpillFrame(locations);
      PlaceVariables();
      frame := SaveRange(0, 15, frame);
      frame := SaveRange(19, 28, frame);
      frame := PlaceParams(frame);
      ghost var used := stackSize;
      stackSize := stackSize + (16 - stackSize % 16);
      GrowFrame(frame, used, stackSize);
      assert Shift() > 0 by { hide *; }
    }
  }

  /** With at most 14 parameters a spilled parameter slot is looked for a whole frame above its cell, and 8 bytes less
      for each further one. */
  lemma ShiftIsAFrame(f: ArmFunction)
    ensures |f.params| <= 14 ==> f.Shift() == f.stackSize
    ensures |f.params| > 14 ==> f.Shift() + 8 * (|f.params| - 14) == f.stackSize
  {
  }

  /** So they agree once the frame is laid out, the parameters of a function being raw ones. */
  lemma LaidOutMatches(f: ArmFunction)
    requires (forall p <- f.params :: p.RawParam?) && (forall v <- f.locations :: !v.Global?)
    requires forall v :: v !in f.params ==>
      (v in f.varLocations <==> v in HomesOf(f.registers, f.locations))
      && (v in f.varLocations ==> f.varLocations[v] == HomesOf(f.registers, f.locations)[v])
    ensures f.SpillsMatch()
  {
  }
}
