/** The free-frame stack of pmm.c and the DMA buffer table that draws on it. */
module FrameAllocator {
  import opened Numbers
  import opened Sequences
  import opened F = Frames

  datatype Region = Region(base: nat, length: nat, available: bool)

  /** Where the 64-bit addresses wrap. */
  const TOP: nat := 0x1_0000_0000_0000_0000

  function AlignFrame(a: nat): (r: nat)
    ensures r % 4096 == 0 && r + 4096 <= TOP
    ensures a + 4096 <= TOP ==> a <= r < a + 4096
  {
    (a + 4095) % TOP / 4096 * 4096
  }

  /** The first address left after the kernel image, its heap and what was reserved. */
  function ReservedEnd(kernelEnd: nat, reservedUntil: nat): (r: nat)
    ensures r % 4096 == 0 && r + 4096 <= TOP
  {
    var e := (AlignFrame(kernelEnd) + 0x80_0000) % TOP;
    if reservedUntil > e then AlignFrame(reservedUntil) else e
  }

  /** Push the frames from frame on that end by end, as long as there is room. */
  function Register(free: seq<nat>, frame: nat, end: nat): (r: seq<nat>)
    requires |free| <= 32768
    ensures |r| <= 32768
    decreases 32768 - |free|
  {
    var next := (frame + 4096) % TOP;
    if next <= end && |free| < 32768 then Register(free + [frame], next, end) else free
  }

  function FirstFrame(r: Region, reserved: nat): nat {
    Max(Max(AlignFrame(r.base), 0x10_0000), reserved)
  }

  function RegisterAll(regions: seq<Region>, reserved: nat): (r: seq<nat>)
    ensures |r| <= 32768
  {
    if regions == [] then []
    else
      var before := RegisterAll(regions[..|regions| - 1], reserved);
      var region := regions[|regions| - 1];
      if region.available then Register(before, FirstFrame(region, reserved), (region.base + region.length) % TOP)
      else before
  }

  // ---- What is registered ----

  /** The region starts two frames and ends a frame below 2^64. */
  ghost predicate Fits(r: Region) {
    r.base + 0x2000 <= TOP && r.base + r.length + 4096 < TOP
  }

  ghost predicate Apart(regions: seq<Region>) {
    forall i, j :: 0 <= i < j < |regions| ==>
      regions[i].base + regions[i].length <= regions[j].base || regions[j].base + regions[j].length <= regions[i].base
  }

  lemma {:induction false} RegisterAdds(free: seq<nat>, frame: nat, end: nat, floor: nat)
    requires |free| <= 32768 && Distinct(free) && 0 < frame && frame % 4096 == 0
    requires frame + 4096 < TOP && end + 4096 < TOP
    requires floor <= frame && forall f :: f in free ==> Plain(f) && (f < frame || end <= f)
    ensures var r := Register(free, frame, end);
            Distinct(r) && forall f :: f in r ==> f in free || (Plain(f) && floor <= f && f + 4096 <= end)
    decreases 32768 - |free|
  {
    if frame + 4096 <= end && |free| < 32768 {
      assert frame !in free;
      RegisterAdds(free + [frame], frame + 4096, end, floor);
    }
  }

  predicate Holds(r: Region, f: nat) {
    r.base <= f && f + 4096 <= r.base + r.length
  }

  /** The frame lies in one of the available regions. */
  ghost predicate Covered(f: nat, regions: seq<Region>) {
    exists i :: 0 <= i < |regions| && regions[i].available && Holds(regions[i], f)
  }

  /** One more region, of which nothing was registered before. */
  lemma RegionAdds(free: seq<nat>, region: Region, reserved: nat)
    requires |free| <= 32768 && Distinct(free) && Fits(region) && reserved % 4096 == 0 && reserved + 4096 < TOP
    requires forall f :: f in free ==> Plain(f) && (f < region.base || region.base + region.length <= f)
    ensures var r := Register(free, FirstFrame(region, reserved), (region.base + region.length) % TOP);
            && Distinct(r)
            && forall f :: f in r ==> f in free || (Plain(f) && 0x10_0000 <= f && reserved <= f && Holds(region, f))
  {
    var first := FirstFrame(region, reserved);
    RegisterAdds(free, first, region.base + region.length, first);
  }

  lemma {:induction false} RegisterAllAdds(regions: seq<Region>, reserved: nat)
    requires reserved % 4096 == 0 && reserved + 4096 < TOP && Apart(regions) && forall r :: r in regions ==> Fits(r)
    ensures var all := RegisterAll(regions, reserved);
            && Distinct(all)
            && forall f :: f in all ==> Plain(f) && 0x10_0000 <= f && reserved <= f && Covered(f, regions)
  {
    hide Register, FirstFrame, Plain;
    if regions != [] {
      var n := |regions| - 1;
      var front, last := regions[..n], regions[n];
      RegisterAllAdds(front, reserved);
      var before := RegisterAll(front, reserved);
      forall f | f in before
        ensures Covered(f, regions) && (f < last.base || last.base + last.length <= f)
      {
        CoveredMore(f, regions);
        CoveredBeside(f, regions);
      }
      assert last in regions;
      if last.available {
        RegionAdds(before, last, reserved);
      }
    }
  }

  lemma CoveredMore(f: nat, regions: seq<Region>)
    requires regions != [] && Covered(f, regions[..|regions| - 1])
    ensures Covered(f, regions)
  {
    var front := regions[..|regions| - 1];
    var i :| 0 <= i < |front| && front[i].available && Holds(front[i], f);
    assert regions[i] == front[i];
  }

  lemma CoveredBeside(f: nat, regions: seq<Region>)
    requires regions != [] && Covered(f, regions[..|regions| - 1]) && Apart(regions)
    ensures var last := regions[|regions| - 1]; f < last.base || last.base + last.length <= f
  {
    var front := regions[..|regions| - 1];
    var i :| 0 <= i < |front| && front[i].available && Holds(front[i], f);
    assert regions[i] == front[i];
  }

  /** Unless the stack filled up, no whole frame of the range is left out. */
  lemma {:induction false} RegisterMisses(free: seq<nat>, frame: nat, end: nat, f: nat)
    requires |free| <= 32768 && frame % 4096 == 0 && f % 4096 == 0 && f + 4096 <= end
    requires frame + 4096 < TOP && end + 4096 < TOP
    requires |Register(free, frame, end)| < 32768 && (frame <= f || f in free)
    ensures f in Register(free, frame, end)
    decreases 32768 - |free|
  {
    if frame + 4096 <= end && |free| < 32768 {
      RegisterMisses(free + [frame], frame + 4096, end, f);
    }
  }

  lemma {:induction false} RegisterGrows(free: seq<nat>, frame: nat, end: nat)
    requires |free| <= 32768
    ensures |free| <= |Register(free, frame, end)|
    decreases 32768 - |free|
  {
    var next := (frame + 4096) % TOP;
    if next <= end && |free| < 32768 {
      RegisterGrows(free + [frame], next, end);
    }
  }

  /** Unless the stack filled up, every whole frame of an available region is registered, from 1 MiB
      and the end of the reserved memory on. */
  lemma {:induction false} RegisterAllMisses(regions: seq<Region>, reserved: nat, i: nat, f: nat)
    requires reserved % 4096 == 0 && reserved + 4096 < TOP && forall r :: r in regions ==> Fits(r)
    requires |RegisterAll(regions, reserved)| < 32768 && i < |regions| && regions[i].available && Holds(regions[i], f)
    requires f % 4096 == 0 && 0x10_0000 <= f && reserved <= f
    ensures f in RegisterAll(regions, reserved)
  {
    hide Register;
    var n := |regions| - 1;
    var front, last := regions[..n], regions[n];
    var before := RegisterAll(front, reserved);
    assert last in regions;
    if last.available {
      RegisterGrows(before, FirstFrame(last, reserved), (last.base + last.length) % TOP);
    }
    if i < n {
      RegisterAllMisses(front, reserved, i, f);
      if last.available {
        RegisterKeeps(before, FirstFrame(last, reserved), (last.base + last.length) % TOP, f);
      }
    } else {
      RegisterMisses(before, FirstFrame(last, reserved), last.base + last.length, f);
    }
  }

  // ---- The memory that is left alone ----

  lemma ReservedCovers(kernelEnd: nat, reservedUntil: nat)
    requires kernelEnd + 0x80_2000 <= TOP && reservedUntil + 0x2000 <= TOP
    ensures kernelEnd + 0x80_0000 <= ReservedEnd(kernelEnd, reservedUntil)
    ensures reservedUntil <= ReservedEnd(kernelEnd, reservedUntil) <= TOP - 0x2000
    ensures ReservedEnd(kernelEnd, reservedUntil) < Max(kernelEnd + 0x80_0000, reservedUntil) + 4096
  {
  }

  /** A frame from a on starts at or after the first multiple from a on. */
  lemma FrameFrom(a: nat, r: nat, f: nat)
    requires r % 4096 == 0 && f % 4096 == 0 && a <= f && r < a + 4096
    ensures r <= f
  {
    var k, m := r / 4096, f / 4096;
    assert r == 4096 * k && f == 4096 * m;
  }

  /** From boot: every whole frame of an available region that belongs neither to the first megabyte,
      nor to the kernel and its 8 MiB heap, nor to the reserved memory, is registered, unless the
      stack filled up. */
  lemma BootMisses(regions: seq<Region>, kernelEnd: nat, reservedUntil: nat, i: nat, f: nat)
    requires kernelEnd + 0x80_2000 <= TOP && reservedUntil + 0x2000 <= TOP && forall r :: r in regions ==> Fits(r)
    requires |RegisterAll(regions, ReservedEnd(kernelEnd, reservedUntil))| < 32768
    requires i < |regions| && regions[i].available && Holds(regions[i], f)
    requires f % 4096 == 0 && 0x10_0000 <= f && kernelEnd + 0x80_0000 <= f && reservedUntil <= f
    ensures f in RegisterAll(regions, ReservedEnd(kernelEnd, reservedUntil))
  {
    hide RegisterAll, ReservedEnd, Fits, Holds;
    ReservedCovers(kernelEnd, reservedUntil);
    FrameFrom(Max(kernelEnd + 0x80_0000, reservedUntil), ReservedEnd(kernelEnd, reservedUntil), f);
    RegisterAllMisses(regions, ReservedEnd(kernelEnd, reservedUntil), i, f);
  }

  lemma RangeMisses(kernelEnd: nat, reservedUntil: nat, base: nat, size: nat, f: nat)
    requires kernelEnd + 0x80_2000 <= TOP && reservedUntil + 0x2000 <= TOP && Fits(Region(base, size, true))
    requires |RegisterRange(kernelEnd, reservedUntil, base, size)| < 32768
    requires f % 4096 == 0 && base <= f && f + 4096 <= base + size && kernelEnd + 0x80_0000 <= f && reservedUntil <= f
    ensures f in RegisterRange(kernelEnd, reservedUntil, base, size)
  {
    hide ReservedEnd, Register, AlignFrame;
    ReservedCovers(kernelEnd, reservedUntil);
    FrameFrom(Max(kernelEnd + 0x80_0000, reservedUntil), ReservedEnd(kernelEnd, reservedUntil), f);
    var start := Max(ReservedEnd(kernelEnd, reservedUntil), base);
    FrameFrom(start, AlignFrame(start), f);
    RegisterMisses([], AlignFrame(start), base + size, f);
  }

  /** Whatever disjoint regions the machine has, only frames of theirs are registered, and none of
      the kernel image, its heap and the reserved memory. */
  ghost predicate Respects(kernelEnd: nat, reservedUntil: nat) {
    forall regions, f | Apart(regions) && (forall r :: r in regions ==> Fits(r)) &&
                        f in RegisterAll(regions, ReservedEnd(kernelEnd, reservedUntil)) ::
      Covered(f, regions) && kernelEnd + 0x80_0000 <= f && reservedUntil <= f
  }

  /** Nothing below the first frame is dropped again. */
  lemma {:induction false} RegisterKeeps(free: seq<nat>, frame: nat, end: nat, f: nat)
    requires |free| <= 32768 && f in free
    ensures f in Register(free, frame, end)
    decreases 32768 - |free|
  {
    var next := (frame + 4096) % TOP;
    if next <= end && |free| < 32768 {
      RegisterKeeps(free + [frame], next, end, f);
    }
  }

  /** The first frame of a lone region is registered as soon as it ends by the region's end, and
      the frame below 2^64 seems to end at 0. */
  lemma FirstRegistered(r: Region, reserved: nat)
    requires r.available && Fits(r) && (FirstFrame(r, reserved) + 4096) % TOP <= r.base + r.length
    ensures FirstFrame(r, reserved) in RegisterAll([r], reserved)
  {
    var first := FirstFrame(r, reserved);
    assert [r][..0] == [];
    assert [] + [first] == [first];
    RegisterKeeps([first], (first + 4096) % TOP, r.base + r.length, first);
  }

  /** The address ownership contract holds if and only if the end of the reserved memory does not
      wrap and leaves a frame below 2^64, or leaves no frame that could be registered. */
  lemma RespectsIff(kernelEnd: nat, reservedUntil: nat)
    requires kernelEnd < TOP && reservedUntil < TOP
    ensures Respects(kernelEnd, reservedUntil) <==>
            (kernelEnd + 0x80_2000 <= TOP && reservedUntil + 0x2000 <= TOP) ||
            ReservedEnd(kernelEnd, reservedUntil) == TOP - 0x2000
  {
    hide Respects;
    var reserved := ReservedEnd(kernelEnd, reservedUntil);
    if (kernelEnd + 0x80_2000 <= TOP && reservedUntil + 0x2000 <= TOP) || reserved == TOP - 0x2000 {
      Respected(kernelEnd, reservedUntil);
    } else {
      Violated(kernelEnd, reservedUntil);
    }
  }

  lemma Respected(kernelEnd: nat, reservedUntil: nat)
    requires (kernelEnd + 0x80_2000 <= TOP && reservedUntil + 0x2000 <= TOP) ||
             ReservedEnd(kernelEnd, reservedUntil) == TOP - 0x2000
    ensures Respects(kernelEnd, reservedUntil)
  {
    hide RegisterAll;
    var reserved := ReservedEnd(kernelEnd, reservedUntil);
    forall regions: seq<Region>, f | Apart(regions) && (forall r :: r in regions ==> Fits(r)) &&
                                     f in RegisterAll(regions, reserved)
      ensures Covered(f, regions) && kernelEnd + 0x80_0000 <= f && reservedUntil <= f
    {
      if reserved < TOP - 0x2000 {
        ReservedCovers(kernelEnd, reservedUntil);
      }
      RegisterAllAdds(regions, reserved);
      var i :| 0 <= i < |regions| && regions[i].available && Holds(regions[i], f);
      assert Fits(regions[i]);
    }
  }

  /** A lone region with a frame that should not have been registered. */
  lemma ViolatedBy(kernelEnd: nat, reservedUntil: nat, r: Region, f: nat)
    requires Fits(r) && f in RegisterAll([r], ReservedEnd(kernelEnd, reservedUntil))
    requires !Holds(r, f) || f < kernelEnd + 0x80_0000 || f < reservedUntil
    ensures !Respects(kernelEnd, reservedUntil)
  {
    hide RegisterAll, ReservedEnd, Fits, Holds;
    assert Apart([r]) && forall x :: x in [r] ==> x == r;
  }

  lemma Violated(kernelEnd: nat, reservedUntil: nat)
    requires kernelEnd + 0x80_2000 > TOP || reservedUntil + 0x2000 > TOP
    requires ReservedEnd(kernelEnd, reservedUntil) != TOP - 0x2000
    ensures !Respects(kernelEnd, reservedUntil)
  {
    hide RegisterAll, ReservedEnd, Respects;
    var reserved := ReservedEnd(kernelEnd, reservedUntil);
    var base := if reserved == TOP - 4096 then 0x10_0000 else Max(reserved, 0x10_0000);
    var r := Region(base, 4096, true);
    FirstRegistered(r, reserved);
    ViolatedBy(kernelEnd, reservedUntil, r, FirstFrame(r, reserved));
  }

  // ---- From boot on ----

  const NO_BUFFERS: seq<Buffer> := seq(64, _ => NO_BUFFER)

  /** The stack, the DMA buffers and the single holders share out exactly the frames. */
  ghost predicate SharesOut(t: Memory, free: seq<nat>) {
    && multiset(t.free) + AllBuffers(t.buffers, 0) + multiset(t.owned) == multiset(Elements(free))
    && |t.free| <= 32768
    && forall i, j, f :: 0 <= i < j < |t.buffers| ==>
         f !in BufferFrames(t.buffers[i]) || f !in BufferFrames(t.buffers[j])
  }

  lemma RunShares(free: seq<nat>, es: seq<Event>)
    requires |free| <= 32768 && Distinct(free) && (forall f :: f in free ==> Plain(f))
    requires LegalRun(Memory(free, NO_BUFFERS, {}), es)
    ensures SharesOut(Final(Memory(free, NO_BUFFERS, {}), es), free)
  {
    hide Final, LegalRun, BufferFrames;
    ElementsCount(free);
    EveryRun(Elements(free), Memory(free, NO_BUFFERS, {}), es);
  }

  /** A machine booted on disjoint regions, whatever is then allocated and given back. */
  lemma BootedRun(regions: seq<Region>, kernelEnd: nat, reservedUntil: nat, es: seq<Event>)
    requires Apart(regions) && forall r :: r in regions ==> Fits(r)
    requires ReservedEnd(kernelEnd, reservedUntil) + 4096 < TOP
    requires LegalRun(Memory(RegisterAll(regions, ReservedEnd(kernelEnd, reservedUntil)), NO_BUFFERS, {}), es)
    ensures var free := RegisterAll(regions, ReservedEnd(kernelEnd, reservedUntil));
            SharesOut(Final(Memory(free, NO_BUFFERS, {}), es), free)
  {
    hide Final, LegalRun, RegisterAll, SharesOut, ReservedEnd;
    var reserved := ReservedEnd(kernelEnd, reservedUntil);
    RegisterAllAdds(regions, reserved);
    RunShares(RegisterAll(regions, reserved), es);
  }

  /** The frames of a machine with one range of memory. */
  function RegisterRange(kernelEnd: nat, reservedUntil: nat, base: nat, size: nat): (r: seq<nat>)
    ensures |r| <= 32768
  {
    if size == 0 then []
    else Register([], AlignFrame(Max(ReservedEnd(kernelEnd, reservedUntil), base)), (base + size) % TOP)
  }

  lemma RangeAdds(kernelEnd: nat, reservedUntil: nat, base: nat, size: nat)
    requires kernelEnd + 0x80_2000 <= TOP && reservedUntil + 0x2000 <= TOP && Fits(Region(base, size, true))
    ensures var free := RegisterRange(kernelEnd, reservedUntil, base, size);
            && Distinct(free)
            && (forall f :: f in free ==> Plain(f) && base <= f && f + 4096 <= base + size)
            && (forall f :: f in free ==> kernelEnd + 0x80_0000 <= f && reservedUntil <= f)
  {
    ReservedCovers(kernelEnd, reservedUntil);
    var start := Max(ReservedEnd(kernelEnd, reservedUntil), base);
    var first := AlignFrame(start);
    if size > 0 {
      RegisterAdds([], first, base + size, first);
    }
  }

  /** A machine booted on one range of memory, whatever is then allocated and given back. */
  lemma BootedRange(kernelEnd: nat, reservedUntil: nat, base: nat, size: nat, es: seq<Event>)
    requires kernelEnd + 0x80_2000 <= TOP && reservedUntil + 0x2000 <= TOP && Fits(Region(base, size, true))
    requires LegalRun(Memory(RegisterRange(kernelEnd, reservedUntil, base, size), NO_BUFFERS, {}), es)
    ensures var free := RegisterRange(kernelEnd, reservedUntil, base, size);
            SharesOut(Final(Memory(free, NO_BUFFERS, {}), es), free)
  {
    hide Final, LegalRun, RegisterRange, SharesOut;
    RangeAdds(kernelEnd, reservedUntil, base, size);
    RunShares(RegisterRange(kernelEnd, reservedUntil, base, size), es);
  }

  // ---- The stack ----

  class Stack {
    const frames: array<nat>
    var count: nat
    var reservedUntil: nat

    ghost predicate Valid()
      reads this
    {
      frames.Length == 32768 && count <= 32768
    }

    ghost function Free(): seq<nat>
      reads this, frames
      requires Valid()
    {
      frames[..count]
    }

    constructor ()
      ensures Valid() && Free() == [] && reservedUntil == 0 && fresh(frames)
    {
      frames := new nat[32768];
      count, reservedUntil := 0, 0;
    }

    method ReserveUntil(a: nat)
      requires Valid()
      modifies this`reservedUntil
      ensures reservedUntil == Max(old(reservedUntil), a)
    {
      if a > reservedUntil {
        reservedUntil := a;
      }
    }

    /** Push the frames of one range. */
    method PushRange(start: nat, end: nat)
      requires Valid()
      modifies this`count, frames
      ensures Valid() && Free() == Register(old(Free()), start, end)
    {
      var frame: nat := start;
      while (frame + 4096) % TOP <= end && count < 32768
        invariant Valid() && Register(old(Free()), start, end) == Register(Free(), frame, end)
        decreases 32768 - count
      {
        frames[count] := frame;
        ghost var before := Free();
        count := count + 1;
        assert Free() == before + [frame];
        frame := (frame + 4096) % TOP;
      }
    }

    method Init(kernelEnd: nat, regions: seq<Region>)
      requires Valid()
      modifies this`count, frames
      ensures Valid() && Free() == RegisterAll(regions, ReservedEnd(kernelEnd, reservedUntil))
    {
      count := 0;
      var reserved := (AlignFrame(kernelEnd) + 0x80_0000) % TOP;
      if reservedUntil > reserved {
        reserved := AlignFrame(reservedUntil);
      }
      assert regions[..|regions|] == regions;
      for i := 0 to |regions|
        invariant Valid() && Free() == RegisterAll(regions[..i], reserved)
      {
        assert regions[..i + 1][..i] == regions[..i];
        if regions[i].available {
          var start := Max(AlignFrame(regions[i].base), 0x10_0000);
          start := Max(start, reserved);
          PushRange(start, (regions[i].base + regions[i].length) % TOP);
        }
      }
    }

    method InitRange(kernelEnd: nat, base: nat, size: nat)
      requires Valid()
      modifies this`count, frames
      ensures Valid() && Free() == RegisterRange(kernelEnd, reservedUntil, base, size)
    {
      count := 0;
      if size == 0 {
        return;
      }
      var reserved := (AlignFrame(kernelEnd) + 0x80_0000) % TOP;
      if reservedUntil > reserved {
        reserved := AlignFrame(reservedUntil);
      }
      var start := if reserved > base then reserved else base;
      start := AlignFrame(start);
      PushRange(start, (base + size) % TOP);
    }

    method AllocFrame() returns (f: Option<nat>)
      requires Valid()
      modifies this`count
      ensures Valid()
      ensures f.None? ==> old(Free()) == [] && Free() == old(Free())
      ensures f.Some? ==> old(Free()) == Free() + [f.value]
    {
      if count == 0 {
        return None;
      }
      count := count - 1;
      return Some(frames[count]);
    }

    /** Do the count frames from place start on ascend? */
    method IsRun(start: nat, n: nat) returns (ok: bool)
      requires Valid() && n > 0 && start + n <= count
      ensures ok <==> Ascends(Free(), start, n)
    {
      ghost var free := Free();
      var base := frames[start];
      for i := 1 to n
        invariant forall j :: 1 <= j < i ==> free[start + j] == Ahead(free[start], j)
      {
        if frames[start + i] != (base + i * 4096) % TOP {
          assert free[start + i] != Ahead(free[start], i);
          return false;
        }
      }
      return true;
    }

    method AllocContiguous(n: nat) returns (base: Option<nat>)
      requires Valid()
      modifies this`count, frames
      ensures Valid() && (Free(), base) == TakeRun(old(Free()), n)
    {
      hide Ascends;
      ghost var free := Free();
      if n == 0 {
        return None;
      }
      var start := 0;
      while start + n <= count
        invariant Valid() && Free() == free && FirstRun(free, n, 0) == FirstRun(free, n, start)
      {
        var run := IsRun(start, n);
        if run {
          base := Some(frames[start]);
          Close(start, n);
          return;
        }
        start := start + 1;
      }
      return None;
    }

    /** Move the frames above the run down over it. */
    method Close(start: nat, n: nat)
      requires Valid() && start + n <= count
      modifies this`count, frames
      ensures Valid() && Free() == old(Free())[..start] + old(Free())[start + n..]
    {
      ghost var free := Free();
      var tail := start + n;
      while tail < count
        invariant start + n <= tail <= count && count == |free|
        invariant forall k :: 0 <= k < start ==> frames[k] == free[k]
        invariant forall k :: start <= k < tail - n ==> frames[k] == free[k + n]
        invariant forall k :: tail <= k < count ==> frames[k] == free[k]
        modifies frames
      {
        frames[tail - n] := frames[tail];
        tail := tail + 1;
      }
      count := count - n;
    }

    method FreeFrame(f: nat)
      requires Valid()
      modifies this`count, frames
      ensures Valid() && Free() == PutFrame(old(Free()), f)
    {
      if f == 0 || count >= 32768 {
        return;
      }
      frames[count] := f;
      count := count + 1;
    }

    method GetFreeFrameCount() returns (n: nat)
      requires Valid()
      ensures n == |Free()|
    {
      n := count;
    }
  }

  // ---- DMA buffers ----

  class DmaTable {
    const slots: array<Buffer>
    const stack: Stack

    ghost predicate Valid()
      reads this, slots, stack
    {
      slots.Length == 64 && stack.Valid()
    }

    /** The stack and the buffers; frames held singly are the callers' business. */
    ghost function View(owned: set<nat>): Memory
      reads this, slots, stack, stack.frames
      requires Valid()
    {
      Memory(stack.Free(), slots[..], owned)
    }

    constructor (stack: Stack)
      requires stack.Valid()
      ensures Valid() && this.stack == stack && fresh(slots) && slots[..] == NO_BUFFERS
      ensures stack.Free() == old(stack.Free())
    {
      slots := new Buffer[64](_ => NO_BUFFER);
      this.stack := stack;
    }

    /** Give back the frames of a buffer one by one. */
    method PutBack(base: nat, n: nat)
      requires stack.Valid()
      modifies stack`count, stack.frames
      ensures stack.Valid() && stack.Free() == PutRun(old(stack.Free()), base, n)
    {
      for i := 0 to n
        invariant stack.Valid() && stack.Free() == PutRun(old(stack.Free()), base, i)
      {
        stack.FreeFrame((base + i * 4096) % TOP);
      }
    }

    method AllocBuffer(size: int, ghost owned: set<nat>) returns (handle: int)
      requires Valid()
      modifies slots, stack`count, stack.frames
      ensures Valid() && (View(owned), handle) == F.AllocBuffer(old(View(owned)), size)
    {
      hide TakeRun, PutRun;
      if size <= 0 {
        return -1;
      }
      var n := (size + 4095) / 4096;
      var base := stack.AllocContiguous(n);
      if base.None? || base.value == 0 {
        return -1;
      }
      for i := 0 to 64
        invariant Valid() && slots[..] == old(slots[..]) && forall j :: 0 <= j < i ==> slots[j].base != 0
        modifies slots
      {
        if slots[i].base == 0 {
          assert EmptyBuffer(slots[..], 0) == i;
          slots[i] := Buffer(base.value, n);
          return i + 1;
        }
      }
      PutBack(base.value, n);
      return -1;
    }

    method FreeBuffer(handle: int, ghost owned: set<nat>) returns (r: int)
      requires Valid()
      modifies slots, stack`count, stack.frames
      ensures Valid() && (View(owned), r) == F.FreeBuffer(old(View(owned)), handle)
    {
      hide PutRun;
      if handle <= 0 || handle > 64 || slots[handle - 1].base == 0 {
        return -1;
      }
      var b := slots[handle - 1];
      PutBack(b.base, b.frames);
      slots[handle - 1] := NO_BUFFER;
      return 0;
    }
  }
}
