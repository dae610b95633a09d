/**
  The kernel heap in memory: a bump pointer, free lists threaded through the free blocks, and
  one header word per block.  Every operation is proved to do what the machine over layouts does.
*/
module KernelHeap {
  import opened Numbers
  import opened Sequences
  import opened HeapLayout
  import opened HeapMachine

  /** Memory as 8-byte words by address; what was never written reads as zero. */
  type Memory = map<nat, nat>

  function Load(mem: Memory, a: nat): nat {
    if a in mem then mem[a] else 0
  }

  /** The list that starts at head and follows the word at each user pointer. */
  ghost predicate Chain(mem: Memory, head: nat, l: seq<nat>)
    decreases |l|
  {
    if l == [] then head == 0 else head == l[0] && head != 0 && Chain(mem, Load(mem, head), l[1..])
  }

  lemma ChainStep(mem: Memory, head: nat, l: seq<nat>)
    requires Chain(mem, head, l)
    ensures if head == 0 then l == [] else l != [] && head == l[0] && Chain(mem, Load(mem, head), l[1..])
  {
  }

  /** Every block has its total size in its header. */
  ghost predicate Headers(mem: Memory, at: Blocks) {
    forall u :: u in at ==> u >= 16 && Load(mem, u - 16) == 16 + at[u].size()
  }

  ghost predicate Chains(mem: Memory, heads: seq<nat>, overflow: nat, lists: seq<seq<nat>>) {
    && |heads| == 64 && |lists| == 65 && Chain(mem, overflow, lists[64])
    && forall k :: 0 <= k < 64 ==> Chain(mem, heads[k], lists[k])
  }

  lemma {:induction false} ChainFrame(mem: Memory, mem': Memory, head: nat, l: seq<nat>)
    requires Chain(mem, head, l) && forall u :: u in l ==> Load(mem', u) == Load(mem, u)
    ensures Chain(mem', head, l)
    decreases |l|
  {
    if l != [] {
      ChainFrame(mem, mem', Load(mem, head), l[1..]);
    }
  }

  lemma {:induction false} ChainAt(mem: Memory, head: nat, l: seq<nat>, i: nat)
    requires Chain(mem, head, l) && i < |l|
    ensures l[i] != 0 && Load(mem, l[i]) == if i + 1 < |l| then l[i + 1] else 0
    decreases |l|
  {
    if i > 0 {
      ChainAt(mem, Load(mem, head), l[1..], i - 1);
    } else {
      assert Chain(mem, Load(mem, head), l[1..]);
    }
  }

  /** Unlinking the i-th node by redirecting the link before it. */
  lemma {:induction false} ChainRemove(mem: Memory, head: nat, l: seq<nat>, i: nat)
    requires Chain(mem, head, l) && i < |l| && Distinct(l)
    ensures i == 0 ==> Chain(mem, Load(mem, l[0]), l[1..])
    ensures i > 0 ==> Chain(mem[l[i - 1] := Load(mem, l[i])], head, l[..i] + l[i + 1..])
    decreases |l|
  {
    if i == 1 {
      assert Chain(mem, l[1], l[1..]);
      var mem' := mem[l[0] := Load(mem, l[1])];
      assert l[1..][1..] == l[2..];
      ChainFrame(mem, mem', Load(mem, l[1]), l[2..]);
      assert (l[..1] + l[2..])[1..] == l[2..];
    } else if i > 1 {
      assert l[1..][i - 2] == l[i - 1] && l[1..][i - 1] == l[i];
      ChainRemove(mem, Load(mem, head), l[1..], i - 1);
      assert (l[..i] + l[i + 1..])[1..] == l[1..][..i - 1] + l[1..][i..];
      assert Load(mem[l[i - 1] := Load(mem, l[i])], head) == Load(mem, head);
    }
  }

  /** Memory changed only inside [from, to). */
  ghost predicate OnlyInside(mem: Memory, mem': Memory, from: int, to: int) {
    forall a: nat :: !(from <= a < to) ==> Load(mem', a) == Load(mem, a)
  }

  class KernelHeap {
    var allocStart: nat
    var current: nat
    var end: nat
    var freeBytes: int
    const buckets: array<nat>
    var overflow: nat
    var mem: Memory

    ghost var L: Layout
    ghost var asked: map<nat, nat>

    /** The concrete fields and memory are those of the layout. */
    ghost predicate Shape()
      reads this, buckets
    {
      && buckets.Length == 64 && Valid(L) && allocStart == L.start && current == L.top
      && Headers(mem, L.at) && Chains(mem, buckets[..], overflow, L.lists)
      && (forall u :: u in L.at ==> L.at[u].units <= 0xFFF_FFFE)
    }

    ghost function View(): State
      reads this
    {
      State(L, end, freeBytes, asked)
    }

    /** Put a live block on its free list. */
    method BucketPush(u: nat, n: nat)
      requires Shape() && Live(L, u) && L.at[u].units == n
      modifies this`L, this`mem, this`overflow, this`freeBytes, buckets
      ensures Shape() && L == Push(old(L), u) && freeBytes == old(freeBytes) + 16 * n
      ensures OnlyInside(old(mem), mem, u, u + 1)
    {
      hide Tiles, ListsHold, Chains, Headers;
      PushChains(mem, buckets[..], overflow, L, u);
      PushKeepsValid(L, u);
      ghost var heads := buckets[..];
      var userBytes := n * 16;
      if n > 0 && n <= 64 {
        mem := mem[u := buckets[n - 1]];
        buckets[n - 1] := u;
        assert buckets[..] == heads[n - 1 := u];
      } else {
        mem := mem[u := overflow];
        overflow := u;
      }
      freeBytes := freeBytes + userBytes;
      L := Push(L, u);
    }

    /** Take the first block of the exact list for n units; 0 if there is none. */
    method BucketPopFast(n: nat) returns (node: nat)
      requires Shape()
      modifies this`L, this`freeBytes, buckets
      ensures Shape()
      ensures if 0 < n <= 64 && old(L.lists)[n - 1] != []
              then node == old(L.lists)[n - 1][0] && node != 0 && node in old(L.at) && L == Take(old(L), n - 1, 0)
                   && freeBytes == old(freeBytes) - 16 * n
              else node == 0 && L == old(L) && freeBytes == old(freeBytes)
    {
      hide Tiles, ListsHold, Headers, Chains, Take;
      if n == 0 || n > 64 {
        return 0;
      }
      HeadOf(mem, buckets[..], overflow, L, n - 1);
      node := buckets[n - 1];
      if node == 0 {
        return 0;
      }
      TakeKeepsValid(L, n - 1, 0);
      TakeFrame(L, n - 1, 0);
      TakeFirst(mem, buckets[..], overflow, L, n - 1);
      ghost var heads := buckets[..];
      buckets[n - 1] := Load(mem, node);
      assert buckets[..] == heads[n - 1 := Load(mem, node)];
      freeBytes := freeBytes - n * 16;
      L := Take(L, n - 1, 0);
    }

    /** The first smallest block of the overflow list that fits n units: its position there, or none. */
    method FindBest(n: nat) returns (best: nat, bestPrev: nat, bestBlocks: nat, ghost b: nat)
      requires Shape()
      ensures |L.lists| == 65 && forall u :: u in L.lists[64] ==> u in L.at
      ensures best == 0 ==> BestFit(UnitsOf(L.lists[64], L.at), n).None?
      ensures best != 0 ==>
                && BestFit(UnitsOf(L.lists[64], L.at), n) == Some(b) && b < |L.lists[64]|
                && best == L.lists[64][b] && bestBlocks == L.at[best].units
                && bestPrev == if b == 0 then 0 else L.lists[64][b - 1]
    {
      hide Shape, Chain, BestSoFar, BestFit, UnitsOf, Limit;
      OverflowBlocks();
      ghost var l := L.lists[64];
      ghost var sizes := UnitsOf(l, L.at);
      best, bestPrev, bestBlocks, b := 0, 0, 0, 0;
      OverflowChain();
      var prev, cur := 0, overflow;
      ghost var i := 0;
      assert l[0..] == l && sizes[..0] == [];
      NothingSeen(n);
      while cur != 0
        invariant i <= |l| && Chain(mem, cur, l[i..]) && prev == if i == 0 then 0 else l[i - 1]
        invariant forall j :: 0 <= j < i ==> sizes[j] != n
        invariant BestSoFar(sizes[..i], n, best != 0, b)
        invariant best != 0 ==>
                    && b < i && best == l[b] && bestBlocks == sizes[b]
                    && bestPrev == if b == 0 then 0 else l[b - 1]
        decreases |l| - i
      {
        ChainStep(mem, cur, l[i..]);
        assert cur == l[i..][0] == l[i];
        OverflowBlock(i);
        var blocks := (Load(mem, cur - 16) - 16) / 16;
        if blocks == n {
          best, bestPrev, bestBlocks, b := cur, prev, blocks, i;
          ExactIsBest(sizes, n, i);
          return;
        }
        BestStep(sizes[..i], blocks, n, best != 0, b);
        if blocks > n {
          if best == 0 || blocks < bestBlocks {
            if blocks <= Limit(n) {
              best, bestPrev, bestBlocks, b := cur, prev, blocks, i;
            }
          }
        }
        assert sizes[..i + 1] == sizes[..i] + [sizes[i]];
        prev := cur;
        cur := Load(mem, cur);
        i := i + 1;
        assert l[i - 1..][1..] == l[i..];
      }
      ChainStep(mem, cur, l[i..]);
      assert sizes[..|l|] == sizes;
      BestAtEnd(sizes, n, best != 0, b);
    }

    lemma OverflowBlocks()
      requires Shape()
      ensures |L.lists| == 65 && forall u :: u in L.lists[64] ==> u in L.at
    {
      hide Tiles, Chains, Headers;
    }

    /** A block on the overflow list has its size in its header. */
    lemma OverflowBlock(i: nat)
      requires Shape() && |L.lists| == 65 && i < |L.lists[64]| && forall u :: u in L.lists[64] ==> u in L.at
      ensures var u := L.lists[64][i]; u in L.at && u >= 16 && Load(mem, u - 16) == 16 + 16 * L.at[u].units
      ensures |UnitsOf(L.lists[64], L.at)| == |L.lists[64]| &&
              UnitsOf(L.lists[64], L.at)[i] == L.at[L.lists[64][i]].units
    {
      hide Tiles, Chains;
      assert L.lists[64][i] in L.lists[64];
    }

    lemma OverflowChain()
      requires Shape()
      ensures |L.lists| == 65 && Chain(mem, overflow, L.lists[64])
    {
    }

    /** Unlink the best block from the overflow list. */
    method UnlinkBest(best: nat, bestPrev: nat, bestBlocks: nat, ghost b: nat)
      requires Shape() && |L.lists| == 65 && b < |L.lists[64]| && best == L.lists[64][b] && best in L.at
      requires bestPrev == (if b == 0 then 0 else L.lists[64][b - 1]) && bestBlocks == L.at[best].units
      modifies this`L, this`mem, this`overflow, this`freeBytes
      ensures Shape() && L == Take(old(L), 64, b) && Live(L, best) && freeBytes == old(freeBytes) - 16 * bestBlocks
    {
      hide Tiles, ListsHold, Chains, Headers;
      NodesAreNotNull(b);
      TakeKeepsValid(L, 64, b);
      if bestPrev == 0 {
        TakeFirst(mem, buckets[..], overflow, L, 64);
        overflow := Load(mem, best);
      } else {
        TakeInner(mem, buckets[..], overflow, L, 64, b);
        mem := mem[bestPrev := Load(mem, best)];
      }
      freeBytes := freeBytes - bestBlocks * 16;
      L := Take(L, 64, b);
    }

    lemma NodesAreNotNull(b: nat)
      requires Shape() && |L.lists| == 65 && b < |L.lists[64]|
      ensures b > 0 ==> L.lists[64][b - 1] != 0
    {
      if b > 0 {
        ChainAt(mem, overflow, L.lists[64], b - 1);
      }
    }

    /** Cut a live block of m units down to n and put the tail on its free list. */
    method SplitTail(u: nat, n: nat, m: nat)
      requires Shape() && |L.lists| == 65 && u in L.order && Live(L, u)
      requires L.at[u].units == m && 1 <= n && n + 2 <= m
      modifies this`L, this`mem, this`overflow, this`freeBytes, buckets
      ensures Shape()
      ensures L == Push(Split(old(L), IndexOf(old(L).order, u), n), u + 16 * n + 16)
      ensures freeBytes == old(freeBytes) + 16 * (m - n - 1)
    {
      hide Tiles, ListsHold, Chains, Headers;
      ghost var i := IndexOf(L.order, u);
      SplitKeepsValid(L, i, n);
      SplitMemory(mem, buckets[..], overflow, L, i, n);
      var tailBlocks := m - n - 1;
      var tailHdr := u + n * 16;
      mem := mem[tailHdr := 16 + tailBlocks * 16][tailHdr + 8 := 0];
      mem := mem[u - 16 := 16 + n * 16];
      L := Split(L, i, n);
      BucketPush(tailHdr + 16, tailBlocks);
    }

    /** Reuse the best block of the overflow list for n units; 0 if none fits. */
    method BucketPopOverflow(n: nat) returns (best: nat)
      requires Shape() && n >= 1
      modifies this`L, this`mem, this`overflow, this`freeBytes, buckets
      ensures Shape() && |old(L).lists| == 65 && forall u :: u in old(L).lists[64] ==> u in old(L).at
      ensures var fit := BestFit(UnitsOf(old(L).lists[64], old(L).at), n);
              if fit.None? then best == 0 && L == old(L) && freeBytes == old(freeBytes)
              else
                && best == old(L).lists[64][fit.value] && best != 0 && best in old(L).order
                && L == Recycle(old(L), fit.value, n)
                && var m := old(L).at[best].units;
                   freeBytes == old(freeBytes) - 16 * m + if m < n + 2 then 0 else 16 * (m - n - 1)
    {
      hide Tiles, ListsHold, Chains, Headers, BestFit, UnitsOf, Push, Split;
      var bestPrev, bestBlocks;
      ghost var b;
      best, bestPrev, bestBlocks, b := FindBest(n);
      if best == 0 {
        return;
      }
      ListUnits(L, 64, b);
      UnlinkBest(best, bestPrev, bestBlocks, b);
      if bestBlocks >= n + 2 {
        SplitTail(best, n, bestBlocks);
      }
    }

    /** Zero the first n units of a block's payload. */
    method ZeroUser(u: nat, n: nat)
      modifies this`mem
      ensures OnlyInside(old(mem), mem, u, u + 16 * n)
      ensures forall i :: 0 <= i < 2 * n ==> Load(mem, u + 8 * i) == 0
    {
      var words := n * 16 / 8;
      for i := 0 to words
        invariant OnlyInside(old(mem), mem, u, u + 16 * n)
        invariant forall j :: 0 <= j < i ==> Load(mem, u + 8 * j) == 0
      {
        mem := mem[u + 8 * i := 0];
      }
    }

    /** Take n units off the free lists and zero them; 0 if no free block will do. */
    method AllocRecycled(n: nat) returns (u: nat)
      requires Shape() && 1 <= n
      modifies this`L, this`mem, this`overflow, this`freeBytes, buckets
      ensures Shape() && |old(L).lists| == 65 && forall u :: u in old(L).lists[64] ==> u in old(L).at
      ensures var fit := BestFit(UnitsOf(old(L).lists[64], old(L).at), n);
              if n <= 64 && old(L).lists[n - 1] != [] then
                && u == old(L).lists[n - 1][0] && u != 0 && u in old(L).at
                && L == Take(old(L), n - 1, 0) && freeBytes == old(freeBytes) - 16 * n
              else if n > 64 && fit.Some? then
                && u == old(L).lists[64][fit.value] && u != 0 && u in old(L).at && u in old(L).order
                && L == Recycle(old(L), fit.value, n)
                && var m := old(L).at[u].units;
                   freeBytes == old(freeBytes) - 16 * m + if m < n + 2 then 0 else 16 * (m - n - 1)
              else u == 0 && L == old(L) && freeBytes == old(freeBytes)
      ensures u != 0 ==> forall i :: 0 <= i < 2 * n ==> Load(mem, u + 8 * i) == 0
    {
      hide Tiles, ListsHold, Chains, Headers, BestFit, UnitsOf, Recycle, Take;
      ListsInLayout();
      u := BucketPopFast(n);
      if u != 0 {
        TakenUnits(old(L), n - 1, 0);
        ZeroBlock(u, n);
        return;
      }
      if n > 64 {
        u := BucketPopOverflow(n);
        if u != 0 {
          RecycledUnits(old(L), n);
          ZeroBlock(u, n);
          return;
        }
      }
    }

    lemma ListsInLayout()
      requires Shape()
      ensures |L.lists| == 65 && forall u :: u in L.lists[64] ==> u in L.at && u in L.order
    {
    }

    /** Zero the first n units of a live block. */
    method ZeroBlock(u: nat, n: nat)
      requires Shape() && Live(L, u) && n <= L.at[u].units
      modifies this`mem
      ensures Shape()
      ensures forall i :: 0 <= i < 2 * n ==> Load(mem, u + 8 * i) == 0
    {
      ghost var before := mem;
      ZeroUser(u, n);
      PayloadWrite(before, mem, buckets[..], overflow, L, u);
    }

    /** Carve n units from the bump pointer; 0 if the heap is exhausted. */
    method AllocBump(n: nat) returns (u: nat)
      requires Shape() && 1 <= n <= 0xFFF_FFFE && TotalSize(n) == 16 + 16 * n
      requires end < 0x8000_0000_0000_0000 && current < 0x8000_0000_0000_0010
      modifies this`L, this`mem, this`current
      ensures Shape()
      ensures if old(L).top + TotalSize(n) <= end
              then u == old(L).top + 16 && L == Carve(old(L), n)
              else u == 0 && L == old(L)
    {
      hide Tiles, ListsHold, Chains, Headers, AlignUp, TotalSize;
      TopIsAligned(L);
      var blockStart := AlignUp(current, 16);
      var blockEnd := (blockStart + TotalSize(n)) % 0x1_0000_0000_0000_0000;
      if blockEnd > end || blockEnd < blockStart {
        return 0;
      }
      CarveKeepsValid(L, n);
      CarveMemory(mem, buckets[..], overflow, L, n);
      mem := mem[blockStart := TotalSize(n)][blockStart + 8 := 0];
      current := blockEnd;
      L := Carve(L, n);
      u := blockStart + 16;
    }

    // ---- Public operations ----

    /** Before the first allocation there is only the bump pointer. */
    ghost predicate Fresh()
      reads this, buckets
    {
      && buckets.Length == 64 && allocStart == 0 && overflow == 0 && current == L.top && Unpinned(View())
      && forall k :: 0 <= k < 64 ==> buckets[k] == 0
    }

    ghost predicate Invariant()
      reads this, buckets
    {
      Good(View()) && if allocStart == 0 then Fresh() else Shape()
    }

    /** kheap_init, with whatever memory holds at boot. */
    constructor (kernelEnd: nat, minStart: nat, heapSize: nat, boot: Memory)
      requires Max(kernelEnd, minStart) + 4096 + heapSize < 0x8000_0000_0000_0000
      ensures Invariant() && fresh(buckets) && mem == boot && asked == map[]
      ensures View() == Initial(current, end) && end == current + heapSize
      ensures current % 4096 == 0 && kernelEnd <= current && minStart <= current < Max(kernelEnd, minStart) + 4096
    {
      hide AlignUp;
      PageAligned(kernelEnd);
      PageAligned(minStart);
      var start := AlignUp(kernelEnd, 4096);
      if minStart > start {
        start := AlignUp(minStart, 4096);
      }
      buckets := new nat[64](i => 0);
      allocStart, current, end := 0, start, start + heapSize;
      freeBytes, overflow, mem := 0, 0, boot;
      L, asked := Initial(start, start + heapSize).L, map[];
    }

    /** kheap_reserve_until: moves the bump pointer up, but only before the first allocation. */
    method ReserveUntil(minStart: nat)
      requires Invariant() && current != 0 && minStart < 0x8000_0000_0000_0000
      modifies this`current, this`L
      ensures Invariant()
      ensures if allocStart == 0 && minStart > old(current)
              then View() == old(View()).(L := old(L).(top := Min(AlignUp(minStart, 16), end)))
              else View() == old(View())
    {
      if allocStart != 0 {
        return;
      }
      if minStart <= current {
        return;
      }
      var aligned := AlignUp(minStart, 16);
      if aligned > end {
        current := end;
      } else {
        current := aligned;
      }
      L := L.(top := current);
    }

    /** Fix the start of the blocks if this is the first allocation. */
    method PinStart()
      requires Invariant() && current > 0
      modifies this`allocStart, this`current, this`L
      ensures Shape() && View() == Pin(old(View())) && InUse(View()) && allocStart != 0
      ensures current < 0x8000_0000_0000_0010 && L.at == old(L.at)
    {
      PinInUse(View());
      if allocStart == 0 {
        allocStart := AlignUp(current, 16);
        current := allocStart;
        L := Pin(View()).L;
      }
    }

    /** kheap_alloc: what the machine does, and a recycled block comes zeroed for the units asked. */
    method Allocate(size: nat) returns (ptr: nat)
      requires Invariant() && size <= 0xFFFF_FFE0
      modifies this, buckets
      ensures old(Listed(L)) && Invariant() && (View(), ptr) == Alloc(old(View()), size) && end == old(end)
      ensures ptr != 0 && ptr in old(L.at) ==> forall i :: 0 <= i < 2 * Units(size) ==> Load(mem, ptr + 8 * i) == 0
    {
      hide Units, TotalSize, AlignUp, Tiles, ListsHold, Chains, Headers, InUse, AllocPinned;
      GoodListed(View());
      AllocKeepsGood(View(), size);
      if size == 0 || current == 0 {
        return 0;
      }
      UnitsCover(size);
      var n := Units(size);
      PinStart();
      ptr := AllocateUnits(n, size);
    }

    method AllocateUnits(n: nat, ghost size: nat) returns (ptr: nat)
      requires Shape() && InUse(View()) && 1 <= n <= 0xFFF_FFFE && TotalSize(n) == 16 + 16 * n
      requires end < 0x8000_0000_0000_0000 && current < 0x8000_0000_0000_0010
      modifies this`L, this`mem, this`overflow, this`freeBytes, this`current, this`asked, buckets
      ensures old(Listed(L)) && Shape() && (View(), ptr) == AllocPinned(old(View()), n, size)
      ensures ptr != 0 && ptr in old(L.at) ==> forall i :: 0 <= i < 2 * n ==> Load(mem, ptr + 8 * i) == 0
    {
      hide Tiles, ListsHold, Chains, Headers, BestFit, UnitsOf, Recycle, Take, Carve, Bump, TotalSize,
        Listed, Counted;
      InUseListed(View());
      FreshTop(L);
      BumpIsCarve(L, n);
      ptr := AllocRecycled(n);
      if ptr == 0 {
        ptr := AllocBump(n);
      }
      if ptr != 0 {
        asked := asked[ptr := size];
      }
    }

    /** kheap_free of NULL or of a pointer the caller holds. */
    method Release(ptr: nat)
      requires Invariant() && (ptr == 0 || ptr in asked)
      modifies this`L, this`mem, this`overflow, this`freeBytes, this`current, this`asked, buckets
      ensures Invariant() && View() == Free(old(View()), ptr) && end == old(end)
    {
      FreeKeepsGood(View(), ptr);
      if ptr == 0 || allocStart == 0 {
        return;
      }
      ReleaseLive(ptr);
    }

    method ReleaseLive(ptr: nat)
      requires Shape() && InUse(View()) && ptr in asked && Good(View())
      modifies this`L, this`mem, this`overflow, this`freeBytes, this`current, this`asked, buckets
      ensures Shape() && View() == Free(old(View()), ptr) && end == old(end)
    {
      hide Tiles, ListsHold, Chains;
      LiveBlock(L, ptr);
      var hdr := ptr - 16;
      if hdr < allocStart || hdr >= current {
        return;
      }
      var blockSize := Load(mem, hdr);
      var n := (blockSize - 16) / 16;
      if hdr + blockSize >= current {
        DropKeepsValid(L);
        current := hdr;
        L := Drop(L);
      } else {
        BucketPush(ptr, n);
      }
      asked := asked - {ptr};
    }

    /** kheap_get_free_bytes. */
    method GetFreeBytes() returns (r: int)
      requires Invariant()
      ensures r == ReportedFree(View())
    {
      if end <= current {
        return freeBytes;
      }
      r := freeBytes + (end - current);
    }

    /** A caller writes a word of a payload it holds: the allocator does not notice. */
    method CallerWrites(ptr: nat, i: nat, value: nat)
      requires Invariant() && ptr in asked && 8 * i + 8 <= asked[ptr]
      modifies this`mem
      ensures Invariant() && View() == old(View()) && Load(mem, ptr + 8 * i) == value
    {
      ghost var before := mem;
      mem := mem[ptr + 8 * i := value];
      PayloadWrite(before, mem, buckets[..], overflow, L, ptr);
    }
  }

  lemma PageAligned(v: nat)
    requires v + 4096 < 0x8000_0000_0000_0000
    ensures v <= AlignUp(v, 4096) < v + 4096 && AlignUp(v, 4096) % 4096 == 0
  {
    var w := v + 4095;
    assert w % 0x1_0000_0000_0000_0000 == w;
    var k := w / 4096;
    assert AlignUp(v, 4096) == 4096 * k;
  }

  /** Where a live block lies, and that only the last one reaches the top. */
  lemma LiveBlock(L: Layout, u: nat)
    requires Valid(L) && Live(L, u)
    ensures L.start + 16 <= u && u + L.at[u].size() <= L.top && L.order != []
    ensures u + L.at[u].size() == L.top <==> L.order[|L.order| - 1] == u
  {
    ContiguousBounds(L.order, L.at, L.start);
    LastBlock(L);
    var v := L.order[|L.order| - 1];
    if u != v {
      ContiguousApart(L.order, L.at, L.start, u, v);
    }
  }

  /** The block that would be carved next is not one of the blocks. */
  lemma FreshTop(L: Layout)
    requires Valid(L)
    ensures L.top + 16 !in L.at && 0 !in L.at
  {
    ContiguousBounds(L.order, L.at, L.start);
  }

  lemma TopIsAligned(L: Layout)
    requires Valid(L) && L.top < 0x8000_0000_0000_0010
    ensures AlignUp(L.top, 16) == L.top
  {
    EndIsAligned(L.order, L.at, L.start);
    AlignUpIs(L.top);
  }

  lemma {:induction false} EndIsAligned(order: seq<nat>, at: Blocks, from: nat)
    requires Contiguous(order, at, from) && from % 16 == 0
    ensures EndOf(order, at, from) % 16 == 0
  {
    if order != [] {
      var next := order[0] + at[order[0]].size();
      assert next == 16 * (from / 16 + 1 + at[order[0]].units);
      EndIsAligned(order[1..], at, next);
    }
  }

  /** A block just taken is live and has the units of its list. */
  /** A bucket head is the first block of its list, and NULL exactly if the list is empty. */
  lemma HeadOf(mem: Memory, heads: seq<nat>, overflow: nat, L: Layout, k: nat)
    requires Valid(L) && Chains(mem, heads, overflow, L.lists) && k < 64
    ensures |L.lists| == 65 && |heads| == 64 && (heads[k] == 0 <==> L.lists[k] == [])
    ensures L.lists[k] != [] ==> heads[k] == L.lists[k][0] && L.lists[k][0] in L.at
  {
    hide Tiles, Distinct;
    assert Chain(mem, heads[k], L.lists[k]);
    if L.lists[k] != [] {
      assert L.lists[k][0] in L.lists[k];
    }
  }

  /** Taking a block changes neither the bounds of the heap nor the size of a block. */
  lemma TakeFrame(L: Layout, k: nat, i: nat)
    requires k < |L.lists| && i < |L.lists[k]| && L.lists[k][i] in L.at
    ensures Take(L, k, i).start == L.start && Take(L, k, i).top == L.top && Take(L, k, i).at.Keys == L.at.Keys
    ensures forall u :: u in L.at ==> Take(L, k, i).at[u].units == L.at[u].units
  {
  }

  lemma TakenUnits(L: Layout, k: nat, i: nat)
    requires Valid(L) && k < 64 && i < |L.lists[k]|
    ensures L.lists[k][i] in L.at && Live(Take(L, k, i), L.lists[k][i])
    ensures Take(L, k, i).at[L.lists[k][i]].units == k + 1
  {
    ListUnits(L, k, i);
  }

  lemma RecycledUnits(L: Layout, n: nat)
    requires Valid(L) && n >= 1 && |L.lists| == 65 && forall u :: u in L.lists[64] ==> u in L.at && u in L.order
    requires BestFit(UnitsOf(L.lists[64], L.at), n).Some?
    ensures var i := BestFit(UnitsOf(L.lists[64], L.at), n).value;
            var u := L.lists[64][i];
            Live(Recycle(L, i, n), u) && n <= Recycle(L, i, n).at[u].units
  {
  }

  /** Writes to the payload of a live block touch neither headers nor lists. */
  lemma PayloadWrite(mem: Memory, mem': Memory, heads: seq<nat>, overflow: nat, L: Layout, u: nat)
    requires Valid(L) && Live(L, u) && Headers(mem, L.at) && Chains(mem, heads, overflow, L.lists)
    requires OnlyInside(mem, mem', u, u + L.at[u].size())
    ensures Headers(mem', L.at) && Chains(mem', heads, overflow, L.lists)
  {
    hide Tiles, Distinct, Chain;
    forall v | v in L.at && v != u
      ensures Load(mem', v - 16) == Load(mem, v - 16) && Load(mem', v) == Load(mem, v)
    {
      OutsideBlock(L, u, v);
    }
    forall j | 0 <= j < 65
      ensures Chain(mem', if j < 64 then heads[j] else overflow, L.lists[j])
    {
      ChainFrame(mem, mem', if j < 64 then heads[j] else overflow, L.lists[j]);
    }
  }

  lemma OutsideBlock(L: Layout, u: nat, v: nat)
    requires Valid(L) && u in L.at && v in L.at && u != v
    ensures !(u <= v - 16 < u + L.at[u].size()) && !(u <= v < u + L.at[u].size())
  {
    ContiguousApart(L.order, L.at, L.start, u, v);
  }

  /** Writing the header of a block carved at the top. */
  lemma CarveMemory(mem: Memory, heads: seq<nat>, overflow: nat, L: Layout, n: nat)
    requires Valid(L) && Headers(mem, L.at) && Chains(mem, heads, overflow, L.lists)
    ensures var mem' := mem[L.top := 16 + 16 * n][L.top + 8 := 0];
            Headers(mem', Carve(L, n).at) && Chains(mem', heads, overflow, L.lists)
  {
    hide Contiguous, EndOf, Distinct;
    ContiguousBounds(L.order, L.at, L.start);
    var mem' := mem[L.top := 16 + 16 * n][L.top + 8 := 0];
    forall v | v in L.at
      ensures v < L.top && Load(mem', v) == Load(mem, v)
    {
      assert v in L.order;
    }
    forall j | 0 <= j < 65
      ensures Chain(mem', if j < 64 then heads[j] else overflow, L.lists[j])
    {
      ChainFrame(mem, mem', if j < 64 then heads[j] else overflow, L.lists[j]);
    }
  }

  /** Addresses inside one block are neither headers nor links of another. */
  lemma Elsewhere(L: Layout, u: nat, v: nat, a: int)
    requires Valid(L) && u in L.at && v in L.at && u != v && u - 16 <= a < u + L.at[u].size()
    ensures v - 16 != a && v != a
  {
    ContiguousApart(L.order, L.at, L.start, u, v);
  }

  /** The header writes of a split: both parts get theirs, everything else stays. */
  lemma SplitMemory(mem: Memory, heads: seq<nat>, overflow: nat, L: Layout, i: nat, n: nat)
    requires Valid(L) && i < |L.order| && Live(L, L.order[i]) && 1 <= n && n + 2 <= L.at[L.order[i]].units
    requires Headers(mem, L.at) && Chains(mem, heads, overflow, L.lists)
    ensures L.order[i] >= 16
    ensures var u, m := L.order[i], L.at[L.order[i]].units;
            var mem' := mem[u + 16 * n := 16 + 16 * (m - n - 1)][u + 16 * n + 8 := 0][u - 16 := 16 + 16 * n];
            Headers(mem', Split(L, i, n).at) && Chains(mem', heads, overflow, L.lists)
  {
    hide Tiles, Distinct, Chain;
    var u, m := L.order[i], L.at[L.order[i]].units;
    var mem' := mem[u + 16 * n := 16 + 16 * (m - n - 1)][u + 16 * n + 8 := 0][u - 16 := 16 + 16 * n];
    forall v | v in L.at && v != u
      ensures Load(mem', v - 16) == Load(mem, v - 16) && Load(mem', v) == Load(mem, v)
    {
      Elsewhere(L, u, v, u - 16);
      Elsewhere(L, u, v, u + 16 * n);
      Elsewhere(L, u, v, u + 16 * n + 8);
    }
    forall j | 0 <= j < 65
      ensures Chain(mem', if j < 64 then heads[j] else overflow, L.lists[j])
    {
      ChainFrame(mem, mem', if j < 64 then heads[j] else overflow, L.lists[j]);
    }
  }

  /** The best of the sizes seen so far, if any fits. */
  ghost predicate BestSoFar(sizes: seq<nat>, n: nat, found: bool, b: nat) {
    if found then IsBest(sizes, n, b) else forall j :: 0 <= j < |sizes| ==> !Fits(n, sizes[j])
  }

  lemma NothingSeen(n: nat)
    ensures BestSoFar([], n, false, 0)
  {
  }

  lemma BestStep(sizes: seq<nat>, m: nat, n: nat, found: bool, b: nat)
    requires BestSoFar(sizes, n, found, b) && (found ==> b < |sizes|) && m != n
    ensures var better := m > n && (!found || m < sizes[b]) && m <= Limit(n);
            BestSoFar(sizes + [m], n, found || better, if better then |sizes| else b)
  {
  }

  lemma BestAtEnd(sizes: seq<nat>, n: nat, found: bool, b: nat)
    requires BestSoFar(sizes, n, found, b)
    ensures BestFit(sizes, n) == if found then Some(b) else None
  {
    if found {
      BestIsUnique(sizes, n, b);
    } else {
      NothingFits(sizes, n);
    }
  }

  /** An exact match with no earlier one is the best fit. */
  lemma ExactIsBest(sizes: seq<nat>, n: nat, i: nat)
    requires i < |sizes| && sizes[i] == n && forall j :: 0 <= j < i ==> sizes[j] != n
    ensures BestFit(sizes, n) == Some(i)
  {
    assert IsBest(sizes, n, i);
    BestIsUnique(sizes, n, i);
  }

  /** Taking the first block off list k, by moving the head. */
  lemma TakeFirst(mem: Memory, heads: seq<nat>, overflow: nat, L: Layout, k: nat)
    requires Valid(L) && Chains(mem, heads, overflow, L.lists) && Headers(mem, L.at) && k < 65 && L.lists[k] != []
    ensures var l := L.lists[k];
            && l[0] in L.at && |heads| == 64 && Headers(mem, Take(L, k, 0).at)
            && Chains(mem, if k < 64 then heads[k := Load(mem, l[0])] else heads,
                      if k < 64 then overflow else Load(mem, l[0]), Take(L, k, 0).lists)
  {
    hide Tiles, Distinct;
    var l := L.lists[k];
    assert l[0] in l;
    assert Chain(mem, if k < 64 then heads[k] else overflow, l);
    assert l[..0] + l[1..] == l[1..];
  }

  /** Taking a later block off list k, by redirecting the link before it. */
  lemma TakeInner(mem: Memory, heads: seq<nat>, overflow: nat, L: Layout, k: nat, i: nat)
    requires Valid(L) && Chains(mem, heads, overflow, L.lists) && Headers(mem, L.at) && k < 65 && 0 < i < |L.lists[k]|
    ensures var l := L.lists[k];
            var mem' := mem[l[i - 1] := Load(mem, l[i])];
            l[i] in L.at && Headers(mem', Take(L, k, i).at) && Chains(mem', heads, overflow, Take(L, k, i).lists)
  {
    hide Tiles, Distinct;
    var l := L.lists[k];
    var p := l[i - 1];
    assert l[i] in l && p in l && L.at[p].owner == k;
    var mem' := mem[p := Load(mem, l[i])];
    ChainRemove(mem, if k < 64 then heads[k] else overflow, l, i);
    forall v | v in L.at
      ensures Load(mem', v - 16) == Load(mem, v - 16)
    {
      HeaderIsNotLink(L, v, p);
    }
    forall j | 0 <= j < 65 && j != k
      ensures Chain(mem', if j < 64 then heads[j] else overflow, L.lists[j])
    {
      ChainFrame(mem, mem', if j < 64 then heads[j] else overflow, L.lists[j]);
    }
  }

  /** Pushing a live block in front of its list. */
  lemma PushChains(mem: Memory, heads: seq<nat>, overflow: nat, L: Layout, u: nat)
    requires Valid(L) && Live(L, u) && Chains(mem, heads, overflow, L.lists) && Headers(mem, L.at)
    ensures |L.lists| == 65 && |heads| == 64
    ensures var k := ListFor(L.at[u].units);
            var mem' := mem[u := if k < 64 then heads[k] else overflow];
            && |heads| == 64 && |L.lists| == 65 && Headers(mem', Push(L, u).at)
            && Chains(mem', if k < 64 then heads[k := u] else heads, if k < 64 then overflow else u, Push(L, u).lists)
  {
    hide Tiles, Distinct;
    var k := ListFor(L.at[u].units);
    var head := if k < 64 then heads[k] else overflow;
    var mem' := mem[u := head];
    forall v | v in L.at
      ensures Load(mem', v - 16) == Load(mem, v - 16)
    {
      HeaderIsNotLink(L, v, u);
    }
    forall j | 0 <= j < 65
      ensures u !in L.lists[j] && Chain(mem', if j < 64 then heads[j] else overflow, L.lists[j])
    {
      ChainFrame(mem, mem', if j < 64 then heads[j] else overflow, L.lists[j]);
    }
    assert ([u] + L.lists[k])[1..] == L.lists[k];
    assert Chain(mem', u, [u] + L.lists[k]);
  }

  /** No header lies at a user pointer. */
  lemma HeaderIsNotLink(L: Layout, v: nat, u: nat)
    requires Valid(L) && v in L.at && u in L.at
    ensures v - 16 != u
  {
    if u != v {
      ContiguousApart(L.order, L.at, L.start, u, v);
    }
  }
}
