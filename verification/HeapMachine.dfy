/**
  The kernel heap as a state machine over layouts: what kheap_alloc and kheap_free do, the
  invariant every run keeps, and what it means for the callers.
*/
module HeapMachine {
  import opened Numbers
  import opened Sequences
  import opened HeapLayout

  // ---- Sizes ----

  /** heap_align_up on 64-bit addresses. */
  function AlignUp(v: nat, a: nat): nat
    requires a > 0
  {
    var w := (v + a - 1) % 0x1_0000_0000_0000_0000;
    w - w % a
  }

  /** blocks_for_size: 16-byte units for a payload, truncated to 32 bits. */
  function Units(size: nat): nat {
    Max(AlignUp(size, 16), 16) / 16 % 0x1_0000_0000
  }

  /** The total size kheap_alloc computes, in 32 bits. */
  function TotalSize(n: nat): nat {
    (16 + n * 16) % 0x1_0000_0000
  }

  /** Requests within the 32-bit total: the units cover the request and the total is exact. */
  lemma UnitsCover(size: nat)
    requires 1 <= size <= 0xFFFF_FFE0
    ensures 1 <= Units(size) <= 0xFFF_FFFE && size <= 16 * Units(size) < size + 16
    ensures TotalSize(Units(size)) == 16 + 16 * Units(size)
  {
    var w := size + 15;
    var n := w / 16;
    assert AlignUp(size, 16) == 16 * n by { assert w % 0x1_0000_0000_0000_0000 == w; }
    assert 1 <= n <= 0xFFF_FFFE;
    assert Units(size) == n;
  }

  /** A multiple of 16 stays one when cut to 32 bits. */
  lemma SixteensCut(x: nat)
    ensures 16 * x % 0x1_0000_0000 <= 0xFFFF_FFF0
  {
    var q, r := 16 * x / 0x1_0000_0000, 16 * x % 0x1_0000_0000;
    assert r == 16 * (x - q * 0x1000_0000);
  }

  /** The 32-bit total covers the request exactly up to 2^32 - 32 bytes; beyond that the block carved
      would be smaller than what was asked for. */
  lemma TotalSizeCovers(size: nat)
    requires 1 <= size
    ensures TotalSize(Units(size)) >= 16 + size <==> size <= 0xFFFF_FFE0
  {
    hide Units;
    if size <= 0xFFFF_FFE0 {
      UnitsCover(size);
    } else {
      SixteensCut(1 + Units(size));
      assert 16 + Units(size) * 16 == 16 * (1 + Units(size));
    }
  }

  // ---- Best fit ----

  /** Largest size accepted for a request of n units: 25 percent more, in 32-bit arithmetic. */
  function Limit(n: nat): nat {
    n * 20 % 0x1_0000_0000 / 16
  }

  predicate Fits(n: nat, m: nat) {
    m == n || n < m <= Limit(n)
  }

  /** Index i is the first of the smallest sizes that fit. */
  ghost predicate IsBest(sizes: seq<nat>, n: nat, i: nat) {
    && i < |sizes| && Fits(n, sizes[i])
    && (forall j :: 0 <= j < |sizes| && Fits(n, sizes[j]) ==> sizes[i] <= sizes[j])
    && (forall j :: 0 <= j < i && Fits(n, sizes[j]) ==> sizes[i] < sizes[j])
  }

  ghost function BestFit(sizes: seq<nat>, n: nat): (r: Option<nat>)
    ensures r.Some? ==> IsBest(sizes, n, r.value)
    ensures r.None? ==> forall i: nat :: !IsBest(sizes, n, i)
  {
    if i: nat :| IsBest(sizes, n, i) then Some(i) else None
  }

  lemma BestIsUnique(sizes: seq<nat>, n: nat, i: nat)
    requires IsBest(sizes, n, i)
    ensures BestFit(sizes, n) == Some(i)
  {
    var j := BestFit(sizes, n).value;
    assert IsBest(sizes, n, j);
  }

  /** Within 32-bit arithmetic the limit is floor(20 n / 16). */
  lemma LimitIs(n: nat)
    requires 20 * n < 0x1_0000_0000
    ensures Fits(n, n) && forall m: nat :: Fits(n, m) <==> n <= m <= 20 * n / 16
  {
  }

  /** Some block fits if and only if there is a best one. */
  lemma {:induction false} BestExists(sizes: seq<nat>, n: nat, k: nat) returns (i: nat)
    requires k < |sizes| && Fits(n, sizes[k])
    ensures IsBest(sizes, n, i)
    decreases sizes[k], k
  {
    if j: nat :| j < |sizes| && Fits(n, sizes[j]) && (sizes[j] < sizes[k] || (sizes[j] == sizes[k] && j < k)) {
      i := BestExists(sizes, n, j);
    } else {
      i := k;
    }
  }

  /** The search gives nothing exactly when no block fits. */
  lemma NothingFits(sizes: seq<nat>, n: nat)
    ensures BestFit(sizes, n).None? <==> forall k :: 0 <= k < |sizes| ==> !Fits(n, sizes[k])
  {
    if k :| 0 <= k < |sizes| && Fits(n, sizes[k]) {
      var i := BestExists(sizes, n, k);
    }
  }

  // ---- The machine ----

  /** asked holds the live user pointers with the size each was requested for.  Until the first
      allocation start is 0 and top is the bump pointer alone. */
  datatype State = State(L: Layout, end: nat, bytes: int, asked: map<nat, nat>)

  ghost predicate Unpinned(s: State) {
    && s.L.start == 0 && s.L.order == [] && s.L.at == map[] && s.bytes == 0 && s.asked == map[]
    && |s.L.lists| == 65 && (forall k :: 0 <= k < 65 ==> s.L.lists[k] == [])
    && s.L.top < 0x8000_0000_0000_0000
  }

  ghost predicate InUse(s: State) {
    && Valid(s.L) && Counted(s.L, s.bytes)
    && (s.L.order != [] ==> s.L.top <= s.end)
    && (forall u :: u in s.asked <==> Live(s.L, u))
    && (forall u :: u in s.asked ==> s.asked[u] <= s.L.at[u].size())
    && (forall u :: u in s.L.at ==> s.L.at[u].units <= 0xFFF_FFFE)
  }

  ghost predicate Good(s: State) {
    s.end < 0x8000_0000_0000_0000 && s.L.top < 0x8000_0000_0000_0010 && (Unpinned(s) || InUse(s))
  }

  /** The first allocation fixes where the blocks start. */
  function Pin(s: State): State {
    if s.L.start != 0 then s
    else s.(L := s.L.(start := AlignUp(s.L.top, 16), top := AlignUp(s.L.top, 16)))
  }

  ghost function UnitsOf(l: seq<nat>, at: Blocks): (r: seq<nat>)
    requires forall u :: u in l ==> u in at
    ensures |r| == |l| && forall i :: 0 <= i < |l| ==> r[i] == at[l[i]].units
  {
    seq(|l|, (i: nat) requires i < |l| && l[i] in at => at[l[i]].units)
  }

  ghost function IndexOf(order: seq<nat>, u: nat): (i: nat)
    requires u in order
    ensures i < |order| && order[i] == u
  {
    var i: nat :| i < |order| && order[i] == u;
    i
  }

  /** Reuse the i-th block of the overflow list for n units, returning the tail if it can stand
      alone. */
  ghost function Recycle(L: Layout, i: nat, n: nat): Layout
    requires |L.lists| == 65 && i < |L.lists[64]| && L.lists[64][i] in L.at && L.lists[64][i] in L.order
  {
    var u := L.lists[64][i];
    var M := Take(L, 64, i);
    if L.at[u].units < n + 2 then M
    else Push(Split(M, IndexOf(L.order, u), n), u + 16 * n + 16)
  }

  /** The free lists hold blocks of the heap. */
  ghost predicate Listed(L: Layout) {
    |L.lists| == 65 && forall k, u :: 0 <= k < 65 && u in L.lists[k] ==> u in L.at && u in L.order
  }

  /** Carve from the bump pointer by the 32-bit total, which is all the header of the block says. */
  function Bump(L: Layout, n: nat): Layout {
    var u := L.top + 16;
    L.(top := L.top + TotalSize(n), order := L.order + [u], at := L.at[u := Block(UnitsIn(TotalSize(n)), -1)])
  }

  /** The units kheap_free reads from a header, in 32 bits. */
  function UnitsIn(total: nat): nat {
    (total + 0xFFFF_FFF0) % 0x1_0000_0000 / 16
  }

  lemma BumpIsCarve(L: Layout, n: nat)
    requires n <= 0xFFF_FFFE
    ensures Bump(L, n) == Carve(L, n)
  {
    assert TotalSize(n) == 16 + 16 * n;
    assert (16 + 16 * n + 0xFFFF_FFF0) % 0x1_0000_0000 == 16 * n;
  }

  /** Allocation once the start is fixed: exact list, best overflow block, bump pointer, or NULL. */
  ghost function AllocPinned(p: State, n: nat, size: nat): (State, nat)
    requires Listed(p.L)
  {
    var L := p.L;
    if 0 < n <= 64 && L.lists[n - 1] != [] then
      var u := L.lists[n - 1][0];
      (p.(L := Take(L, n - 1, 0), bytes := p.bytes - 16 * n, asked := p.asked[u := size]), u)
    else if n > 64 && BestFit(UnitsOf(L.lists[64], L.at), n).Some? then
      var i := BestFit(UnitsOf(L.lists[64], L.at), n).value;
      (Recycled(p, i, n, size), L.lists[64][i])
    else if L.top + TotalSize(n) <= p.end then
      (p.(L := Bump(L, n), asked := p.asked[L.top + 16 := size]), L.top + 16)
    else (p, 0)
  }

  ghost function Recycled(p: State, i: nat, n: nat, size: nat): State
    requires |p.L.lists| == 65 && i < |p.L.lists[64]| && p.L.lists[64][i] in p.L.at && p.L.lists[64][i] in p.L.order
  {
    var u := p.L.lists[64][i];
    var m := p.L.at[u].units;
    p.(L := Recycle(p.L, i, n), bytes := p.bytes - 16 * m + (if m < n + 2 then 0 else 16 * (m - n - 1)),
       asked := p.asked[u := size])
  }

  ghost function Alloc(s: State, size: nat): (State, nat)
    requires Listed(s.L)
  {
    if size == 0 || s.L.top == 0 then (s, 0) else AllocPinned(Pin(s), Units(size), size)
  }

  lemma InUseListed(s: State)
    requires InUse(s)
    ensures Listed(s.L)
  {
  }

  lemma GoodListed(s: State)
    requires Good(s)
    ensures Listed(s.L)
  {
  }

  ghost function Free(s: State, u: nat): State
    requires Good(s) && (u == 0 || u in s.asked)
  {
    if u == 0 then s
    else if s.L.order[|s.L.order| - 1] == u then LastBlock(s.L); s.(L := Drop(s.L), asked := s.asked - {u})
    else s.(L := Push(s.L, u), bytes := s.bytes + s.L.at[u].size(), asked := s.asked - {u})
  }

  // ---- Every step keeps the invariant ----

  lemma PinInUse(s: State)
    requires Good(s) && s.L.top > 0
    ensures InUse(Pin(s)) && Good(Pin(s)) && Pin(s).end == s.end && Pin(s).asked == s.asked
  {
    if s.L.start == 0 {
      var p := Pin(s);
      AlignUpIs(s.L.top);
      EmptyListsSum(p.L.lists, p.L.at, 65);
    }
  }

  lemma AlignUpIs(v: nat)
    requires v < 0x8000_0000_0000_0010
    ensures v <= AlignUp(v, 16) < v + 16 && AlignUp(v, 16) % 16 == 0
  {
    var w := v + 15;
    assert w % 0x1_0000_0000_0000_0000 == w;
  }

  lemma {:induction false} EmptyListsSum(lists: seq<seq<nat>>, at: Blocks, k: nat)
    requires k <= |lists| && forall i :: 0 <= i < |lists| ==> lists[i] == []
    ensures ListsSum(lists, at, k) == 0
  {
    if k > 0 {
      EmptyListsSum(lists, at, k - 1);
    }
  }

  /** A block of list k < 64 has exactly k + 1 units; blocks of the overflow list have more than 64. */
  lemma ListUnits(L: Layout, k: nat, i: nat)
    requires Valid(L) && k < 65 && i < |L.lists[k]|
    ensures L.lists[k][i] in L.at && L.lists[k][i] in L.order && L.at[L.lists[k][i]].owner == k
    ensures if k < 64 then L.at[L.lists[k][i]].units == k + 1 else L.at[L.lists[k][i]].units > 64
  {
    var u := L.lists[k][i];
    assert u in L.lists[k];
  }

  /** A block that is on a list is not one the callers hold, and its pointer is not NULL. */
  lemma FreeBlockPointer(s: State, u: nat)
    requires InUse(s) && u in s.L.at && s.L.at[u].owner >= 0
    ensures u !in s.asked && u > 0
  {
    ContiguousBounds(s.L.order, s.L.at, s.L.start);
  }

  lemma TakeFast(s: State, n: nat, size: nat)
    requires InUse(s) && 0 < n <= 64 && s.L.lists[n - 1] != [] && size <= 16 * n
    ensures var u := s.L.lists[n - 1][0];
            && u in s.L.at && u !in s.asked && u > 0
            && InUse(s.(L := Take(s.L, n - 1, 0), bytes := s.bytes - 16 * n, asked := s.asked[u := size]))
  {
    hide Tiles, Distinct, FreeSum, ListsSum;
    ListUnits(s.L, n - 1, 0);
    FreeBlockPointer(s, s.L.lists[n - 1][0]);
    TakeCounts(s.L, n - 1, 0, s.bytes);
  }

  lemma RecycleWhole(s: State, i: nat, n: nat, size: nat)
    requires InUse(s) && i < |s.L.lists[64]| && s.L.lists[64][i] in s.L.at && s.L.lists[64][i] in s.L.order
    requires 1 <= n <= s.L.at[s.L.lists[64][i]].units < n + 2 && size <= 16 * n
    ensures InUse(Recycled(s, i, n, size))
  {
    hide Contiguous, EndOf, FreeSum, ListsSum, Distinct;
    TakeCounts(s.L, 64, i, s.bytes);
  }

  lemma RecycleSplit(s: State, i: nat, n: nat, size: nat)
    requires InUse(s) && i < |s.L.lists[64]| && s.L.lists[64][i] in s.L.at && s.L.lists[64][i] in s.L.order
    requires 1 <= n && n + 2 <= s.L.at[s.L.lists[64][i]].units && size <= 16 * n && |s.L.lists| == 65
    ensures InUse(Recycled(s, i, n, size))
  {
    hide Tiles, ListsHold, FreeSum, ListsSum;
    var u := s.L.lists[64][i];
    var m := s.L.at[u].units;
    TakeCounts(s.L, 64, i, s.bytes);
    TakeKeepsValid(s.L, 64, i);
    var M, j := Take(s.L, 64, i), IndexOf(s.L.order, u);
    SplitKeepsValid(M, j, n);
    SplitCounts(M, j, n, s.bytes - 16 * m);
    PushCounts(Split(M, j, n), u + 16 * n + 16, s.bytes - 16 * m);
  }

  /** Asking the overflow list for n units: nothing exactly when no block has between n and
      floor(20 n / 16) units; otherwise a smallest such block.  The other blocks keep their order,
      at most preceded by the tail cut off, and block, tail and its header make up the old block. */
  lemma OverflowPop(L: Layout, n: nat)
    requires Valid(L) && |L.lists| == 65 && forall u :: u in L.lists[64] ==> u in L.at && u in L.order
    requires n > 64 && 20 * n < 0x1_0000_0000
    ensures var l := L.lists[64];
            var sizes := UnitsOf(l, L.at);
            match BestFit(sizes, n)
            case None => forall k :: 0 <= k < |l| ==> !(n <= sizes[k] <= 20 * n / 16)
            case Some(i) =>
              && i < |l| && n <= sizes[i] <= 20 * n / 16
              && (forall k :: 0 <= k < |l| && n <= sizes[k] <= 20 * n / 16 ==> sizes[i] <= sizes[k])
              && var M, u, t := Recycle(L, i, n), l[i], l[i] + 16 * n + 16;
              var others := l[..i] + l[i + 1..];
              && |M.lists| == 65 && u in M.at && (M.lists[64] == others || M.lists[64] == [t] + others)
              && if sizes[i] < n + 2 then M.at[u].size() == L.at[u].size()
                 else M.at[u].units == n && t in M.at && M.at[u].size() + 16 + M.at[t].size() == L.at[u].size()
  {
    hide BestFit, UnitsOf, Limit, Fits, Tiles, ListsHold;
    var l := L.lists[64];
    var sizes := UnitsOf(l, L.at);
    LimitIs(n);
    NothingFits(sizes, n);
    assert forall k :: 0 <= k < |l| ==> l[k] in l;
    if BestFit(sizes, n).Some? {
      var i := BestFit(sizes, n).value;
      BestIs(sizes, n, i);
    }
  }

  lemma BestIs(sizes: seq<nat>, n: nat, i: nat)
    requires BestFit(sizes, n) == Some(i)
    ensures i < |sizes| && Fits(n, sizes[i]) &&
            forall j :: 0 <= j < |sizes| && Fits(n, sizes[j]) ==> sizes[i] <= sizes[j]
  {
  }

  lemma CarveKeepsUse(s: State, n: nat, size: nat)
    requires InUse(s) && 1 <= n <= 0xFFF_FFFE && size <= 16 * n && s.L.top + 16 + 16 * n <= s.end
    ensures InUse(s.(L := Carve(s.L, n), asked := s.asked[s.L.top + 16 := size])) && s.L.top + 16 !in s.asked
  {
    hide Contiguous, EndOf, FreeSum, ListsSum, Distinct;
    CarveKeepsValid(s.L, n);
    CarveCounts(s.L, n, s.bytes);
  }

  lemma RecycleBest(p: State, n: nat, size: nat, i: nat)
    requires InUse(p) && 64 < n && size <= 16 * n && |p.L.lists| == 65 && i < |p.L.lists[64]|
    requires p.L.lists[64][i] in p.L.at && n <= p.L.at[p.L.lists[64][i]].units
    ensures var u := p.L.lists[64][i];
            && u in p.L.order && u !in p.asked && u > 0 && InUse(Recycled(p, i, n, size)) &&
               Recycled(p, i, n, size).L.top == p.L.top
  {
    hide Tiles, Distinct, Counted;
    ListUnits(p.L, 64, i);
    FreeBlockPointer(p, p.L.lists[64][i]);
    if p.L.at[p.L.lists[64][i]].units < n + 2 {
      RecycleWhole(p, i, n, size);
    } else {
      RecycleSplit(p, i, n, size);
    }
  }

  lemma AllocPinnedKeepsUse(p: State, n: nat, size: nat)
    requires InUse(p) && p.end < 0x8000_0000_0000_0000
    requires 1 <= n <= 0xFFF_FFFE && size <= 16 * n && TotalSize(n) == 16 + 16 * n
    ensures var (t, u) := AllocPinned(p, n, size);
            && InUse(t) && t.end == p.end && t.L.top <= Max(p.L.top, p.end)
            && if u == 0 then t == p else u !in p.asked && t.asked == p.asked[u := size]
  {
    hide Tiles, Distinct, Counted, TotalSize, Bump;
    if n <= 64 && p.L.lists[n - 1] != [] {
      TakeFast(p, n, size);
    } else if n > 64 && BestFit(UnitsOf(p.L.lists[64], p.L.at), n).Some? {
      RecycleBest(p, n, size, BestFit(UnitsOf(p.L.lists[64], p.L.at), n).value);
    } else if p.L.top + TotalSize(n) <= p.end {
      BumpIsCarve(p.L, n);
      CarveKeepsUse(p, n, size);
    }
  }

  /** What an allocation returns: NULL, or a pointer that was not live and now is, for that size. */
  lemma AllocKeepsGood(s: State, size: nat)
    requires Good(s) && size <= 0xFFFF_FFE0
    ensures Listed(s.L) && Good(Alloc(s, size).0)
    ensures var (t, u) := Alloc(s, size);
            t.end == s.end && if u == 0 then t.asked == s.asked else u !in s.asked && t.asked == s.asked[u := size]
  {
    GoodListed(s);
    if size != 0 && s.L.top != 0 {
      PinInUse(s);
      UnitsCover(size);
      AllocPinnedKeepsUse(Pin(s), Units(size), size);
    }
  }

  // ---- Requests beyond the 32-bit total ----

  /** A block carved from the bump pointer reaches as far as was asked for if and only if that is at
      most 2^32 - 32 bytes. */
  lemma CarvedCovers(p: State, size: nat)
    requires Listed(p.L) && 1 <= size && AllocPinned(p, Units(size), size).1 == p.L.top + 16
    requires !(0 < Units(size) <= 64 && p.L.lists[Units(size) - 1] != [])
    requires Units(size) > 64 ==> BestFit(UnitsOf(p.L.lists[64], p.L.at), Units(size)).None?
    ensures var (t, u) := AllocPinned(p, Units(size), size);
            u + size <= t.L.top <==> size <= 0xFFFF_FFE0
  {
    hide Units, TotalSize, BestFit, UnitsOf;
    TotalSizeCovers(size);
  }

  lemma WrappedTotal(size: nat)
    requires 0xFFFF_FFE0 < size <= 0xFFFF_FFF0
    ensures Units(size) == 0xFFF_FFFF && TotalSize(Units(size)) == 0
  {
    var w := size + 15;
    assert w % 0x1_0000_0000_0000_0000 == w && w / 16 == 0xFFF_FFFF;
    assert AlignUp(size, 16) == 0xFFFF_FFF0;
  }

  /** No block is large enough for such a request. */
  lemma WrappedMisses(sizes: seq<nat>)
    requires forall i :: 0 <= i < |sizes| ==> sizes[i] < 0xFFF_FFFF
    ensures BestFit(sizes, 0xFFF_FFFF).None?
  {
    NothingFits(sizes, 0xFFF_FFFF);
  }

  /** Within 16 bytes of 2^32 the total is 0: in every state that is not exhausted two such requests
      in a row get the same pointer. */
  lemma WrappedTwice(s: State, size: nat)
    requires Good(s) && 0 < s.L.top && Pin(s).L.top <= s.end && 0xFFFF_FFE0 < size <= 0xFFFF_FFF0
    ensures Listed(s.L) && Listed(Alloc(s, size).0.L)
    ensures var (t, u) := Alloc(s, size); u != 0 && Alloc(t, size).1 == u
  {
    hide Units, TotalSize, BestFit, Tiles, ListsHold, Counted, UnitsIn;
    GoodListed(s);
    PinInUse(s);
    WrappedTotal(size);
    var p := Pin(s);
    GoodListed(p);
    BumpOnce(p, size);
    BumpBounded(p.L);
    BumpOnce(Alloc(s, size).0, size);
  }

  /** The heap's blocks are no larger than a total can say. */
  ghost predicate Bounded(L: Layout) {
    Listed(L) && forall u :: u in L.lists[64] ==> L.at[u].units < 0xFFF_FFFF
  }

  lemma BumpBounded(L: Layout)
    requires Valid(L) && Bounded(L)
    ensures Bounded(Bump(L, 0xFFF_FFFF))
  {
    ContiguousBounds(L.order, L.at, L.start);
    assert L.top + 16 !in L.order;
  }

  lemma BumpOnce(p: State, size: nat)
    requires Bounded(p.L) && p.L.top <= p.end && Units(size) == 0xFFF_FFFF && TotalSize(0xFFF_FFFF) == 0
    ensures var (t, u) := AllocPinned(p, Units(size), size);
            u == p.L.top + 16 && t.L.top == p.L.top && t.end == p.end && t.L == Bump(p.L, 0xFFF_FFFF)
  {
    hide Units, TotalSize, BestFit;
    WrappedMisses(UnitsOf(p.L.lists[64], p.L.at));
  }

  lemma FreeLast(s: State, u: nat)
    requires InUse(s) && u in s.asked && s.L.order != [] && s.L.order[|s.L.order| - 1] == u && u >= 16
    ensures InUse(s.(L := Drop(s.L), asked := s.asked - {u})) && Drop(s.L).top <= s.L.top
  {
    hide Contiguous, EndOf, FreeSum, ListsSum, Distinct;
    DropCounts(s.L, s.bytes);
    LastBlock(s.L);
  }

  lemma FreeInner(s: State, u: nat)
    requires InUse(s) && u in s.asked
    ensures InUse(s.(L := Push(s.L, u), bytes := s.bytes + s.L.at[u].size(), asked := s.asked - {u}))
  {
    hide Tiles, FreeSum, ListsSum, Distinct;
    PushCounts(s.L, u, s.bytes);
  }

  lemma FreeKeepsGood(s: State, u: nat)
    requires Good(s) && (u == 0 || u in s.asked)
    ensures Good(Free(s, u)) && Free(s, u).end == s.end && Free(s, u).asked == s.asked - {u}
  {
    hide Contiguous, EndOf, Distinct, FreeSum, ListsSum;
    if u == 0 {
      NullIsNotLive(s);
    } else {
      LastBlock(s.L);
      if s.L.order[|s.L.order| - 1] == u {
        FreeLast(s, u);
      } else {
        FreeInner(s, u);
      }
    }
  }

  lemma NullIsNotLive(s: State)
    requires Good(s)
    ensures 0 !in s.asked
  {
    if InUse(s) {
      ContiguousBounds(s.L.order, s.L.at, s.L.start);
    }
  }

  // ---- Runs ----

  datatype Event = Allocate(size: nat) | Release(ptr: nat)

  /** Callers free NULL or a pointer they hold, and ask for at most 2^32 - 32 bytes. */
  predicate Legal(s: State, e: Event) {
    match e
    case Allocate(size) => size <= 0xFFFF_FFE0
    case Release(ptr) => ptr == 0 || ptr in s.asked
  }

  ghost function Step(s: State, e: Event): State {
    if !Good(s) || !Legal(s, e) then s
    else match e
      case Allocate(size) => GoodListed(s); Alloc(s, size).0
      case Release(ptr) => Free(s, ptr)
  }

  ghost function Final(s: State, run: seq<Event>): State
    decreases |run|
  {
    if run == [] then s else Final(Step(s, run[0]), run[1..])
  }

  ghost predicate LegalRun(s: State, run: seq<Event>)
    decreases |run|
  {
    run == [] || (Legal(s, run[0]) && LegalRun(Step(s, run[0]), run[1..]))
  }

  /** kheap_init: a bump pointer and no blocks. */
  function Initial(current: nat, end: nat): State {
    State(Layout(0, current, [], map[], seq(65, (i: nat) => [])), end, 0, map[])
  }

  lemma {:induction false} RunKeepsGood(s: State, run: seq<Event>)
    requires Good(s) && LegalRun(s, run)
    ensures Good(Final(s, run))
    decreases |run|
  {
    hide Good, Alloc, Free;
    if run != [] {
      match run[0] {
        case Allocate(size) => AllocKeepsGood(s, size);
        case Release(ptr) => FreeKeepsGood(s, ptr);
      }
      RunKeepsGood(Step(s, run[0]), run[1..]);
    }
  }

  lemma {:induction false} ContiguousAligned(order: seq<nat>, at: Blocks, from: nat, u: nat)
    requires Contiguous(order, at, from) && from % 16 == 0 && u in order
    ensures u % 16 == 0
  {
    var k := from / 16 + 1;
    assert order[0] == 16 * k;
    var next := order[0] + at[order[0]].size();
    assert next == 16 * (k + at[order[0]].units);
    if u != order[0] {
      ContiguousAligned(order[1..], at, next, u);
    }
  }

  /** What callers can rely on: the payloads they hold are 16-aligned, inside the heap, as large as
      requested, and apart from each other and from every header. */
  lemma LivePayloads(s: State, u: nat, v: nat)
    requires Good(s) && u in s.asked && v in s.asked
    ensures u % 16 == 0 && s.L.start + 16 <= u && u + s.asked[u] <= s.L.top <= s.end
    ensures u != v ==> u + s.asked[u] + 16 <= v || v + s.asked[v] + 16 <= u
  {
    ContiguousBounds(s.L.order, s.L.at, s.L.start);
    ContiguousAligned(s.L.order, s.L.at, s.L.start, u);
    if u != v {
      ContiguousApart(s.L.order, s.L.at, s.L.start, u, v);
    }
  }

  /** kheap_get_free_bytes. */
  function ReportedFree(s: State): int {
    if s.end <= s.L.top then s.bytes else s.bytes + (s.end - s.L.top)
  }

  /** Bytes are conserved: what is reported free, 16 bytes per free block and the live blocks are
      the whole heap. */
  lemma Conservation(s: State)
    requires Good(s) && s.L.start != 0 && s.L.top <= s.end
    ensures s.bytes == ListsSum(s.L.lists, s.L.at, 65)
    ensures ReportedFree(s) + 16 * FreeBlocks(s.L.order, s.L.at) + LiveSum(s.L.order, s.L.at) == s.end - s.L.start
  {
    Accounted(s.L.order, s.L.at, s.L.start);
  }

  /** After every run from kheap_init: the blocks tile the heap from its start to the bump pointer
      and each is live or on exactly one free list, the one for its size; live payloads are
      16-aligned, inside the heap, pairwise apart and as large as requested; and bytes are
      conserved. */
  lemma EveryRun(current: nat, end: nat, run: seq<Event>)
    requires current < 0x8000_0000_0000_0000 && end < 0x8000_0000_0000_0000
    requires LegalRun(Initial(current, end), run)
    ensures var t := Final(Initial(current, end), run);
            && Good(t) && (t.L.start != 0 ==> Tiles(t.L) && ListsHold(t.L))
            && (forall u :: u in t.asked ==> u % 16 == 0 && t.L.start + 16 <= u && u + t.asked[u] <= t.L.top <= t.end)
            && (forall u, v :: u in t.asked && v in t.asked && u != v ==>
                  u + t.asked[u] + 16 <= v || v + t.asked[v] + 16 <= u)
            && (t.L.start != 0 && t.L.top <= t.end ==>
                  && t.bytes == ListsSum(t.L.lists, t.L.at, 65)
                  && ReportedFree(t) + 16 * FreeBlocks(t.L.order, t.L.at) + LiveSum(t.L.order, t.L.at)
                  == t.end - t.L.start)
  {
    hide Tiles, ListsHold, ListsSum, FreeBlocks, LiveSum, LegalRun, Final, ReportedFree, Counted;
    RunKeepsGood(Initial(current, end), run);
    var t := Final(Initial(current, end), run);
    forall u, v | u in t.asked && v in t.asked
      ensures u % 16 == 0 && t.L.start + 16 <= u && u + t.asked[u] <= t.L.top <= t.end
      ensures u != v ==> u + t.asked[u] + 16 <= v || v + t.asked[v] + 16 <= u
    {
      LivePayloads(t, u, v);
    }
    if t.L.start != 0 && t.L.top <= t.end {
      Conservation(t);
    }
  }
}
