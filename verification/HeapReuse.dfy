/** Which block an allocation takes and where a released block goes, told over the blocks. */
module HeapReuse {
  import opened Numbers
  import opened HeapLayout
  import opened HeapMachine

  /** A free block that serves a request of n units: one of n units, or for more than 64 units one
      that is at most a quarter larger, in 32-bit arithmetic. */
  ghost predicate Serves(L: Layout, u: nat, n: nat) {
    && u in L.at && L.at[u].owner != -1
    && (L.at[u].units == n || (n > 64 && n < L.at[u].units <= n * 20 % 0x1_0000_0000 / 16))
  }

  ghost predicate SomeServes(L: Layout, n: nat) {
    exists u :: Serves(L, u, n)
  }

  /** Where the blocks that serve are listed. */
  lemma ServesListed(L: Layout, u: nat, n: nat)
    requires Valid(L) && n >= 1 && Serves(L, u, n)
    ensures if n <= 64 then u in L.lists[n - 1] else u in L.lists[64]
  {
    hide Tiles;
  }

  /** The block taken from an exact list. */
  lemma FastServes(L: Layout, n: nat)
    requires Valid(L) && 1 <= n <= 64
    ensures L.lists[n - 1] != [] ==> Serves(L, L.lists[n - 1][0], n)
    ensures L.lists[n - 1] == [] ==> !SomeServes(L, n)
  {
    if L.lists[n - 1] != [] {
      ListUnits(L, n - 1, 0);
    } else if u :| Serves(L, u, n) {
      ServesListed(L, u, n);
    }
  }

  /** The best fit of the overflow list is a smallest block that serves. */
  lemma OverflowServes(L: Layout, n: nat)
    requires Valid(L) && n > 64 && Listed(L)
    ensures var best := BestFit(UnitsOf(L.lists[64], L.at), n);
            if best.None? then !SomeServes(L, n)
            else
              && best.value < |L.lists[64]| && Serves(L, L.lists[64][best.value], n)
              && forall u :: Serves(L, u, n) ==> L.at[L.lists[64][best.value]].units <= L.at[u].units
  {
    hide Tiles, BestFit;
    var l := L.lists[64];
    var sizes := UnitsOf(l, L.at);
    NothingFits(sizes, n);
    forall u | Serves(L, u, n)
      ensures exists k :: 0 <= k < |l| && l[k] == u && Fits(n, sizes[k])
    {
      ServesListed(L, u, n);
      var k :| 0 <= k < |l| && l[k] == u;
    }
    if BestFit(sizes, n).Some? {
      var i := BestFit(sizes, n).value;
      BestIs(sizes, n, i);
      ListUnits(L, 64, i);
    }
  }

  // ---- Allocation ----

  /** What becomes of the block taken: its first n units are live, and what is left, if it is enough
      for a header and a unit, is a free block of its own behind a header. */
  ghost predicate Cut(L: Layout, M: Layout, p: nat, n: nat)
    requires p in L.at
  {
    var m := L.at[p].units;
    && M.top == L.top && p in M.at && M.at[p].owner == -1
    && if m < n + 2 then M.at[p].units == m && M.at.Keys == L.at.Keys
       else
         var t := p + 16 * n + 16;
         && M.at[p].units == n && t in M.at && M.at[t].units == m - n - 1 && M.at[t].owner != -1
         && M.at.Keys == L.at.Keys + {t}
  }

  lemma RecycleCuts(L: Layout, i: nat, n: nat)
    requires Valid(L) && Listed(L) && i < |L.lists[64]| && n > 64 && n <= L.at[L.lists[64][i]].units
    ensures L.lists[64][i] in L.at && L.lists[64][i] in L.order && Cut(L, Recycle(L, i, n), L.lists[64][i], n)
  {
    hide Tiles;
    ListUnits(L, 64, i);
  }

  lemma FastCuts(L: Layout, n: nat)
    requires Valid(L) && 1 <= n <= 64 && L.lists[n - 1] != []
    ensures L.lists[n - 1][0] in L.at && Cut(L, Take(L, n - 1, 0), L.lists[n - 1][0], n)
  {
    hide Tiles;
    ListUnits(L, n - 1, 0);
  }

  /** The choice once the start is fixed. */
  lemma PinnedChooses(p: State, n: nat, size: nat)
    requires InUse(p) && 1 <= n <= 0xFFF_FFFE && Listed(p.L)
    ensures var (t, u) := AllocPinned(p, n, size);
            && (SomeServes(p.L, n) ==>
                  && Serves(p.L, u, n) && Cut(p.L, t.L, u, n)
                  && forall v :: Serves(p.L, v, n) ==> p.L.at[u].units <= p.L.at[v].units)
            && (!SomeServes(p.L, n) && p.L.top + 16 + 16 * n <= p.end ==>
                  u == p.L.top + 16 && t.L.top == u + 16 * n && t.L.at == p.L.at[u := Block(n, -1)])
            && (!SomeServes(p.L, n) && p.L.top + 16 + 16 * n > p.end ==> u == 0 && t == p)
  {
    hide Tiles, ListsHold, BestFit, UnitsOf, Bump, Carve, Take, Recycle, Cut, SomeServes, Counted;
    BumpIsCarve(p.L, n);
    assert TotalSize(n) == 16 + 16 * n;
    if n <= 64 {
      FastServes(p.L, n);
      if p.L.lists[n - 1] != [] {
        FastCuts(p.L, n);
        SomeServed(p.L, p.L.lists[n - 1][0], n);
      } else {
        CarveIs(p.L, n);
      }
    } else {
      OverflowServes(p.L, n);
      var best := BestFit(UnitsOf(p.L.lists[64], p.L.at), n);
      if best.Some? {
        RecycleCuts(p.L, best.value, n);
        SomeServed(p.L, p.L.lists[64][best.value], n);
      } else {
        CarveIs(p.L, n);
      }
    }
  }

  lemma SomeServed(L: Layout, u: nat, n: nat)
    requires Serves(L, u, n)
    ensures SomeServes(L, n)
  {
  }

  lemma CarveIs(L: Layout, n: nat)
    ensures Carve(L, n).top == L.top + 16 + 16 * n && Carve(L, n).at == L.at[L.top + 16 := Block(n, -1)]
  {
  }

  /** An allocation takes a smallest free block that serves, if there is one, and cuts it; otherwise
      it carves from the bump pointer; and it fails if and only if no free block serves and the
      bump pointer has no room. */
  lemma AllocChooses(s: State, size: nat)
    requires Good(s) && s.L.top > 0 && 1 <= size <= 0xFFFF_FFE0
    ensures Listed(s.L)
    ensures var n, top, (t, u) := Units(size), Pin(s).L.top, Alloc(s, size);
            && (SomeServes(s.L, n) ==>
                  && Serves(s.L, u, n) && Cut(s.L, t.L, u, n) && t.L.top == top
                  && forall v :: Serves(s.L, v, n) ==> s.L.at[u].units <= s.L.at[v].units)
            && (!SomeServes(s.L, n) && top + 16 + 16 * n <= s.end ==>
                  u == top + 16 && t.L.top == u + 16 * n && t.L.at == s.L.at[u := Block(n, -1)])
            && (u == 0 <==> !SomeServes(s.L, n) && top + 16 + 16 * n > s.end)
  {
    hide Units, AllocPinned, BestFit, UnitsOf;
    GoodListed(s);
    PinInUse(s);
    UnitsCover(size);
    var p, n := Pin(s), Units(size);
    GoodListed(p);
    PinServes(s, n);
    PinnedChooses(p, n, size);
    if SomeServes(p.L, n) {
      ServedNotNull(p, AllocPinned(p, n, size).1, n);
    }
  }

  lemma ServedNotNull(p: State, u: nat, n: nat)
    requires InUse(p) && Serves(p.L, u, n)
    ensures u > 0
  {
    FreeBlockPointer(p, u);
  }

  /** Fixing the start does not touch a block. */
  lemma PinServes(s: State, n: nat)
    requires Good(s) && s.L.top > 0
    ensures Pin(s).L.at == s.L.at && Pin(s).end == s.end
    ensures SomeServes(Pin(s).L, n) <==> SomeServes(s.L, n)
  {
    if u :| Serves(s.L, u, n) {
      assert Serves(Pin(s).L, u, n);
    }
    if u :| Serves(Pin(s).L, u, n) {
      assert Serves(s.L, u, n);
    }
  }

  // ---- Release ----

  /** Releasing the block that ends at the bump pointer winds it back; any other becomes a free block
      of the same size.  No other block is touched. */
  lemma ReleaseAnswers(s: State, u: nat)
    requires Good(s) && u in s.asked
    ensures u in s.L.at
    ensures var t := Free(s, u);
            && t.asked == s.asked - {u} && t.end == s.end
            && if u + s.L.at[u].size() == s.L.top
               then t.L.top == u - 16 && t.L.at == s.L.at - {u} && t.bytes == s.bytes
               else
                 && t.L.top == s.L.top && t.bytes == s.bytes + s.L.at[u].size()
                 && u in t.L.at && t.L.at[u].owner != -1
                 && t.L.at == s.L.at[u := Block(s.L.at[u].units, t.L.at[u].owner)]
  {
    hide ListsHold, Counted;
    LastBlock(s.L);
    var last := s.L.order[|s.L.order| - 1];
    if u != last {
      ContiguousBounds(s.L.order, s.L.at, s.L.start);
      ContiguousApart(s.L.order, s.L.at, s.L.start, u, last);
    }
  }

  lemma ReleasePushes(s: State, u: nat)
    requires Good(s) && u in s.asked && u in s.L.at && u + s.L.at[u].size() != s.L.top && s.L.at[u].units <= 64
    ensures var t, k := Free(s, u), s.L.at[u].units - 1;
            && t.L.start != 0 && t.L.top > 0 && |t.L.lists| == 65
            && 0 <= k < 64 && t.L.lists[k] != [] && t.L.lists[k][0] == u
  {
    hide Counted, Contiguous, EndOf;
    LastBlock(s.L);
    assert s.L.order[|s.L.order| - 1] != u;
    ContiguousBounds(s.L.order, s.L.at, s.L.start);
  }

  lemma FastAlloc(t: State, size: nat)
    requires Listed(t.L) && t.L.start != 0 && t.L.top > 0 && 1 <= size && 1 <= Units(size) <= 64
    requires t.L.lists[Units(size) - 1] != []
    ensures Alloc(t, size).1 == t.L.lists[Units(size) - 1][0]
  {
    hide Units;
  }

  /** A block of up to 64 units that was released, not as the last one, is what the next request for
      as many units gets. */
  lemma ReleasedIsReused(s: State, u: nat, size: nat)
    requires Good(s) && u in s.asked && u in s.L.at && u + s.L.at[u].size() != s.L.top
    requires 1 <= size <= 0xFFFF_FFE0 && Units(size) == s.L.at[u].units <= 64
    ensures Listed(Free(s, u).L) && Alloc(Free(s, u), size).1 == u
  {
    hide Good, Units, Free, Alloc;
    FreeKeepsGood(s, u);
    GoodListed(Free(s, u));
    ReleasePushes(s, u);
    FastAlloc(Free(s, u), size);
  }
}
