/**
  What the kernel heap holds, as a value: blocks in address order that tile the used part of the
  heap, each live or on one free list, and the five steps the allocator is made of.  A block is
  named by its user pointer, 16 bytes above its header.
*/
module HeapLayout {
  import opened Sequences

  /** owner is -1 for a live block, otherwise the number of the free list that holds it. */
  datatype Block = Block(units: nat, owner: int) {
    /** Payload bytes: a whole number of 16-byte units. */
    function size(): nat {
      16 * units
    }
  }

  type Blocks = map<nat, Block>

  /** The blocks of the heap between start and top, in address order, and the 65 free lists:
      64 of exact size and the overflow list. */
  datatype Layout = Layout(start: nat, top: nat, order: seq<nat>, at: Blocks, lists: seq<seq<nat>>)

  /** The free list for blocks of n units of 16 bytes. */
  function ListFor(n: nat): (k: nat)
    ensures k <= 64
  {
    if 0 < n <= 64 then n - 1 else 64
  }

  // ---- Tiling ----

  /** The blocks follow each other without a gap, a header before each, from address `from` on. */
  ghost predicate Contiguous(order: seq<nat>, at: Blocks, from: nat) {
    order == [] ||
    (order[0] in at && order[0] == from + 16 && Contiguous(order[1..], at, order[0] + at[order[0]].size()))
  }

  ghost function EndOf(order: seq<nat>, at: Blocks, from: nat): nat
    requires Contiguous(order, at, from)
  {
    if order == [] then from else EndOf(order[1..], at, order[0] + at[order[0]].size())
  }

  lemma {:induction false} ContiguousConcat(a: seq<nat>, b: seq<nat>, at: Blocks, from: nat)
    ensures Contiguous(a + b, at, from) <==> Contiguous(a, at, from) && Contiguous(b, at, EndOf(a, at, from))
    ensures Contiguous(a + b, at, from) ==> EndOf(a + b, at, from) == EndOf(b, at, EndOf(a, at, from))
  {
    if a == [] {
      assert a + b == b;
    } else {
      assert (a + b)[1..] == a[1..] + b;
      if a[0] in at {
        ContiguousConcat(a[1..], b, at, a[0] + at[a[0]].size());
      }
    }
  }

  /** Only the sizes of the blocks in the sequence matter. */
  lemma {:induction false} ContiguousFrame(order: seq<nat>, at: Blocks, at': Blocks, from: nat)
    requires Contiguous(order, at, from)
    requires forall u :: u in order ==> u in at && u in at' && at[u].size() == at'[u].size()
    ensures Contiguous(order, at', from) && EndOf(order, at', from) == EndOf(order, at, from)
  {
    if order != [] {
      ContiguousFrame(order[1..], at, at', order[0] + at[order[0]].size());
    }
  }

  /** The blocks of a contiguous run lie between its ends. */
  lemma {:induction false} ContiguousBounds(order: seq<nat>, at: Blocks, from: nat)
    requires Contiguous(order, at, from)
    ensures from <= EndOf(order, at, from)
    ensures forall u :: u in order ==> u in at && from + 16 <= u && u + at[u].size() <= EndOf(order, at, from)
  {
    if order != [] {
      ContiguousBounds(order[1..], at, order[0] + at[order[0]].size());
    }
  }

  /** Two blocks do not overlap, headers included. */
  ghost predicate Apart(at: Blocks, u: nat, v: nat)
    requires u in at && v in at
  {
    u + at[u].size() + 16 <= v || v + at[v].size() + 16 <= u
  }

  lemma {:induction false} ContiguousApart(order: seq<nat>, at: Blocks, from: nat, u: nat, v: nat)
    requires Contiguous(order, at, from) && u in order && v in order && u != v
    ensures u in at && v in at && Apart(at, u, v)
  {
    ContiguousBounds(order[1..], at, order[0] + at[order[0]].size());
    if u != order[0] && v != order[0] {
      ContiguousApart(order[1..], at, order[0] + at[order[0]].size(), u, v);
    }
  }

  // ---- Validity ----

  ghost predicate Tiles(L: Layout) {
    && L.start > 0 && L.start % 16 == 0
    && (forall u :: u in L.at <==> u in L.order)
    && Contiguous(L.order, L.at, L.start) && EndOf(L.order, L.at, L.start) == L.top
    && (forall u :: u in L.at ==> L.at[u].units >= 1)
  }

  ghost predicate ListsHold(L: Layout) {
    && |L.lists| == 65
    && (forall k, u :: 0 <= k < 65 && u in L.lists[k] ==> u in L.at && L.at[u].owner == k)
    && (forall k :: 0 <= k < 65 ==> Distinct(L.lists[k]))
    && (forall u :: u in L.at ==>
          L.at[u].owner == -1
          || (L.at[u].owner == ListFor(L.at[u].units) && u in L.lists[L.at[u].owner]))
  }

  /** The blocks tile the used heap, and each is live or on exactly the list of its size. */
  ghost predicate Valid(L: Layout) {
    Tiles(L) && ListsHold(L)
  }

  predicate Live(L: Layout, u: nat) {
    u in L.at && L.at[u].owner == -1
  }

  // ---- Steps ----

  /** Put a live block on its free list. */
  function Push(L: Layout, u: nat): Layout
    requires u in L.at && |L.lists| == 65
  {
    var k := ListFor(L.at[u].units);
    L.(at := L.at[u := L.at[u].(owner := k)], lists := L.lists[k := [u] + L.lists[k]])
  }

  /** Take the i-th block off free list k. */
  function Take(L: Layout, k: nat, i: nat): Layout
    requires k < |L.lists| && i < |L.lists[k]| && L.lists[k][i] in L.at
  {
    var l := L.lists[k];
    L.(at := L.at[l[i] := L.at[l[i]].(owner := -1)], lists := L.lists[k := l[..i] + l[i + 1..]])
  }

  /** Cut the i-th block, which is live, down to n units; the rest, behind a header of its own,
      becomes a live block. */
  function Split(L: Layout, i: nat, n: nat): Layout
    requires i < |L.order| && L.order[i] in L.at && L.at[L.order[i]].units >= n + 1
  {
    var u := L.order[i];
    var t := u + 16 * n + 16;
    L.(order := L.order[..i] + ([u, t] + L.order[i + 1..]),
       at := L.at[u := Block(n, -1)][t := Block(L.at[u].units - n - 1, -1)])
  }

  /** Append a live block of n units. */
  function Carve(L: Layout, n: nat): Layout {
    var u := L.top + 16;
    L.(top := u + 16 * n, order := L.order + [u], at := L.at[u := Block(n, -1)])
  }

  /** Give the last block back to the unused part. */
  function Drop(L: Layout): Layout
    requires L.order != [] && L.order[|L.order| - 1] >= 16
  {
    var u := L.order[|L.order| - 1];
    L.(top := u - 16, order := L.order[..|L.order| - 1], at := L.at - {u})
  }

  // ---- The steps keep the layout valid ----

  lemma PushKeepsValid(L: Layout, u: nat)
    requires Valid(L) && Live(L, u)
    ensures Valid(Push(L, u))
  {
    var M := Push(L, u);
    ContiguousFrame(L.order, L.at, M.at, L.start);
    var k := M.at[u].owner;
    assert u !in L.lists[k];
    assert Distinct(M.lists[k]);
  }

  lemma TakeKeepsValid(L: Layout, k: nat, i: nat)
    requires Valid(L) && k < 65 && i < |L.lists[k]|
    ensures L.lists[k][i] in L.at && Valid(Take(L, k, i)) && Live(Take(L, k, i), L.lists[k][i])
  {
    var l := L.lists[k];
    var u := l[i];
    assert u in L.at;
    var M := Take(L, k, i);
    ContiguousFrame(L.order, L.at, M.at, L.start);
    assert M.lists[k] == l[..i] + l[i + 1..];
    forall v
      ensures v in M.lists[k] <==> v in l && v != u
    {
      Removed(l, i, v);
    }
  }

  lemma Removed(l: seq<nat>, i: nat, v: nat)
    requires i < |l| && Distinct(l)
    ensures v in l[..i] + l[i + 1..] <==> v in l && v != l[i]
    ensures Distinct(l[..i] + l[i + 1..])
  {
    if v in l && v != l[i] {
      var j :| 0 <= j < |l| && l[j] == v;
      if j < i {
        assert l[..i][j] == v;
      } else {
        assert l[i + 1..][j - i - 1] == v;
      }
    }
  }

  lemma CarveKeepsValid(L: Layout, n: nat)
    requires Valid(L) && n >= 1
    ensures Valid(Carve(L, n)) && Live(Carve(L, n), L.top + 16) && L.top + 16 !in L.at
  {
    var M, u := Carve(L, n), L.top + 16;
    ContiguousBounds(L.order, L.at, L.start);
    assert u !in L.order;
    ContiguousFrame(L.order, L.at, M.at, L.start);
    ContiguousConcat(L.order, [u], M.at, L.start);
    assert [u][1..] == [];
  }

  /** The last block ends at the top. */
  lemma LastBlock(L: Layout)
    requires Valid(L) && L.order != []
    ensures var u := L.order[|L.order| - 1];
            u in L.at && u >= 16 && u + L.at[u].size() == L.top
            && Contiguous(L.order[..|L.order| - 1], L.at, L.start)
            && EndOf(L.order[..|L.order| - 1], L.at, L.start) == u - 16
  {
    var a, u := L.order[..|L.order| - 1], L.order[|L.order| - 1];
    assert L.order == a + [u];
    ContiguousConcat(a, [u], L.at, L.start);
    assert [u][1..] == [];
  }

  lemma DropKeepsTiles(L: Layout)
    requires Tiles(L) && L.order != [] && L.order[|L.order| - 1] >= 16
    requires Contiguous(L.order[..|L.order| - 1], L.at, L.start)
    requires EndOf(L.order[..|L.order| - 1], L.at, L.start) == L.order[|L.order| - 1] - 16
    ensures Tiles(Drop(L))
  {
    var a, u := L.order[..|L.order| - 1], L.order[|L.order| - 1];
    ContiguousBounds(a, L.at, L.start);
    assert u !in a;
    ContiguousFrame(a, L.at, Drop(L).at, L.start);
    hide Contiguous, EndOf;
    assert L.order == a + [u];
  }

  lemma DropKeepsValid(L: Layout)
    requires Valid(L) && L.order != [] && Live(L, L.order[|L.order| - 1])
    ensures L.order[|L.order| - 1] >= 16 && Valid(Drop(L))
  {
    LastBlock(L);
    DropKeepsTiles(L);
    hide Tiles;
  }

  /** Block u stands between the blocks a before it and b after it. */
  ghost predicate Stands(L: Layout, a: seq<nat>, u: nat, b: seq<nat>) {
    && u in L.at && (forall v :: v in a || v in b ==> v in L.at && v != u)
    && Contiguous(a, L.at, L.start) && EndOf(a, L.at, L.start) == u - 16
    && Contiguous(b, L.at, u + L.at[u].size()) && EndOf(b, L.at, u + L.at[u].size()) == L.top
    && (forall v :: v in a ==> v + 16 <= u)
    && (forall v :: v in b ==> u + L.at[u].size() + 16 <= v)
  }

  lemma Around(L: Layout, i: nat)
    requires Valid(L) && i < |L.order|
    ensures L.order == L.order[..i] + [L.order[i]] + L.order[i + 1..]
    ensures Stands(L, L.order[..i], L.order[i], L.order[i + 1..])
  {
    var a, u, b := L.order[..i], L.order[i], L.order[i + 1..];
    assert L.order == a + [u] + b;
    ContiguousConcat(a + [u], b, L.at, L.start);
    ContiguousConcat(a, [u], L.at, L.start);
    assert [u][1..] == [];
    ContiguousBounds(a, L.at, L.start);
    ContiguousBounds(b, L.at, u + L.at[u].size());
  }

  /** Cutting a block in two keeps a run of blocks contiguous. */
  lemma SplitRun(a: seq<nat>, u: nat, b: seq<nat>, at: Blocks, at': Blocks, t: nat, from: nat)
    requires Contiguous(a + ([u] + b), at, from)
    requires u in at && u in at' && t in at' && t == u + at'[u].size() + 16 && t + at'[t].size() == u + at[u].size()
    requires forall v :: v in a || v in b ==> v in at && v in at' && at'[v].size() == at[v].size()
    ensures Contiguous(a + ([u, t] + b), at', from)
    ensures EndOf(a + ([u, t] + b), at', from) == EndOf(a + ([u] + b), at, from)
  {
    ContiguousConcat(a, [u] + b, at, from);
    var mid := EndOf(a, at, from);
    assert ([u] + b)[1..] == b;
    ContiguousFrame(a, at, at', from);
    ContiguousFrame(b, at, at', u + at[u].size());
    assert ([u, t] + b)[1..] == [t] + b && ([t] + b)[1..] == b;
    assert Contiguous([t] + b, at', u + at'[u].size());
    assert Contiguous([u, t] + b, at', mid);
    ContiguousConcat(a, [u, t] + b, at', from);
  }

  lemma RunMembers(a: seq<nat>, m: seq<nat>, b: seq<nat>, v: nat)
    ensures v in a + (m + b) <==> v in a || v in m || v in b
  {
  }

  lemma SplitMembers(order: seq<nat>, i: nat, at: Blocks, order': seq<nat>, at': Blocks, t: nat)
    requires i < |order| && order' == order[..i] + ([order[i], t] + order[i + 1..])
    requires forall v :: v in at <==> v in order
    requires forall v :: v in at' <==> v in at || v == t
    ensures forall v :: v in at' <==> v in order'
  {
    var a, u, b := order[..i], order[i], order[i + 1..];
    assert order == a + ([u] + b);
    forall v
      ensures v in at' <==> v in order'
    {
      RunMembers(a, [u, t], b, v);
      RunMembers(a, [u], b, v);
    }
  }

  lemma SplitKeepsTiles(L: Layout, M: Layout, i: nat, t: nat)
    requires Valid(L) && i < |L.order| && t !in L.at
    requires M.start == L.start && M.top == L.top
    requires M.order == L.order[..i] + ([L.order[i], t] + L.order[i + 1..])
    requires L.order[i] in M.at && t in M.at && forall v :: v in M.at <==> v in L.at || v == t
    requires L.order[i] in L.at
    requires var u := L.order[i]; t == u + M.at[u].size() + 16 && t + M.at[t].size() == u + L.at[u].size()
    requires forall v :: v in L.at && v != L.order[i] ==> M.at[v] == L.at[v]
    requires forall v :: v in M.at ==> M.at[v].units >= 1
    ensures Tiles(M)
  {
    SplitMembers(L.order, i, L.at, M.order, M.at, t);
    SplitContiguous(L, M.at, i, t);
    hide Contiguous, EndOf, ListsHold;
  }

  lemma SplitContiguous(L: Layout, at': Blocks, i: nat, t: nat)
    requires Valid(L) && i < |L.order|
    requires Contiguous(L.order, L.at, L.start) && EndOf(L.order, L.at, L.start) == L.top
    requires L.order[i] in at' && t in at' && L.order[i] in L.at
    requires var u := L.order[i]; t == u + at'[u].size() + 16 && t + at'[t].size() == u + L.at[u].size()
    requires forall v :: v in L.at && v != L.order[i] ==> v in at' && at'[v] == L.at[v]
    ensures var order := L.order[..i] + ([L.order[i], t] + L.order[i + 1..]);
            Contiguous(order, at', L.start) && EndOf(order, at', L.start) == L.top
  {
    hide Valid, Contiguous, EndOf;
    Around(L, i);
    var a, u, b := L.order[..i], L.order[i], L.order[i + 1..];
    assert L.order == a + ([u] + b);
    SplitRun(a, u, b, L.at, at', t, L.start);
  }

  lemma SplitKeepsValid(L: Layout, i: nat, n: nat)
    requires Valid(L) && i < |L.order| && Live(L, L.order[i]) && n >= 1 && L.at[L.order[i]].units >= n + 2
    ensures var M, u, t := Split(L, i, n), L.order[i], L.order[i] + 16 * n + 16;
            Valid(M) && Live(M, u) && Live(M, t) && t !in L.at && M.lists == L.lists
  {
    hide Contiguous, EndOf, ListsHold;
    var M, u, t := Split(L, i, n), L.order[i], L.order[i] + 16 * n + 16;
    if t in L.at {
      ContiguousApart(L.order, L.at, L.start, u, t);
    }
    SplitKeepsTiles(L, M, i, t);
    SplitLists(L, M, u, t);
  }

  lemma SplitLists(L: Layout, M: Layout, u: nat, t: nat)
    requires Valid(L) && Live(L, u) && t !in L.at && M.lists == L.lists
    requires M.at.Keys == L.at.Keys + {t} && Live(M, t) && Live(M, u)
    requires forall v :: v in L.at && v != u ==> M.at[v] == L.at[v]
    ensures ListsHold(M)
  {
  }

  // ---- Conservation ----

  function FreeSize(b: Block): nat { if b.owner == -1 then 0 else b.size() }

  function LiveSize(b: Block): nat { if b.owner == -1 then 16 + b.size() else 0 }

  function FreeCount(b: Block): nat { if b.owner == -1 then 0 else 1 }

  /** Bytes of payload in free blocks. */
  function FreeSum(order: seq<nat>, at: Blocks): nat
    requires forall u :: u in order ==> u in at
  {
    if order == [] then 0 else FreeSize(at[order[0]]) + FreeSum(order[1..], at)
  }

  /** Bytes of live blocks, headers included. */
  function LiveSum(order: seq<nat>, at: Blocks): nat
    requires forall u :: u in order ==> u in at
  {
    if order == [] then 0 else LiveSize(at[order[0]]) + LiveSum(order[1..], at)
  }

  function FreeBlocks(order: seq<nat>, at: Blocks): nat
    requires forall u :: u in order ==> u in at
  {
    if order == [] then 0 else FreeCount(at[order[0]]) + FreeBlocks(order[1..], at)
  }

  /** Nothing is lost: free payload, free headers and live blocks are the whole used heap. */
  lemma {:induction false} Accounted(order: seq<nat>, at: Blocks, from: nat)
    requires Contiguous(order, at, from) && forall u :: u in order ==> u in at
    ensures from + FreeSum(order, at) + 16 * FreeBlocks(order, at) + LiveSum(order, at) == EndOf(order, at, from)
  {
    if order != [] {
      Accounted(order[1..], at, order[0] + at[order[0]].size());
    }
  }

  /** Payload bytes on a free list, and on the first k lists. */
  function ListSum(l: seq<nat>, at: Blocks): nat
    requires forall u :: u in l ==> u in at
  {
    if l == [] then 0 else at[l[0]].size() + ListSum(l[1..], at)
  }

  function ListsSum(lists: seq<seq<nat>>, at: Blocks, k: nat): nat
    requires k <= |lists| && forall i, u :: 0 <= i < |lists| && u in lists[i] ==> u in at
  {
    if k == 0 then 0 else ListsSum(lists, at, k - 1) + ListSum(lists[k - 1], at)
  }

  ghost predicate Counted(L: Layout, bytes: int)
    requires Valid(L)
  {
    bytes == ListsSum(L.lists, L.at, 65) == FreeSum(L.order, L.at)
  }

  lemma {:induction false} FreeSumFrame(order: seq<nat>, at: Blocks, at': Blocks)
    requires forall u :: u in order ==> u in at && u in at' && FreeSize(at[u]) == FreeSize(at'[u])
    ensures FreeSum(order, at) == FreeSum(order, at')
  {
    if order != [] {
      FreeSumFrame(order[1..], at, at');
    }
  }

  lemma {:induction false} FreeSumConcat(a: seq<nat>, b: seq<nat>, at: Blocks)
    requires forall u :: u in a + b ==> u in at
    ensures (forall u :: u in a ==> u in at) && (forall u :: u in b ==> u in at)
    ensures FreeSum(a + b, at) == FreeSum(a, at) + FreeSum(b, at)
  {
    forall u | u in a || u in b
      ensures u in at
    {
      assert u in a + b;
    }
    if a == [] {
      assert a + b == b;
    } else {
      assert (a + b)[1..] == a[1..] + b;
      FreeSumConcat(a[1..], b, at);
    }
  }

  lemma {:induction false} ListSumFrame(l: seq<nat>, at: Blocks, at': Blocks)
    requires forall u :: u in l ==> u in at && u in at' && at[u].size() == at'[u].size()
    ensures ListSum(l, at) == ListSum(l, at')
  {
    if l != [] {
      ListSumFrame(l[1..], at, at');
    }
  }

  lemma {:induction false} ListSumRemove(l: seq<nat>, i: nat, at: Blocks)
    requires i < |l| && forall u :: u in l ==> u in at
    ensures forall u :: u in l[..i] + l[i + 1..] ==> u in at
    ensures ListSum(l, at) == at[l[i]].size() + ListSum(l[..i] + l[i + 1..], at)
  {
    if i == 0 {
      assert l[..0] + l[1..] == l[1..];
    } else {
      ListSumRemove(l[1..], i - 1, at);
      assert l[1..][..i - 1] + l[1..][i..] == (l[..i] + l[i + 1..])[1..];
    }
  }

  /** Replacing one list changes the total by that list's change. */
  lemma {:induction false} ListsSumUpdate(lists: seq<seq<nat>>, at: Blocks, at': Blocks, j: nat, l: seq<nat>,
                                          m: seq<seq<nat>>, k: nat)
    requires j < |lists| && k <= |lists|
    requires forall i, u :: 0 <= i < |lists| && u in lists[i] ==> u in at && u in at' && at[u].size() == at'[u].size()
    requires m == lists[j := l] && forall u :: u in l ==> u in at'
    ensures forall i, u :: 0 <= i < |m| && u in m[i] ==> u in at'
    ensures ListsSum(m, at', k) + (if j < k then ListSum(lists[j], at) else 0)
            == ListsSum(lists, at, k) + if j < k then ListSum(l, at') else 0
  {
    if k > 0 {
      ListsSumUpdate(lists, at, at', j, l, m, k - 1);
      ListSumFrame(lists[k - 1], at, at');
    }
  }

  /** Changing one block changes the free payload by that block's change. */
  lemma FreeSumChange(L: Layout, i: nat, at': Blocks)
    requires Valid(L) && i < |L.order| && L.order[i] in at'
    requires forall v :: v in L.at && v != L.order[i] ==> v in at' && at'[v] == L.at[v]
    requires (forall v :: v in L.order ==> v in L.at) && (forall v :: v in L.order ==> v in at')
    ensures L.order[i] in L.at
    ensures FreeSum(L.order, at') + FreeSize(L.at[L.order[i]]) == FreeSum(L.order, L.at) + FreeSize(at'[L.order[i]])
  {
    hide Valid;
    Around(L, i);
    var a, u, b := L.order[..i], L.order[i], L.order[i + 1..];
    FreeSumSplit(a, u, b, L.at);
    FreeSumSplit(a, u, b, at');
    FreeSumFrame(a, L.at, at');
    FreeSumFrame(b, L.at, at');
  }

  lemma FreeSumSplit(a: seq<nat>, u: nat, b: seq<nat>, at: Blocks)
    requires forall v :: v in a + [u] + b ==> v in at
    ensures (forall v :: v in a ==> v in at) && u in at && (forall v :: v in b ==> v in at)
    ensures FreeSum(a + [u] + b, at) == FreeSum(a, at) + FreeSize(at[u]) + FreeSum(b, at)
  {
    FreeSumConcat(a + [u], b, at);
    FreeSumConcat(a, [u], at);
    assert [u][1..] == [];
  }

  lemma Position(L: Layout, u: nat) returns (i: nat)
    requires Valid(L) && u in L.at
    ensures i < |L.order| && L.order[i] == u
  {
    i :| i < |L.order| && L.order[i] == u;
  }

  lemma PushCounts(L: Layout, u: nat, bytes: int)
    requires Valid(L) && Live(L, u) && Counted(L, bytes)
    ensures Valid(Push(L, u)) && Counted(Push(L, u), bytes + L.at[u].size())
  {
    PushKeepsValid(L, u);
    var M, k := Push(L, u), ListFor(L.at[u].units);
    var i := Position(L, u);
    FreeSumChange(L, i, M.at);
    var l := [u] + L.lists[k];
    ListsSumUpdate(L.lists, L.at, M.at, k, l, M.lists, 65);
    assert l[1..] == L.lists[k];
    ListSumFrame(L.lists[k], L.at, M.at);
  }

  lemma TakeCounts(L: Layout, k: nat, i: nat, bytes: int)
    requires Valid(L) && k < 65 && i < |L.lists[k]| && Counted(L, bytes)
    ensures L.lists[k][i] in L.at && L.at[L.lists[k][i]].size() <= bytes
    ensures Valid(Take(L, k, i)) && Counted(Take(L, k, i), bytes - L.at[L.lists[k][i]].size())
  {
    TakeKeepsValid(L, k, i);
    var l := L.lists[k];
    var u := l[i];
    var M := Take(L, k, i);
    var j := Position(L, u);
    FreeSumChange(L, j, M.at);
    var rest := l[..i] + l[i + 1..];
    ListsSumUpdate(L.lists, L.at, M.at, k, rest, M.lists, 65);
    ListSumRemove(l, i, L.at);
    ListSumFrame(rest, L.at, M.at);
  }

  /** Cutting a live block in two live ones leaves the free payload alone. */
  lemma SplitFreeSum(L: Layout, i: nat, at': Blocks, t: nat)
    requires Valid(L) && i < |L.order| && Live(L, L.order[i]) && t !in L.at
    requires forall v :: v in L.at && v != L.order[i] ==> v in at' && at'[v] == L.at[v]
    requires L.order[i] in at' && at'[L.order[i]].owner == -1 && t in at' && at'[t].owner == -1
    requires forall v :: v in L.order ==> v in L.at
    ensures var order' := L.order[..i] + ([L.order[i], t] + L.order[i + 1..]);
            (forall v :: v in order' ==> v in at') && FreeSum(order', at') == FreeSum(L.order, L.at)
  {
    hide Valid;
    Around(L, i);
    var a, u, b := L.order[..i], L.order[i], L.order[i + 1..];
    FreeSumSplit(a, u, b, L.at);
    FreeSumFrame(a, L.at, at');
    FreeSumFrame(b, L.at, at');
    assert ([u, t] + b)[1..] == [t] + b && ([t] + b)[1..] == b;
    FreeSumConcat(a, [u, t] + b, at');
  }

  lemma SplitCounts(L: Layout, i: nat, n: nat, bytes: int)
    requires Valid(L) && i < |L.order| && Live(L, L.order[i]) && n >= 1 && L.at[L.order[i]].units >= n + 2
    requires Counted(L, bytes)
    ensures Valid(Split(L, i, n)) && Counted(Split(L, i, n), bytes)
  {
    hide Contiguous, EndOf, ListsHold, FreeSum, ListsSum;
    SplitKeepsValid(L, i, n);
    SplitFreeSum(L, i, Split(L, i, n).at, L.order[i] + 16 * n + 16);
    SameListsSum(L, Split(L, i, n).at);
  }

  lemma CarveCounts(L: Layout, n: nat, bytes: int)
    requires Valid(L) && n >= 1 && Counted(L, bytes)
    ensures Valid(Carve(L, n)) && Counted(Carve(L, n), bytes)
  {
    CarveKeepsValid(L, n);
    var M, u := Carve(L, n), L.top + 16;
    FreeSumConcat(L.order, [u], M.at);
    assert [u][1..] == [];
    FreeSumFrame(L.order, L.at, M.at);
    SameListsSum(L, M.at);
  }

  lemma DropCounts(L: Layout, bytes: int)
    requires Valid(L) && L.order != [] && Live(L, L.order[|L.order| - 1]) && Counted(L, bytes)
    ensures L.order[|L.order| - 1] >= 16 && Valid(Drop(L)) && Counted(Drop(L), bytes)
  {
    hide Contiguous, EndOf, Distinct;
    DropKeepsValid(L);
    var a, u := L.order[..|L.order| - 1], L.order[|L.order| - 1];
    assert L.order == a + [u];
    FreeSumConcat(a, [u], L.at);
    assert [u][1..] == [];
    FreeSumFrame(a, L.at, Drop(L).at);
    SameListsSum(L, Drop(L).at);
  }

  /** The lists weigh the same if the sizes of their blocks did not change. */
  lemma SameListsSum(L: Layout, at': Blocks)
    requires Valid(L)
    requires forall v :: v in L.at && L.at[v].owner >= 0 ==> v in at' && at'[v].size() == L.at[v].size()
    ensures forall i, v :: 0 <= i < |L.lists| && v in L.lists[i] ==> v in at'
    ensures ListsSum(L.lists, at', 65) == ListsSum(L.lists, L.at, 65)
  {
    ListsSumUpdate(L.lists, L.at, at', 0, L.lists[0], L.lists, 65);
    ListSumFrame(L.lists[0], L.at, at');
  }
}
