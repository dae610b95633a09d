/** Which frames an allocation takes, how large a DMA buffer is and which slot its handle names. */
module FrameAnswers {
  import opened Numbers
  import opened Frames

  /** The n frames from place s on follow each other in ascending order. */
  ghost predicate Follow(free: seq<nat>, s: nat, n: nat) {
    s + n <= |free| && forall i :: 1 <= i < n ==> free[s + i] == (free[s] + i * 4096) % 0x1_0000_0000_0000_0000
  }

  ghost predicate FirstAt(free: seq<nat>, s: nat, n: nat) {
    Follow(free, s, n) && forall j :: 0 <= j < s ==> !Follow(free, j, n)
  }

  lemma FollowIs(free: seq<nat>, s: nat, n: nat)
    ensures Follow(free, s, n) <==> Ascends(free, s, n)
  {
    if s + n <= |free| {
      if Follow(free, s, n) {
        assert forall i :: 1 <= i < n ==> free[s + i] == Ahead(free[s], i);
      } else if Ascends(free, s, n) {
        forall i | 1 <= i < n
          ensures free[s + i] == (free[s] + i * 4096) % 0x1_0000_0000_0000_0000
        {
          assert free[s + i] == Ahead(free[s], i);
        }
      }
    }
  }

  lemma FirstAtIs(free: seq<nat>, s: nat, n: nat)
    requires n > 0
    ensures FirstAt(free, s, n) <==> FirstRun(free, n, 0) == Some(s)
  {
    hide Follow, Ascends;
    forall j: nat
      ensures Follow(free, j, n) <==> Ascends(free, j, n)
    {
      FollowIs(free, j, n);
    }
  }

  /** Taking n frames: exactly the first such run, and the others keep their order. */
  lemma TakeRunAnswers(free: seq<nat>, n: nat)
    requires n > 0
    ensures var (rest, base) := TakeRun(free, n);
            && (base.None? <==> forall s: nat :: !Follow(free, s, n))
            && (base.None? ==> rest == free)
            && (base.Some? ==>
                  exists s: nat :: s + n <= |free| && FirstAt(free, s, n) && base == Some(free[s]) &&
                                   rest == free[..s] + free[s + n..])
  {
    hide Follow, Ascends, FirstAt;
    forall s: nat
      ensures Follow(free, s, n) <==> Ascends(free, s, n)
    {
      FollowIs(free, s, n);
    }
    if FirstRun(free, n, 0).Some? {
      var s := FirstRun(free, n, 0).value;
      FirstAtIs(free, s, n);
      RunFits(free, s, n);
    }
  }

  lemma RunFits(free: seq<nat>, s: nat, n: nat)
    requires FirstAt(free, s, n)
    ensures s + n <= |free|
  {
  }

  /** The number of whole frames a size needs. */
  lemma FramesNeeded(size: int, n: nat)
    requires size > 0
    ensures FramesFor(size) == n <==> size <= 4096 * n < size + 4096
  {
  }

  /** A DMA buffer: -1 exactly if the size is not positive, no run of that many frames exists or the
      first one starts at address 0, or every slot is taken.  Otherwise the handle names the first
      empty slot, counted from one, which now holds the run; it is as large as asked for, by less
      than a frame larger, and nothing else changed. */
  lemma AllocBufferAnswers(m: Memory, size: int, n: nat)
    requires size > 0 ==> size <= 4096 * n < size + 4096
    ensures var (t, h) := AllocBuffer(m, size);
            && (h == -1 <==>
                  || size <= 0 || (forall s: nat :: !Follow(m.free, s, n))
                  || (exists s: nat :: FirstAt(m.free, s, n) && s < |m.free| && m.free[s] == 0)
                  || (forall i :: 0 <= i < |m.buffers| ==> m.buffers[i].base != 0))
            && (h != -1 ==>
                  && 0 < h <= |m.buffers| == |t.buffers| && m.buffers[h - 1].base == 0 && t.owned == m.owned
                  && (forall i :: 0 <= i < h - 1 ==> m.buffers[i].base != 0)
                  && (forall i :: 0 <= i < |m.buffers| && i != h - 1 ==> t.buffers[i] == m.buffers[i])
                  && t.buffers[h - 1].frames == n && t.buffers[h - 1].base != 0
                  && exists s: nat :: s + n <= |m.free| && s < |m.free| && FirstAt(m.free, s, n) &&
                       t.buffers[h - 1].base == m.free[s] && t.free == m.free[..s] + m.free[s + n..])
  {
    hide TakeRun, FirstAt, Follow, FramesFor;
    if size > 0 {
      FramesNeeded(size, n);
      TakeRunAnswers(m.free, n);
      var (rest, base) := TakeRun(m.free, n);
      if base.Some? {
        var s: nat :| s + n <= |m.free| && FirstAt(m.free, s, n) && base == Some(m.free[s]) &&
                      rest == m.free[..s] + m.free[s + n..];
        FirstFollows(m.free, s, n);
        forall j: nat | FirstAt(m.free, j, n)
          ensures j == s
        {
          OnlyFirst(m.free, s, j, n);
        }
      }
    }
  }

  lemma FirstFollows(free: seq<nat>, s: nat, n: nat)
    requires FirstAt(free, s, n)
    ensures Follow(free, s, n)
  {
  }

  lemma OnlyFirst(free: seq<nat>, s: nat, j: nat, n: nat)
    requires FirstAt(free, s, n) && FirstAt(free, j, n)
    ensures s == j
  {
  }

  /** Freeing: the handle must name a slot in use; its frames go back and the slot is empty. */
  lemma FreeBufferAnswers(m: Memory, h: int)
    ensures var (t, r) := FreeBuffer(m, h);
            && (r == 0 <==> 0 < h <= |m.buffers| && m.buffers[h - 1].base != 0) && (r != 0 ==> r == -1 && t == m)
            && (r == 0 ==> t.buffers == m.buffers[h - 1 := Buffer(0, 0)] && t.owned == m.owned)
  {
  }

  /** A buffer freed right after it was allocated: the slot is empty and the same frames are free. */
  lemma FreedRightAfter(m: Memory, size: int)
    requires |m.free| <= 32768 && forall f :: f in m.free ==> Plain(f)
    requires AllocBuffer(m, size).1 != -1
    ensures var (t, h) := AllocBuffer(m, size);
            var (t1, r) := FreeBuffer(t, h);
            && r == 0 && 0 < h <= |m.buffers| && t1.buffers == m.buffers[h - 1 := Buffer(0, 0)] && t1.owned == m.owned
            && multiset(t1.free) == multiset(m.free)
  {
    var n := FramesFor(size);
    hide TakeRun, PutRun, FramesFor;
    var (rest, base) := TakeRun(m.free, n);
    TakeRunMoves(m.free, n);
    SpanCount(base.value, n);
    forall f | f in Span(base.value, n)
      ensures Plain(f)
    {
      assert f in multiset(Span(base.value, n));
      assert f in multiset(m.free);
    }
    PutRunAppends(rest, base.value, n);
  }
}
