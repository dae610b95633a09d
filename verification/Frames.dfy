/**
  Physical frames: a stack of free frames, buffers of consecutive frames taken from it, and
  frames held one by one.
*/
module Frames {
  import opened Numbers

  /** The address i frames after base, in 64 bits. */
  function Ahead(base: nat, i: nat): nat {
    (base + i * 4096) % 0x1_0000_0000_0000_0000
  }

  /** The count frames from place start on follow each other in ascending order. */
  ghost predicate Ascends(free: seq<nat>, start: nat, count: nat) {
    start + count <= |free| && forall i :: 1 <= i < count ==> free[start + i] == Ahead(free[start], i)
  }

  /** The first place with such a run, if there is one. */
  ghost function FirstRun(free: seq<nat>, count: nat, start: nat): (r: Option<nat>)
    requires count > 0
    ensures r.Some? ==> start <= r.value && Ascends(free, r.value, count)
    ensures r.Some? ==> forall j :: start <= j < r.value ==> !Ascends(free, j, count)
    ensures r.None? ==> forall j :: start <= j ==> !Ascends(free, j, count)
    decreases |free| - start
  {
    if start + count > |free| then None
    else if Ascends(free, start, count) then Some(start)
    else FirstRun(free, count, start + 1)
  }

  /** What is left of the stack, and the base of the frames taken. */
  ghost function TakeRun(free: seq<nat>, count: nat): (seq<nat>, Option<nat>) {
    if count == 0 then (free, None)
    else
      match FirstRun(free, count, 0)
      case None => (free, None)
      case Some(s) => (free[..s] + free[s + count..], Some(free[s]))
  }

  function PutFrame(free: seq<nat>, f: nat): seq<nat> {
    if f == 0 || |free| >= 32768 then free else free + [f]
  }

  /** Give back count frames from base on, one by one. */
  function PutRun(free: seq<nat>, base: nat, count: nat): seq<nat> {
    if count == 0 then free else PutFrame(PutRun(free, base, count - 1), Ahead(base, count - 1))
  }

  /** Contiguous allocation fails exactly when nothing is asked for or no run is that long. */
  lemma FailsIff(free: seq<nat>, count: nat)
    ensures TakeRun(free, count).1.None? <==> count == 0 || forall s :: !Ascends(free, s, count)
  {
  }

  // ---- Buffers ----

  datatype Buffer = Buffer(base: nat, frames: nat)

  const NO_BUFFER := Buffer(0, 0)

  datatype Memory = Memory(free: seq<nat>, buffers: seq<Buffer>, owned: set<nat>)

  /** The frames a buffer covers. */
  function Span(base: nat, count: nat): seq<nat> {
    seq(count, i requires 0 <= i < count => base + i * 4096)
  }

  function EmptyBuffer(buffers: seq<Buffer>, i: nat): (r: nat)
    requires i <= |buffers|
    ensures i <= r <= |buffers| && (forall j :: i <= j < r ==> buffers[j].base != 0) &&
            (r < |buffers| ==> buffers[r].base == 0)
    decreases |buffers| - i
  {
    if i == |buffers| || buffers[i].base == 0 then i else EmptyBuffer(buffers, i + 1)
  }

  function FramesFor(size: int): nat
    requires size > 0
  {
    (size + 4095) / 4096
  }

  /** The handle is the place counted from one, or -1. */
  ghost function AllocBuffer(m: Memory, size: int): (Memory, int)
  {
    if size <= 0 then (m, -1)
    else
      var n := FramesFor(size);
      var (free, base) := TakeRun(m.free, n);
      if base.None? || base.value == 0 then (m.(free := free), -1)
      else
        var i := EmptyBuffer(m.buffers, 0);
        if i == |m.buffers| then (m.(free := PutRun(free, base.value, n)), -1)
        else (m.(free := free, buffers := m.buffers[i := Buffer(base.value, n)]), i + 1)
  }

  function FreeBuffer(m: Memory, handle: int): (Memory, int) {
    if handle <= 0 || handle > |m.buffers| || m.buffers[handle - 1].base == 0 then (m, -1)
    else
      var b := m.buffers[handle - 1];
      (m.(free := PutRun(m.free, b.base, b.frames), buffers := m.buffers[handle - 1 := NO_BUFFER]), 0)
  }

  function AllocFrame(m: Memory): (Memory, Option<nat>) {
    if m.free == [] then (m, None)
    else
      var f := m.free[|m.free| - 1];
      (m.(free := m.free[..|m.free| - 1], owned := m.owned + {f}), Some(f))
  }

  /** Giving back a frame that is held. */
  function FreeFrame(m: Memory, f: nat): Memory {
    m.(free := PutFrame(m.free, f), owned := m.owned - {f})
  }

  // ---- Conservation ----

  function BufferFrames(b: Buffer): multiset<nat> {
    if b.base == 0 then multiset{} else multiset(Span(b.base, b.frames))
  }

  function AllBuffers(buffers: seq<Buffer>, k: nat): multiset<nat>
    requires k <= |buffers|
    decreases |buffers| - k
  {
    if k == |buffers| then multiset{} else BufferFrames(buffers[k]) + AllBuffers(buffers, k + 1)
  }

  /** Every frame of the machine: free, in a buffer, or held singly. */
  function Frames(m: Memory): multiset<nat> {
    multiset(m.free) + AllBuffers(m.buffers, 0) + multiset(m.owned)
  }

  /** Aligned, not at address zero, and inside 64 bits. */
  predicate Plain(f: nat) {
    0 < f < 0x1_0000_0000_0000_0000 && f % 4096 == 0
  }

  /** The registered frames, each once, are all accounted for. */
  ghost predicate Owned(m: Memory, all: set<nat>) {
    && |all| <= 32768 && (forall f :: f in all ==> Plain(f))
    && Frames(m) == multiset(all)
  }

  lemma NoWrap(f: nat)
    requires Plain(f)
    ensures f + 4096 <= 0x1_0000_0000_0000_0000
  {
  }

  lemma Inside64(v: nat)
    requires v <= 0x1_0000_0000_0000_0000 && v % 0x1_0000_0000_0000_0000 != 0
    ensures v % 0x1_0000_0000_0000_0000 == v
  {
  }

  /** An ascending run of plain frames does not wrap: it is a span. */
  lemma {:induction false} RunIsSpan(free: seq<nat>, s: nat, count: nat, i: nat)
    requires Ascends(free, s, count) && i < count && forall f :: f in free ==> Plain(f)
    ensures free[s + i] == free[s] + i * 4096
  {
    if i > 0 {
      RunIsSpan(free, s, count, i - 1);
      assert free[s + (i - 1)] in free && free[s + i] in free;
      NoWrap(free[s + (i - 1)]);
      var v := free[s] + i * 4096;
      assert v == free[s + (i - 1)] + 4096;
      assert free[s + i] == Ahead(free[s], i) == v % 0x1_0000_0000_0000_0000;
      Inside64(v);
    } else {
      assert free[s] in free;
    }
  }

  lemma TakenIsSpan(free: seq<nat>, s: nat, count: nat)
    requires count > 0 && Ascends(free, s, count) && forall f :: f in free ==> Plain(f)
    ensures free[s..s + count] == Span(free[s], count)
  {
    forall i | 0 <= i < count
      ensures free[s..s + count][i] == Span(free[s], count)[i]
    {
      RunIsSpan(free, s, count, i);
    }
  }

  lemma MiddleOut(free: seq<nat>, s: nat, count: nat)
    requires 0 < count && s + count <= |free|
    ensures free[s] in free && |free[..s] + free[s + count..]| + count == |free|
    ensures multiset(free) == multiset(free[..s] + free[s + count..]) + multiset(free[s..s + count])
  {
    var a, b, c := free[..s], free[s..s + count], free[s + count..];
    assert free == a + (b + c);
  }

  lemma RunInside(free: seq<nat>, s: nat, count: nat)
    requires Ascends(free, s, count)
    ensures s + count <= |free|
  {
  }

  /** Taking a run moves its frames out of the stack and keeps the order of the rest. */
  lemma TakeRunMoves(free: seq<nat>, count: nat)
    requires forall f :: f in free ==> Plain(f)
    ensures var (rest, base) := TakeRun(free, count);
            if base.None? then rest == free
            else
              && base.value in free && |rest| + count == |free|
              && multiset(free) == multiset(rest) + multiset(Span(base.value, count))
  {
    hide Ascends, Span, Plain;
    var (rest, base) := TakeRun(free, count);
    if base.Some? {
      var s := FirstRun(free, count, 0).value;
      TakenIsSpan(free, s, count);
      RunInside(free, s, count);
      MiddleOut(free, s, count);
    }
  }

  lemma SpanGrows(base: nat, n: nat)
    ensures Span(base, n + 1) == Span(base, n) + [base + n * 4096]
  {
  }

  /** Frames given back with room to spare are all on the stack, in order. */
  lemma {:induction false} PutRunAppends(free: seq<nat>, base: nat, n: nat)
    requires |free| + n <= 32768 && forall f :: f in Span(base, n) ==> Plain(f)
    ensures PutRun(free, base, n) == free + Span(base, n)
  {
    if n > 0 {
      hide Span, Plain;
      SpanGrows(base, n - 1);
      var f := base + (n - 1) * 4096;
      assert f in Span(base, n);
      PutRunAppends(free, base, n - 1);
      PlainAhead(base, n - 1);
    } else {
      assert Span(base, n) == [];
    }
  }

  lemma PlainAhead(base: nat, i: nat)
    requires Plain(base + i * 4096)
    ensures Ahead(base, i) == base + i * 4096 != 0
  {
    Inside64(base + i * 4096);
  }

  /** What replacing one buffer does to the number of owners of a frame. */
  lemma {:induction false} BuffersUpdate(buffers: seq<Buffer>, i: nat, b: Buffer, k: nat, f: nat)
    requires i < |buffers| && k <= |buffers|
    ensures AllBuffers(buffers[i := b], k)[f] + (if k <= i then BufferFrames(buffers[i])[f] else 0) ==
            AllBuffers(buffers, k)[f] + if k <= i then BufferFrames(b)[f] else 0
    decreases |buffers| - k
  {
    hide BufferFrames;
    if k < |buffers| {
      BuffersUpdate(buffers, i, b, k + 1, f);
    }
  }

  lemma {:induction false} BufferWithin(buffers: seq<Buffer>, i: nat, k: nat)
    requires k <= i < |buffers|
    ensures BufferFrames(buffers[i]) <= AllBuffers(buffers, k)
    decreases |buffers| - k
  {
    hide BufferFrames;
    if k < i {
      BufferWithin(buffers, i, k + 1);
    }
  }

  // ---- Every operation keeps every frame ----

  lemma {:induction false} SetCount(a: set<nat>)
    ensures |multiset(a)| == |a|
  {
    if a != {} {
      var x :| x in a;
      SetCount(a - {x});
      assert multiset(a) == multiset(a - {x}) + multiset{x};
    }
  }

  /** What is free is plain, fits the stack, and is held by nobody else. */
  lemma FreeFacts(m: Memory, all: set<nat>)
    requires Owned(m, all)
    ensures |m.free| + |AllBuffers(m.buffers, 0)| + |m.owned| <= 32768
    ensures forall f :: f in m.free ==> Plain(f) && f !in m.owned
    ensures forall f :: f in AllBuffers(m.buffers, 0) ==> Plain(f) && f !in m.owned && f !in m.free
    ensures forall f :: f in m.owned ==> Plain(f)
  {
    SetCount(all);
    SetCount(m.owned);
    assert |multiset(m.free)| == |m.free|;
    var t := Frames(m);
    forall f
      ensures t[f] == multiset(m.free)[f] + AllBuffers(m.buffers, 0)[f] + multiset(m.owned)[f] &&
              t[f] <= 1 && (t[f] > 0 ==> f in all)
    {
    }
    assert forall f :: f in m.free ==> multiset(m.free)[f] > 0;
  }

  lemma AllocFrameKeeps(m: Memory, all: set<nat>)
    requires Owned(m, all)
    ensures Owned(AllocFrame(m).0, all)
  {
    FreeFacts(m, all);
    if m.free != [] {
      var n := |m.free| - 1;
      var f := m.free[n];
      assert m.free == m.free[..n] + [f];
      assert multiset(m.owned + {f}) == multiset(m.owned) + multiset{f};
    }
  }

  /** A frame that is held goes back: it is never dropped. */
  lemma FreeFrameKeeps(m: Memory, all: set<nat>, f: nat)
    requires Owned(m, all) && f in m.owned
    ensures Owned(FreeFrame(m, f), all) && FreeFrame(m, f).free == m.free + [f]
  {
    FreeFacts(m, all);
    assert |m.owned| > 0 by {
      assert f in m.owned;
    }
    assert multiset(m.owned) == multiset(m.owned - {f}) + multiset{f};
  }

  lemma FreeBufferKeeps(m: Memory, all: set<nat>, handle: int)
    requires Owned(m, all)
    ensures Owned(FreeBuffer(m, handle).0, all)
    ensures FreeBuffer(m, handle).1 == 0 ==>
              0 < handle <= |m.buffers| &&
              FreeBuffer(m, handle).0.free == m.free + Span(m.buffers[handle - 1].base, m.buffers[handle - 1].frames)
  {
    hide Span, Plain, PutRun, AllBuffers;
    if FreeBuffer(m, handle).1 == 0 {
      var b := m.buffers[handle - 1];
      var span := Span(b.base, b.frames);
      FreeFacts(m, all);
      BufferWithin(m.buffers, handle - 1, 0);
      assert forall f :: f in span ==> f in multiset(span);
      SpanCount(b.base, b.frames);
      assert |multiset(span)| == |span| <= |AllBuffers(m.buffers, 0)| by {
        Fewer(multiset(span), AllBuffers(m.buffers, 0));
      }
      PutRunAppends(m.free, b.base, b.frames);
      BufferGone(m, handle - 1);
    }
  }

  lemma SpanCount(base: nat, n: nat)
    ensures |Span(base, n)| == n
  {
  }

  lemma BufferGone(m: Memory, i: nat)
    requires i < |m.buffers| && m.buffers[i].base != 0
    ensures var b := m.buffers[i];
            Frames(m.(free := m.free + Span(b.base, b.frames), buffers := m.buffers[i := NO_BUFFER])) == Frames(m)
  {
    hide Span;
    var b := m.buffers[i];
    var m' := m.(free := m.free + Span(b.base, b.frames), buffers := m.buffers[i := NO_BUFFER]);
    forall f
      ensures Frames(m')[f] == Frames(m)[f]
    {
      BuffersUpdate(m.buffers, i, NO_BUFFER, 0, f);
    }
  }

  lemma BufferMade(m: Memory, rest: seq<nat>, i: nat, base: nat, n: nat)
    requires i < |m.buffers| && m.buffers[i].base == 0 && base != 0
    requires multiset(m.free) == multiset(rest) + multiset(Span(base, n))
    ensures Frames(m.(free := rest, buffers := m.buffers[i := Buffer(base, n)])) == Frames(m)
  {
    hide Span;
    var m' := m.(free := rest, buffers := m.buffers[i := Buffer(base, n)]);
    forall f
      ensures Frames(m')[f] == Frames(m)[f]
    {
      BuffersUpdate(m.buffers, i, Buffer(base, n), 0, f);
      assert multiset(m.free)[f] == multiset(rest)[f] + multiset(Span(base, n))[f];
    }
  }

  lemma Fewer(a: multiset<nat>, b: multiset<nat>)
    requires a <= b
    ensures |a| <= |b|
  {
    assert b == a + (b - a);
  }

  lemma AllocBufferKeeps(m: Memory, all: set<nat>, size: int)
    requires Owned(m, all)
    ensures Owned(AllocBuffer(m, size).0, all)
  {
    if size > 0 {
      var n := FramesFor(size);
      FreeFacts(m, all);
      TakeRunMoves(m.free, n);
      var (free, base) := TakeRun(m.free, n);
      if base.Some? {
        var span := Span(base.value, n);
        var i := EmptyBuffer(m.buffers, 0);
        if i == |m.buffers| {
          assert forall f :: f in span ==> f in multiset(span) && f in multiset(m.free);
          PutRunAppends(free, base.value, n);
        } else {
          BufferMade(m, free, i, base.value, n);
        }
      }
    }
  }

  // ---- Every run ----

  datatype Event = GetFrame | DropFrame(frame: nat) | GetBuffer(size: int) | DropBuffer(handle: int)

  ghost function Step(m: Memory, e: Event): Memory {
    match e
    case GetFrame => AllocFrame(m).0
    case DropFrame(f) => FreeFrame(m, f)
    case GetBuffer(size) => AllocBuffer(m, size).0
    case DropBuffer(handle) => FreeBuffer(m, handle).0
  }

  /** Only frames that are held are given back. */
  ghost predicate LegalRun(m: Memory, es: seq<Event>)
    decreases |es|
  {
    es == [] || ((es[0].DropFrame? ==> es[0].frame in m.owned) && LegalRun(Step(m, es[0]), es[1..]))
  }

  ghost function Final(m: Memory, es: seq<Event>): Memory
    decreases |es|
  {
    if es == [] then m else Final(Step(m, es[0]), es[1..])
  }

  lemma {:induction false} RunKeeps(m: Memory, all: set<nat>, es: seq<Event>)
    requires Owned(m, all) && LegalRun(m, es)
    ensures Owned(Final(m, es), all)
    decreases |es|
  {
    hide Owned, AllocFrame, FreeFrame, AllocBuffer, FreeBuffer;
    if es != [] {
      match es[0] {
        case GetFrame => AllocFrameKeeps(m, all);
        case DropFrame(f) => FreeFrameKeeps(m, all, f);
        case GetBuffer(size) => AllocBufferKeeps(m, all, size);
        case DropBuffer(handle) => FreeBufferKeeps(m, all, handle);
      }
      RunKeeps(Step(m, es[0]), all, es[1..]);
    }
  }

  /** No frame is in two buffers. */
  lemma BuffersApart(m: Memory, all: set<nat>, i: nat, j: nat, f: nat)
    requires Owned(m, all) && i < |m.buffers| && j < |m.buffers| && i != j
    ensures f !in BufferFrames(m.buffers[i]) || f !in BufferFrames(m.buffers[j])
  {
    hide BufferFrames;
    var others := m.buffers[i := NO_BUFFER];
    BuffersUpdate(m.buffers, i, NO_BUFFER, 0, f);
    BufferWithin(others, j, 0);
    NoFrames();
    var t := Frames(m);
    assert t[f] <= 1;
    assert t[f] >= AllBuffers(m.buffers, 0)[f] >= BufferFrames(m.buffers[i])[f] + BufferFrames(m.buffers[j])[f];
  }

  lemma NoFrames()
    ensures BufferFrames(NO_BUFFER) == multiset{}
  {
  }

  /** In every run the stack, the buffers and the single holders share out exactly the registered
      frames, each to one of them; so buffers are disjoint spans and the stack never overflows. */
  lemma EveryRun(all: set<nat>, m: Memory, es: seq<Event>)
    requires |all| <= 32768 && (forall f :: f in all ==> Plain(f))
    requires multiset(m.free) == multiset(all) && m.owned == {} && LegalRun(m, es)
    requires forall i :: 0 <= i < |m.buffers| ==> m.buffers[i] == NO_BUFFER
    ensures var t := Final(m, es);
            && multiset(t.free) + AllBuffers(t.buffers, 0) + multiset(t.owned) == multiset(all)
            && |t.free| <= 32768
            && forall i, j, f :: 0 <= i < j < |t.buffers| ==>
                 f !in BufferFrames(t.buffers[i]) || f !in BufferFrames(t.buffers[j])
  {
    hide LegalRun, Final, BufferFrames;
    NothingHeld(m.buffers, 0);
    RunKeeps(m, all, es);
    var t := Final(m, es);
    FreeFacts(t, all);
    forall i, j, f | 0 <= i < j < |t.buffers|
      ensures f !in BufferFrames(t.buffers[i]) || f !in BufferFrames(t.buffers[j])
    {
      BuffersApart(t, all, i, j, f);
    }
  }

  lemma {:induction false} NothingHeld(buffers: seq<Buffer>, k: nat)
    requires k <= |buffers| && forall i :: 0 <= i < |buffers| ==> buffers[i] == NO_BUFFER
    ensures AllBuffers(buffers, k) == multiset{}
    decreases |buffers| - k
  {
    if k < |buffers| {
      NothingHeld(buffers, k + 1);
    }
  }
}
