/**
  The static channel pool as ipc.c keeps it: sixteen slots, each with a ring of eight messages
  and the two waiter pointers, over the run queues.  Every call is tied to the function of the
  same name in Ipc.
*/
module ChannelPool {
  import opened Numbers
  import opened S = Scheduling
  import opened Ipc
  import opened RunQueues

  datatype Slot = Slot(
    state: ChanState, handle: nat, head: nat, tail: nat, count: nat, ring: seq<Msg>, sender: Thread?, receiver: Thread?)

  /** The place j steps after the head of a ring. */
  function Index(head: nat, j: nat): (i: nat)
    ensures i < 8
  {
    (head + j) % 8
  }

  /** Indices in range, and the tail count places after the head. */
  ghost predicate RingValid(c: Slot) {
    |c.ring| == 8 && c.head < 8 && c.count <= 8 && c.tail == Index(c.head, c.count)
  }

  /** The messages in the ring, oldest first. */
  ghost function Contents(c: Slot): seq<Msg>
    requires RingValid(c)
  {
    seq(c.count, j requires 0 <= j < c.count => c.ring[Index(c.head, j)])
  }

  ghost function ChanOf(c: Slot): Chan<Thread>
    requires RingValid(c)
  {
    Chan(c.state, c.handle, Contents(c), Current(c.sender), Current(c.receiver))
  }

  function Push(c: Slot, m: Msg): Slot
    requires c.tail < |c.ring|
  {
    c.(ring := c.ring[c.tail := m], tail := (c.tail + 1) % 8, count := c.count + 1)
  }

  function Pop(c: Slot): Slot
    requires c.count > 0
  {
    c.(head := (c.head + 1) % 8, count := c.count - 1)
  }

  lemma PlacesApart(head: nat, j: nat, count: nat)
    requires head < 8 && j < count < 8
    ensures Index(head, j) != Index(head, count)
  {
  }

  lemma Wrap(n: nat)
    requires n < 16
    ensures n % 8 == if n < 8 then n else n - 8
  {
  }

  lemma NextPlace(head: nat, j: nat)
    requires head < 8 && j < 8
    ensures (Index(head, j) + 1) % 8 == Index(head, j + 1) && Index(Index(head, 1), j) == Index(head, j + 1)
  {
    Wrap(head + j);
    Wrap(head + 1);
  }

  lemma FirstPlace(head: nat)
    requires head < 8
    ensures Index(head, 0) == head
  {
  }

  /** Writing at the tail of a ring that is not full appends, wherever the ring wraps. */
  lemma PushAppends(c: Slot, m: Msg)
    requires RingValid(c) && c.count < 8
    ensures RingValid(Push(c, m)) && Contents(Push(c, m)) == Contents(c) + [m]
  {
    hide Index;
    var d := Push(c, m);
    NextPlace(c.head, c.count);
    forall j | 0 <= j < c.count
      ensures Contents(d)[j] == Contents(c)[j]
    {
      PlacesApart(c.head, j, c.count);
    }
  }

  /** The waiter pointers are no part of the ring. */
  lemma SameRing(c: Slot, d: Slot)
    requires RingValid(c) && d == c.(sender := d.sender, receiver := d.receiver)
    ensures RingValid(d) && Contents(d) == Contents(c)
  {
  }

  /** Moving the head of a ring that is not empty drops the oldest message. */
  lemma PopDrops(c: Slot)
    requires RingValid(c) && c.count > 0
    ensures RingValid(Pop(c)) && Contents(c) == [c.ring[c.head]] + Contents(Pop(c))
  {
    hide Index;
    var d := Pop(c);
    NextPlace(c.head, d.count);
    FirstPlace(c.head);
    NextPlace(c.head, 0);
    forall j | 0 <= j < d.count
      ensures Contents(d)[j] == Contents(c)[j + 1]
    {
      NextPlace(c.head, j);
    }
  }

  ghost predicate SlotValid(c: Slot, world: set<Thread>) {
    RingValid(c) && (c.sender != null ==> c.sender in world) && (c.receiver != null ==> c.receiver in world)
  }

  ghost predicate SlotsValid(s: seq<Slot>, world: set<Thread>) {
    |s| == 16 && forall i :: 0 <= i < 16 ==> SlotValid(s[i], world)
  }

  ghost function Chans(s: seq<Slot>, world: set<Thread>): (r: seq<Chan<Thread>>)
    requires SlotsValid(s, world)
    ensures |r| == 16
  {
    seq(16, i requires 0 <= i < 16 => ChanOf(s[i]))
  }

  lemma ChansPut(s: seq<Slot>, world: set<Thread>, i: nat, c: Slot)
    requires SlotsValid(s, world) && i < 16 && SlotValid(c, world)
    ensures SlotsValid(s[i := c], world) && Chans(s[i := c], world) == Chans(s, world)[i := ChanOf(c)]
  {
  }

  class Pool {
    const slots: array<Slot>
    const sched: Scheduler
    var generation: nat
    ghost var pending: map<Thread, Op>

    ghost predicate Valid()
      reads this, slots, sched, sched.heads, sched.tails, sched.counts, sched.world
    {
      slots.Length == 16 && sched.Valid() && SlotsValid(slots[..], sched.world)
    }

    ghost function View(): Kernel<Thread>
      reads this, slots, sched, sched.heads, sched.tails, sched.counts, sched.world
      requires Valid()
    {
      Kernel(sched.View(), Chans(slots[..], sched.world), generation, pending)
    }

    constructor (sched: Scheduler)
      requires sched.Valid()
      ensures Valid() && this.sched == sched && fresh(slots)
      ensures View() == Kernel(sched.View(), seq(16, _ => Chan(Free, 0, [], None, None)), 1, map[])
    {
      slots := new Slot[16](_ => Slot(Free, 0, 0, 0, 0, seq(8, _ => Msg(0, 0, [])), null, null));
      this.sched := sched;
      generation, pending := 1, map[];
      new;
      hide Scheduler.Valid, Scheduler.View;
      assert forall i :: 0 <= i < 16 ==> Contents(slots[i]) == [];
    }

    lemma IsTyped()
      requires Valid()
      ensures Typed(View())
    {
      sched.IsShaped();
      forall i | 0 <= i < 16
        ensures SlotIn(View().chans[i].sender, sched.View().state) &&
                SlotIn(View().chans[i].receiver, sched.View().state)
      {
        assert SlotValid(slots[i], sched.world);
      }
    }

    lemma ChanAt(i: nat)
      requires Valid() && i < 16
      ensures SlotValid(slots[i], sched.world) && View().chans[i] == ChanOf(slots[i])
      ensures slots[i].tail < |slots[i].ring| == 8 && slots[i].head < 8
      ensures |Contents(slots[i])| == slots[i].count <= 8
    {
    }

    /** The slot a handle names, 16 for none. */
    method FromHandle(h: nat) returns (i: nat)
      requires Valid()
      ensures if i == 16 then Find(View().chans, h).None? else i < 16 && Find(View().chans, h) == Some(i)
    {
      var low := h % 256;
      if h == 0 || low == 0 || low > 16 {
        return 16;
      }
      ChanAt(low - 1);
      return if slots[low - 1].handle != h then 16 else low - 1;
    }

    method IsOpen(h: nat) returns (open: bool)
      requires Valid()
      ensures open <==> Usable(View().chans, h) == OK
    {
      var i := FromHandle(h);
      if i == 16 {
        return false;
      }
      ChanAt(i);
      return slots[i].state == Open;
    }

    method Len(h: nat) returns (n: nat)
      requires Valid()
      ensures n == if Usable(View().chans, h) == OK then |View().chans[Find(View().chans, h).value].buf| else 0
    {
      var i := FromHandle(h);
      if i == 16 {
        return 0;
      }
      ChanAt(i);
      return if slots[i].state == Open then slots[i].count else 0;
    }

    method TrySend(h: nat, m: Msg) returns (r: Result)
      requires Valid()
      modifies slots, sched, sched.heads, sched.tails, sched.counts, sched.world
      ensures Valid() && old(Typed(View())) && (View(), r) == Ipc.TrySend(old(View()), h, m)
    {
      hide RingValid, Contents, SlotsValid, Chans, Scheduler.Valid, Scheduler.View, S.Unblock;
      IsTyped();
      var i := FromHandle(h);
      if i == 16 {
        return INVAL;
      }
      ChanAt(i);
      match slots[i].state {
        case Free => return INVAL;
        case Closed => return CLOSED;
        case Open =>
      }
      if slots[i].count >= 8 {
        return FULL;
      }
      PushAppends(slots[i], m);
      var waiter := slots[i].receiver;
      ghost var c := Push(slots[i], m).(receiver := null);
      SameRing(Push(slots[i], m), c);
      ChansPut(slots[..], sched.world, i, c);
      slots[i] := Push(slots[i], m);
      if waiter != null {
        slots[i] := slots[i].(receiver := null);
      }
      assert slots[..] == old(slots[..])[i := c];
      if waiter != null {
        var _ := sched.Unblock(waiter);
      }
      return OK;
    }

    method TryRecv(h: nat, filter: nat) returns (r: Result, out: Option<Msg>)
      requires Valid()
      modifies slots, sched, sched.heads, sched.tails, sched.counts, sched.world
      ensures Valid() && old(Typed(View())) && (View(), r, out) == Ipc.TryRecv(old(View()), h, filter)
    {
      hide RingValid, Contents, SlotsValid, Chans, Scheduler.Valid, Scheduler.View, S.Unblock;
      IsTyped();
      out := None;
      var i := FromHandle(h);
      if i == 16 {
        return INVAL, None;
      }
      ChanAt(i);
      match slots[i].state {
        case Free => return INVAL, None;
        case Closed => return CLOSED, None;
        case Open =>
      }
      if slots[i].count == 0 {
        return EMPTY, None;
      }
      PopDrops(slots[i]);
      var first := slots[i].ring[slots[i].head];
      if filter != 0 && first.kind != filter {
        return TYPE, None;
      }
      var waiter := slots[i].sender;
      ghost var c := Pop(slots[i]).(sender := null);
      SameRing(Pop(slots[i]), c);
      ChansPut(slots[..], sched.world, i, c);
      slots[i] := Pop(slots[i]);
      if waiter != null {
        slots[i] := slots[i].(sender := null);
      }
      assert slots[..] == old(slots[..])[i := c];
      if waiter != null {
        var _ := sched.Unblock(waiter);
      }
      return OK, Some(first);
    }

    /** Write one waiter pointer. */
    method SetWaiter(i: nat, sends: bool, w: Thread?)
      requires Valid() && i < 16 && (w != null ==> w in sched.world)
      modifies slots
      ensures Valid()
      ensures var k := old(View());
              View() == k.(chans := k.chans[i := if sends then k.chans[i].(sender := Current(w))
                                                 else k.chans[i].(receiver := Current(w))])
    {
      hide RingValid, Contents, SlotsValid, Chans, Scheduler.Valid, Scheduler.View;
      ChanAt(i);
      ghost var c := if sends then slots[i].(sender := w) else slots[i].(receiver := w);
      SameRing(slots[i], c);
      ChansPut(slots[..], sched.world, i, c);
      if sends {
        slots[i] := slots[i].(sender := w);
      } else {
        slots[i] := slots[i].(receiver := w);
      }
      assert slots[..] == old(slots[..])[i := c];
    }

    /** Give up the processor waiting on channel i; the registers are not modelled, so the
        method ends where the switch to the next thread happens. */
    method Suspend(i: nat, ghost op: Op, sends: bool) returns (r: Option<Result>)
      requires Valid() && i < 16 && sends == op.SendOp?
      modifies this`pending, slots, sched, sched.heads, sched.tails, sched.counts, sched.world
      ensures Valid() && old(Typed(View())) && (View(), r) == Ipc.Suspend(old(View()), i, op)
    {
      hide RingValid, Contents, SlotsValid, Chans, Scheduler.Valid, Scheduler.View, S.Block, S.Dequeue, S.Undo,
        S.SwitchTo, ChanOf, SlotValid;
      sched.CurrentIs();
      IsTyped();
      var current := sched.current;
      if current == null {
        return Some(AGAIN);
      }
      SetWaiter(i, sends, current);
      var blocked := sched.Block(current);
      if !blocked {
        SetWaiter(i, sends, null);
        assert View().chans == old(View()).chans[i := SetSlot(old(View()).chans[i], op, None)];
        return Some(AGAIN);
      }
      var next := sched.Dequeue();
      if next == null {
        SetWaiter(i, sends, null);
        assert View().chans == old(View()).chans[i := SetSlot(old(View()).chans[i], op, None)];
        sched.Undo(current);
        return Some(AGAIN);
      }
      pending := pending[current := op];
      sched.ContextSwitch(current, next);
      return None;
    }

    /** The call of the current thread returns. */
    ghost method Return()
      requires Valid()
      modifies this`pending
      ensures Valid() && View() == Done(old(View()))
    {
      hide RingValid, Contents, SlotsValid, Chans, Scheduler.Valid, Scheduler.View;
      sched.CurrentIs();
      if sched.current != null {
        pending := pending - {sched.current};
      }
    }

    /** One round of the blocking send: the call returns, or the caller has left the processor. */
    method SendRound(h: nat, m: Msg) returns (r: Option<Result>)
      requires Valid()
      modifies this`pending, slots, sched, sched.heads, sched.tails, sched.counts, sched.world
      ensures Valid() && old(Typed(View())) && (View(), r) == Ipc.Send(old(View()), h, m)
    {
      hide RingValid, Contents, SlotsValid, Chans, Scheduler.Valid, Scheduler.View, Ipc.Suspend, Done, S.Unblock;
      IsTyped();
      var i := FromHandle(h);
      var tried := TrySend(h, m);
      if tried != FULL {
        Return();
        return Some(tried);
      }
      r := Suspend(i, SendOp(h, m), true);
      if r.Some? {
        Return();
      }
    }

    /** One round of the blocking receive. */
    method RecvRound(h: nat, filter: nat) returns (r: Option<Result>, out: Option<Msg>)
      requires Valid()
      modifies this`pending, slots, sched, sched.heads, sched.tails, sched.counts, sched.world
      ensures Valid() && old(Typed(View())) && (View(), r, out) == Ipc.Recv(old(View()), h, filter)
    {
      hide RingValid, Contents, SlotsValid, Chans, Scheduler.Valid, Scheduler.View, Ipc.Suspend, Done, S.Unblock;
      IsTyped();
      var i := FromHandle(h);
      var tried, m := TryRecv(h, filter);
      if tried != EMPTY {
        Return();
        return Some(tried), m;
      }
      r := Suspend(i, RecvOp(h, filter), false);
      out := None;
      if r.Some? {
        Return();
      }
    }

    method Create() returns (h: nat)
      requires Valid() && 1 <= generation < 0x1_0000_0000
      modifies this`generation, slots
      ensures Valid() && 1 <= generation < 0x1_0000_0000 && (View(), h) == Ipc.Create(old(View()))
    {
      hide RingValid, Contents, SlotsValid, Chans, Scheduler.Valid, Scheduler.View, Handle;
      for i := 0 to 16
        invariant Valid() && View() == old(View()) && slots[..] == old(slots[..])
        invariant forall j :: 0 <= j < i ==> View().chans[j].state != Free
      {
        ChanAt(i);
        if slots[i].state == Free {
          h := Handle(generation, i);
          assert FreeSlot(View().chans, 0) == i;
          ghost var c := slots[i].(state := Open, handle := h, head := 0, tail := 0,
              count := 0, sender := null, receiver := null);
          EmptyRing(c);
          ChansPut(slots[..], sched.world, i, c);
          slots[i] := slots[i].(state := Open, handle := h, head := 0, tail := 0,
              count := 0, sender := null, receiver := null);
          assert slots[..] == old(slots[..])[i := c];
          generation := if generation + 1 == 0x1_0000_0000 then 1 else generation + 1;
          return;
        }
      }
      return 0;
    }

    method Destroy(h: nat) returns (r: Result)
      requires Valid()
      modifies slots
      ensures Valid() && (View(), r) == Ipc.Destroy(old(View()), h)
    {
      hide RingValid, Contents, SlotsValid, Chans, Scheduler.Valid, Scheduler.View;
      var i := FromHandle(h);
      if i == 16 {
        return INVAL;
      }
      ChanAt(i);
      if slots[i].state == Free {
        return INVAL;
      }
      ghost var c := slots[i].(state := Free, handle := 0, head := 0, tail := 0,
          count := 0, sender := null, receiver := null);
      EmptyRing(c);
      ChansPut(slots[..], sched.world, i, c);
      slots[i] := slots[i].(state := Free, handle := 0, head := 0, tail := 0,
          count := 0, sender := null, receiver := null);
      assert slots[..] == old(slots[..])[i := c];
      return OK;
    }
  }

  lemma EmptyRing(c: Slot)
    requires |c.ring| == 8 && c.head == 0 && c.tail == 0 && c.count == 0
    ensures RingValid(c) && Contents(c) == []
  {
  }
}
