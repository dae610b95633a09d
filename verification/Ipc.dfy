/**
  Bounded message channels and the blocking calls on them, as values.  A call that finds its
  channel full or empty leaves the processor and stays pending; the same thread retries it when
  it runs again.
*/
module Ipc {
  import opened Numbers
  import opened Scheduling

  datatype Msg = Msg(kind: nat, len: nat, payload: seq<nat>)

  datatype ChanState = Free | Open | Closed

  datatype Chan<T> = Chan(state: ChanState, handle: nat, buf: seq<Msg>, sender: Option<T>, receiver: Option<T>)

  datatype Result = OK | INVAL | FULL | EMPTY | AGAIN | TYPE | CLOSED

  /** A blocking call that has not returned yet. */
  datatype Op = SendOp(handle: nat, msg: Msg) | RecvOp(handle: nat, filter: nat)

  datatype Kernel<T> = Kernel(sched: Sched<T>, chans: seq<Chan<T>>, generation: nat, pending: map<T, Op>)

  /** Every thread that is mentioned exists. */
  ghost predicate Typed<T>(k: Kernel<T>) {
    && Shaped(k.sched) && |k.chans| == 16
    && (k.sched.current.Some? ==> k.sched.current.value in k.sched.state)
    && (forall i :: 0 <= i < 16 ==>
          SlotIn(k.chans[i].sender, k.sched.state) && SlotIn(k.chans[i].receiver, k.sched.state))
  }

  ghost predicate SlotIn<T>(w: Option<T>, state: map<T, ThreadState>) {
    w.Some? ==> w.value in state
  }

  /** The channel a handle names: its low byte picks the slot, the rest must match. */
  function Find<T>(chans: seq<Chan<T>>, h: nat): (i: Option<nat>)
    requires |chans| == 16
    ensures i.Some? ==> i.value < 16 && chans[i.value].handle == h && h % 256 == i.value + 1
  {
    var low := h % 256;
    if h == 0 || low == 0 || low > 16 || chans[low - 1].handle != h then None else Some(low - 1)
  }

  /** Wake the thread in a waiter slot, if there is one. */
  function Wake<T(==)>(s: Sched<T>, w: Option<T>): Sched<T>
    requires Shaped(s) && SlotIn(w, s.state)
  {
    if w.Some? then Unblock(s, w.value).0 else s
  }

  /** What is wrong with using a handle, or OK. */
  function Usable<T>(chans: seq<Chan<T>>, h: nat): Result
    requires |chans| == 16
  {
    var i := Find(chans, h);
    if i.None? then INVAL else match chans[i.value].state case Free => INVAL case Closed => CLOSED case Open => OK
  }

  function TrySend<T(==)>(k: Kernel<T>, h: nat, m: Msg): (Kernel<T>, Result)
    requires Typed(k)
  {
    var u := Usable(k.chans, h);
    if u != OK then (k, u)
    else
      var i := Find(k.chans, h).value;
      var c := k.chans[i];
      if |c.buf| >= 8 then (k, FULL)
      else
        (k.(chans := k.chans[i := c.(buf := c.buf + [m], receiver := None)], sched := Wake(k.sched, c.receiver)), OK)
  }

  predicate Accepts(filter: nat, m: Msg) {
    filter == 0 || m.kind == filter
  }

  function TryRecv<T(==)>(k: Kernel<T>, h: nat, filter: nat): (Kernel<T>, Result, Option<Msg>)
    requires Typed(k)
  {
    var u := Usable(k.chans, h);
    if u != OK then (k, u, None)
    else
      var i := Find(k.chans, h).value;
      var c := k.chans[i];
      if c.buf == [] then (k, EMPTY, None)
      else if !Accepts(filter, c.buf[0]) then (k, TYPE, None)
      else
        (k.(chans := k.chans[i := c.(buf := c.buf[1..], sender := None)], sched := Wake(k.sched, c.sender)), OK,
         Some(c.buf[0]))
  }

  function SetSlot<T>(c: Chan<T>, op: Op, w: Option<T>): Chan<T> {
    if op.SendOp? then c.(sender := w) else c.(receiver := w)
  }

  /** Leave the processor waiting on channel i, or give up with AGAIN.  No result means that the
      call is still pending. */
  function Suspend<T(==)>(k: Kernel<T>, i: nat, op: Op): (Kernel<T>, Option<Result>)
    requires Typed(k) && i < 16
  {
    if k.sched.current.None? then (k, Some(AGAIN))
    else
      var t := k.sched.current.value;
      var (s1, blocked) := Block(k.sched, t);
      if !blocked then (k.(chans := k.chans[i := SetSlot(k.chans[i], op, None)]), Some(AGAIN))
      else
        var (s2, next) := Dequeue(s1);
        if next.None? then
          (k.(chans := k.chans[i := SetSlot(k.chans[i], op, None)], sched := Undo(s2, t)), Some(AGAIN))
        else
          (k.(chans := k.chans[i := SetSlot(k.chans[i], op, Some(t))], sched := SwitchTo(s2, next.value),
              pending := k.pending[t := op]), None)
  }

  /** The current thread's call returned. */
  function Done<T>(k: Kernel<T>): Kernel<T> {
    if k.sched.current.Some? then k.(pending := k.pending - {k.sched.current.value}) else k
  }

  /** Suspend; a call that gives up has returned. */
  function Leave<T(==)>(k: Kernel<T>, i: nat, op: Op): (Kernel<T>, Option<Result>)
    requires Typed(k) && i < 16
  {
    var (k1, r) := Suspend(k, i, op);
    (if r.Some? then Done(k1) else k1, r)
  }

  /** One round of the loop of the blocking send. */
  function Send<T(==)>(k: Kernel<T>, h: nat, m: Msg): (Kernel<T>, Option<Result>)
    requires Typed(k)
  {
    var (k1, r) := TrySend(k, h, m);
    if r != FULL then (Done(k1), Some(r)) else Leave(k, Find(k.chans, h).value, SendOp(h, m))
  }

  /** One round of the loop of the blocking receive. */
  function Recv<T(==)>(k: Kernel<T>, h: nat, filter: nat): (Kernel<T>, Option<Result>, Option<Msg>)
    requires Typed(k)
  {
    var (k1, r, m) := TryRecv(k, h, filter);
    if r != EMPTY then (Done(k1), Some(r), m)
    else
      var (k2, r2) := Leave(k, Find(k.chans, h).value, RecvOp(h, filter));
      (k2, r2, None)
  }

  // ---- Creation and destruction ----

  /** The first free slot from i on, or 16. */
  function FreeSlot<T>(chans: seq<Chan<T>>, i: nat): (r: nat)
    requires i <= |chans| == 16
    ensures i <= r <= 16 && (forall j :: i <= j < r ==> chans[j].state != Free) && (r < 16 ==> chans[r].state == Free)
    decreases 16 - i, chans
  {
    if i == 16 || chans[i].state == Free then i else FreeSlot(chans, i + 1)
  }

  /** The generation in the upper 24 bits, the slot counted from one in the lower eight. */
  function Handle(generation: nat, i: nat): nat {
    generation % 0x100_0000 * 256 + i + 1
  }

  function NextGeneration(generation: nat): nat {
    if generation + 1 == 0x1_0000_0000 then 1 else generation + 1
  }

  function Create<T>(k: Kernel<T>): (Kernel<T>, nat)
    requires |k.chans| == 16
  {
    var i := FreeSlot(k.chans, 0);
    if i == 16 then (k, 0)
    else
      var h := Handle(k.generation, i);
      (k.(chans := k.chans[i := Chan(Open, h, [], None, None)], generation := NextGeneration(k.generation)), h)
  }

  function Destroy<T>(k: Kernel<T>, h: nat): (Kernel<T>, Result)
    requires |k.chans| == 16
  {
    var i := Find(k.chans, h);
    if i.None? || k.chans[i.value].state == Free then (k, INVAL)
    else (k.(chans := k.chans[i.value := Chan(Free, 0, [], None, None)]), OK)
  }
}
