/**
  What every step of the scheduler and the channels keeps: one RUNNING thread, the READY ones
  queued, and every BLOCKED thread in exactly one waiter slot, of a full channel when it sends
  and of an empty one when it receives.
*/
module IpcSafety {
  import opened Numbers
  import opened Scheduling
  import opened Ipc
  import SchedOrder

  /** The slot holds a BLOCKED thread whose pending call is the one the slot is for. */
  ghost predicate SenderIs<T>(c: Chan<T>, state: map<T, ThreadState>, pending: map<T, Op>) {
    c.sender.Some? ==>
      && c.sender.value in state && state[c.sender.value] == Blocked
      && c.sender.value in pending && pending[c.sender.value].SendOp? && pending[c.sender.value].handle == c.handle
      && c.state == Open && |c.buf| == 8
  }

  ghost predicate ReceiverIs<T>(c: Chan<T>, state: map<T, ThreadState>, pending: map<T, Op>) {
    c.receiver.Some? ==>
      && c.receiver.value in state && state[c.receiver.value] == Blocked
      && c.receiver.value in pending && pending[c.receiver.value].RecvOp? &&
         pending[c.receiver.value].handle == c.handle
      && c.state == Open && c.buf == []
  }

  ghost predicate ChanInv<T>(c: Chan<T>, i: nat, state: map<T, ThreadState>, pending: map<T, Op>) {
    && |c.buf| <= 8 && c.state != Closed
    && (c.state == Free ==> c == Chan(Free, 0, [], None, None))
    && (c.state == Open ==> c.handle % 256 == i + 1)
    && SenderIs(c, state, pending) && ReceiverIs(c, state, pending)
  }

  /** The pending call of t is registered in the slot it waits for. */
  ghost predicate Registered<T>(chans: seq<Chan<T>>, t: T, op: Op) {
    && |chans| == 16
    && var i := Find(chans, op.handle);
    i.Some? && (if op.SendOp? then chans[i.value].sender else chans[i.value].receiver) == Some(t)
  }

  ghost predicate ThreadInv<T>(chans: seq<Chan<T>>, state: map<T, ThreadState>, pending: map<T, Op>) {
    forall t :: t in state && state[t] == Blocked ==> t in pending && Registered(chans, t, pending[t])
  }

  ghost predicate ChansInv<T>(chans: seq<Chan<T>>, state: map<T, ThreadState>, pending: map<T, Op>) {
    |chans| == 16 && forall i :: 0 <= i < 16 ==> ChanInv(chans[i], i, state, pending)
  }

  ghost predicate Inv<T>(k: Kernel<T>) {
    SchedInv(k.sched) && ChansInv(k.chans, k.sched.state, k.pending) && ThreadInv(k.chans, k.sched.state, k.pending)
  }

  lemma InvTyped<T>(k: Kernel<T>)
    requires Inv(k)
    ensures Typed(k)
  {
    hide QueuesHold;
    forall i | 0 <= i < 16
      ensures SlotIn(k.chans[i].sender, k.sched.state) && SlotIn(k.chans[i].receiver, k.sched.state)
    {
      assert ChanInv(k.chans[i], i, k.sched.state, k.pending);
    }
    assert Shaped(k.sched) by {
      SchedShaped(k.sched);
    }
  }

  lemma SchedShaped<T>(s: Sched<T>)
    requires SchedInv(s)
    ensures Shaped(s)
  {
  }

  /** The thread is in one waiter slot: the sender's of a full channel or the receiver's of an
      empty one, and in no other slot at all. */
  ghost predicate WaitsOnce<T>(k: Kernel<T>, t: T)
    requires |k.chans| == 16
  {
    exists i ::
      && 0 <= i < 16
      && ((k.chans[i].sender == Some(t) && |k.chans[i].buf| == 8 && k.chans[i].receiver != Some(t))
          || (k.chans[i].receiver == Some(t) && k.chans[i].buf == [] && k.chans[i].sender != Some(t)))
      && forall j :: 0 <= j < 16 && j != i ==> k.chans[j].sender != Some(t) && k.chans[j].receiver != Some(t)
  }

  /** Each BLOCKED thread sits in exactly one of all the slots, and it is one for its call: as a
      sender of a full channel or as a receiver of an empty one. */
  lemma OneSlot<T>(k: Kernel<T>, t: T)
    requires Inv(k) && t in k.sched.state && k.sched.state[t] == Blocked
    ensures WaitsOnce(k, t)
  {
    hide SchedInv;
    var op := k.pending[t];
    assert Registered(k.chans, t, op);
    var i := Find(k.chans, op.handle).value;
    assert ChanInv(k.chans[i], i, k.sched.state, k.pending);
    forall j | 0 <= j < 16 && j != i
      ensures k.chans[j].sender != Some(t) && k.chans[j].receiver != Some(t)
    {
      assert ChanInv(k.chans[j], j, k.sched.state, k.pending);
    }
  }

  // ---- Waking ----

  lemma WakeKeeps<T>(s: Sched<T>, w: T)
    requires SchedInv(s) && w in s.state && s.state[w] == Blocked
    ensures Shaped(s) && Unblock(s, w).1 && SchedInv(Unblock(s, w).0)
    ensures Unblock(s, w).0.state == s.state[w := Ready] && Unblock(s, w).0.current == s.current
  {
    hide BandHolds, Queued;
    MakeReady(s, w);
    var s1 := Unblock(s, w).0;
    assert s1.state.Keys == s.state.Keys;
  }

  /** A channel without w in its slots does not mind w waking up. */
  lemma WakeChan<T>(c: Chan<T>, i: nat, state: map<T, ThreadState>, pending: map<T, Op>, w: T)
    requires ChanInv(c, i, state, pending) && c.sender != Some(w) && c.receiver != Some(w)
    ensures ChanInv(c, i, state[w := Ready], pending)
  {
  }

  /** A thread in a slot of one channel is in no slot of another. */
  lemma SlotsApart<T>(chans: seq<Chan<T>>, state: map<T, ThreadState>, pending: map<T, Op>, i: nat, j: nat, t: T)
    requires ChansInv(chans, state, pending) && i < 16 && j < 16 && i != j
    requires chans[i].sender == Some(t) || chans[i].receiver == Some(t)
    ensures chans[j].sender != Some(t) && chans[j].receiver != Some(t)
  {
    assert ChanInv(chans[i], i, state, pending) && ChanInv(chans[j], j, state, pending);
  }

  /** Channel i changed its buffer and woke w, the only thread in its slots. */
  lemma WakeOne<T>(chans: seq<Chan<T>>, state: map<T, ThreadState>, pending: map<T, Op>, i: nat, w: T, c: Chan<T>)
    requires ChansInv(chans, state, pending) && ThreadInv(chans, state, pending) && i < 16 && w in state
    requires (chans[i].sender == Some(w) && chans[i].receiver == None) ||
             (chans[i].receiver == Some(w) && chans[i].sender == None)
    requires c.state == chans[i].state && c.handle == chans[i].handle && |c.buf| <= 8 &&
             c.sender == None && c.receiver == None
    requires c.state == Open
    ensures ChansInv(chans[i := c], state[w := Ready], pending) && ThreadInv(chans[i := c], state[w := Ready], pending)
  {
    assert ChanInv(chans[i], i, state, pending);
    forall j | 0 <= j < 16 && j != i
      ensures ChanInv(chans[j], j, state[w := Ready], pending)
    {
      SlotsApart(chans, state, pending, i, j, w);
      WakeChan(chans[j], j, state, pending, w);
    }
    forall t | t in state[w := Ready] && state[w := Ready][t] == Blocked
      ensures t in pending && Registered(chans[i := c], t, pending[t])
    {
      assert Registered(chans, t, pending[t]);
    }
  }

  /** Channel i changed its buffer and nobody was waiting on it. */
  lemma WakeNone<T>(chans: seq<Chan<T>>, state: map<T, ThreadState>, pending: map<T, Op>, i: nat, c: Chan<T>)
    requires ChansInv(chans, state, pending) && ThreadInv(chans, state, pending) && i < 16
    requires chans[i].sender == None && chans[i].receiver == None && chans[i].state == Open
    requires c == chans[i].(buf := c.buf) && |c.buf| <= 8
    ensures ChansInv(chans[i := c], state, pending) && ThreadInv(chans[i := c], state, pending)
  {
    assert ChanInv(chans[i], i, state, pending);
    forall t | t in state && state[t] == Blocked
      ensures t in pending && Registered(chans[i := c], t, pending[t])
    {
      assert Registered(chans, t, pending[t]);
    }
  }

  // ---- Sending and receiving without blocking ----

  lemma ChanOf<T>(k: Kernel<T>, i: nat)
    requires Inv(k) && i < 16
    ensures |k.chans| == 16 && ChanInv(k.chans[i], i, k.sched.state, k.pending)
  {
  }

  /** A send that is accepted keeps the invariant, and a waiting receiver is READY afterwards. */
  lemma TrySendKeeps<T>(k: Kernel<T>, h: nat, m: Msg)
    requires Inv(k)
    ensures Typed(k) && Inv(TrySend(k, h, m).0)
    ensures var (k1, r) := TrySend(k, h, m);
            && k1.sched.current == k.sched.current && k1.pending == k.pending
            && (r != OK ==> k1 == k)
            && (r == OK ==>
                && Find(k.chans, h).Some?
                && var c := k.chans[Find(k.chans, h).value];
                k1.sched.state == if c.receiver.Some? then k.sched.state[c.receiver.value := Ready] else k.sched.state)
  {
    InvTyped(k);
    hide SchedInv, ChansInv, ThreadInv, Unblock;
    var (k1, r) := TrySend(k, h, m);
    if r == OK {
      var i := Find(k.chans, h).value;
      var c := k.chans[i];
      ChanOf(k, i);
      if c.receiver.Some? {
        WakeKeeps(k.sched, c.receiver.value);
        WakeOne(k.chans, k.sched.state, k.pending, i, c.receiver.value, k1.chans[i]);
      } else {
        WakeNone(k.chans, k.sched.state, k.pending, i, k1.chans[i]);
      }
    }
  }

  /** A receive keeps the invariant, and a waiting sender is READY afterwards. */
  lemma TryRecvKeeps<T>(k: Kernel<T>, h: nat, filter: nat)
    requires Inv(k)
    ensures Typed(k) && Inv(TryRecv(k, h, filter).0)
    ensures var (k1, r, m) := TryRecv(k, h, filter);
            && k1.sched.current == k.sched.current && k1.pending == k.pending
            && (r != OK ==> k1 == k)
            && (r == OK ==>
                && Find(k.chans, h).Some?
                && var c := k.chans[Find(k.chans, h).value];
                k1.sched.state == if c.sender.Some? then k.sched.state[c.sender.value := Ready] else k.sched.state)
  {
    InvTyped(k);
    hide SchedInv, ChansInv, ThreadInv, Unblock;
    var (k1, r, _) := TryRecv(k, h, filter);
    if r == OK {
      var i := Find(k.chans, h).value;
      var c := k.chans[i];
      ChanOf(k, i);
      if c.sender.Some? {
        WakeKeeps(k.sched, c.sender.value);
        WakeOne(k.chans, k.sched.state, k.pending, i, c.sender.value, k1.chans[i]);
      } else {
        WakeNone(k.chans, k.sched.state, k.pending, i, k1.chans[i]);
      }
    }
  }

  // ---- Blocking ----

  /** The call is one that channel i cannot serve now. */
  ghost predicate MustWait<T>(k: Kernel<T>, i: nat, op: Op) {
    && i < |k.chans| && k.chans[i].state == Open && k.chans[i].handle == op.handle
    && if op.SendOp? then |k.chans[i].buf| == 8 else k.chans[i].buf == []
  }

  ghost function Slot<T>(c: Chan<T>, op: Op): Option<T> {
    if op.SendOp? then c.sender else c.receiver
  }

  ghost predicate SomeReady<T>(s: Sched<T>) {
    exists t :: t in s.state && s.state[t] == Ready
  }

  /** What a blocking call needs: its waiter slot is free and somebody else can run. */
  ghost predicate CanWait<T>(k: Kernel<T>, i: nat, op: Op)
    requires i < |k.chans|
  {
    Slot(k.chans[i], op).None? && SomeReady(k.sched)
  }

  /** A channel without t and n in its slots does not mind t blocking and n running. */
  lemma SwitchChan<T>(c: Chan<T>, i: nat, state: map<T, ThreadState>, pending: map<T, Op>, t: T, n: T, op: Op)
    requires ChanInv(c, i, state, pending) && t in state && state[t] == Running && n in state && state[n] == Ready
    ensures ChanInv(c, i, state[t := Blocked][n := Running], pending[t := op])
  {
  }

  lemma SwitchAway<T>(chans: seq<Chan<T>>, state: map<T, ThreadState>, pending: map<T, Op>, i: nat, t: T, n: T, op: Op)
    requires ChansInv(chans, state, pending) && ThreadInv(chans, state, pending)
    requires i < 16 && chans[i].state == Open && chans[i].handle == op.handle && Slot(chans[i], op).None?
    requires if op.SendOp? then |chans[i].buf| == 8 else chans[i].buf == []
    requires t in state && state[t] == Running && n in state && state[n] == Ready
    ensures ChansInv(chans[i := SetSlot(chans[i], op, Some(t))], state[t := Blocked][n := Running], pending[t := op])
    ensures ThreadInv(chans[i := SetSlot(chans[i], op, Some(t))], state[t := Blocked][n := Running], pending[t := op])
  {
    var chans', state', pending' := chans[i := SetSlot(chans[i], op, Some(t))],
      state[t := Blocked][n := Running], pending[t := op];
    forall j | 0 <= j < 16
      ensures ChanInv(chans'[j], j, state', pending')
    {
      assert ChanInv(chans[j], j, state, pending);
      SwitchChan(chans[j], j, state, pending, t, n, op);
    }
    forall u | u in state' && state'[u] == Blocked
      ensures u in pending' && Registered(chans', u, pending'[u])
    {
      if u != t {
        assert Registered(chans, u, pending[u]);
      } else {
        assert ChanInv(chans[i], i, state, pending);
      }
    }
  }

  lemma SuspendKeeps<T>(k: Kernel<T>, i: nat, op: Op)
    requires Inv(k) && MustWait(k, i, op) && CanWait(k, i, op)
    ensures Typed(k) && i < 16
    ensures Inv(Suspend(k, i, op).0) && Suspend(k, i, op).1.None?
  {
    InvTyped(k);
    hide QueuesHold, ChansInv, ThreadInv, Dequeue, ChanInv;
    SwitchFromBlocked(k.sched);
    var t := k.sched.current.value;
    var (s2, n) := Dequeue(SetState(k.sched, t, Blocked));
    DequeueStates(SetState(k.sched, t, Blocked));
    SwitchAway(k.chans, k.sched.state, k.pending, i, t, n.value, op);
  }

  lemma DequeueStates<T>(s: Sched<T>)
    requires |s.queues| == 8
    ensures Dequeue(s).0.state == s.state && Dequeue(s).0.prio == s.prio && Dequeue(s).0.current == s.current
  {
  }

  /** The thread whose slot was taken over is BLOCKED and registered nowhere. */
  lemma Forgotten<T>(k: Kernel<T>, k': Kernel<T>, i: nat, op: Op, t: T)
    requires Inv(k) && MustWait(k, i, op) && Slot(k.chans[i], op) == Some(t) && |k'.chans| == 16
    requires k'.chans[i].handle == k.chans[i].handle && Slot(k'.chans[i], op) != Some(t)
    requires t in k.pending && t in k'.sched.state && k'.sched.state[t] == Blocked
    requires t in k'.pending ==> k'.pending[t] == k.pending[t]
    ensures !Inv(k')
  {
    ChanOf(k, i);
    if t in k'.pending {
      assert !Registered(k'.chans, t, k'.pending[t]);
    }
  }

  lemma SuspendForgets<T>(k: Kernel<T>, i: nat, op: Op)
    requires Inv(k) && MustWait(k, i, op) && Slot(k.chans[i], op).Some?
    ensures Typed(k) && i < 16 && !Inv(Leave(k, i, op).0)
  {
    InvTyped(k);
    hide QueuesHold, ChansInv, ThreadInv, Dequeue, Enqueue;
    ChanOf(k, i);
    var t := Slot(k.chans[i], op).value;
    var c := k.sched.current.value;
    var s1 := SetState(k.sched, c, Blocked);
    DequeueStates(s1);
    TakeStates(k.sched, c);
    EnqueueStates(SetState(Dequeue(s1).0, c, Ready), c);
    Forgotten(k, Leave(k, i, op).0, i, op, t);
  }

  lemma TakeStates<T>(s: Sched<T>, c: T)
    requires SchedInv(s) && c in s.state && s.state[c] == Running
    ensures |s.queues| == 8
    ensures var n := Dequeue(SetState(s, c, Blocked)).1; n.Some? ==> n.value in s.state && s.state[n.value] == Ready
  {
    LeaveQueues(s, c, Blocked);
    TakeNext(SetState(s, c, Blocked));
  }

  lemma EnqueueStates<T>(s: Sched<T>, t: T)
    requires |s.queues| == 8 && t in s.state && t in s.prio
    ensures Enqueue(s, t).0.state == s.state && Enqueue(s, t).0.prio == s.prio && Enqueue(s, t).0.current == s.current
  {
  }

  /** Nobody else can run: the caller ends up RUNNING and queued. */
  lemma UndoQueues<T>(k: Kernel<T>, i: nat, op: Op)
    requires Inv(k) && MustWait(k, i, op) && !SomeReady(k.sched)
    ensures Typed(k) && i < 16
    ensures var (k1, r) := Leave(k, i, op);
            var c := k.sched.current.value;
            && r == Some(AGAIN) && c in k1.sched.state && k1.sched.state[c] == Running
            && k.sched.prio[c] < 8 && |k1.sched.queues| == 8 && k1.sched.queues[k.sched.prio[c]] == [c] && !Inv(k1)
  {
    hide BandHolds, ChansInv, ThreadInv, ChanInv, Queued;
    InvTyped(k);
    var c := k.sched.current.value;
    NobodyQueued(k.sched);
    SchedOrder.NothingQueued(k.sched.queues, 0);
    var k1 := Leave(k, i, op).0;
    assert c in k1.sched.queues[k.sched.prio[c]];
    RunningQueued(k1.sched, c);
  }

  lemma FirstIn<T>(q: seq<T>)
    ensures q == [] || q[0] in q
  {
  }

  lemma NobodyQueued<T>(s: Sched<T>)
    requires QueuesHold(s) && !SomeReady(s)
    ensures forall j :: 0 <= j < 8 ==> s.queues[j] == []
  {
    forall j | 0 <= j < 8
      ensures s.queues[j] == []
    {
      assert BandHolds(s.queues[j], s.state, s.prio, j);
      FirstIn(s.queues[j]);
    }
  }

  lemma RunningQueued<T>(s: Sched<T>, c: T)
    requires |s.queues| == 8 && c in s.prio && c in s.state && s.state[c] == Running && s.prio[c] < 8
    requires c in s.queues[s.prio[c]]
    ensures !SchedInv(s)
  {
  }

  /** A call that has to wait keeps the invariant if and only if its slot is free and another
      thread is READY. */
  lemma WaitKeepsIff<T>(k: Kernel<T>, i: nat, op: Op)
    requires Inv(k) && MustWait(k, i, op)
    ensures Typed(k) && i < 16
    ensures Inv(Leave(k, i, op).0) <==> CanWait(k, i, op)
  {
    hide Inv;
    if !SomeReady(k.sched) {
      UndoQueues(k, i, op);
    } else if Slot(k.chans[i], op).Some? {
      SuspendForgets(k, i, op);
    } else {
      SuspendKeeps(k, i, op);
    }
  }

  /** The current thread is in no slot, so its call may return. */
  lemma DoneKeeps<T>(k: Kernel<T>)
    requires Inv(k)
    ensures Inv(Done(k))
  {
    hide QueuesHold;
    forall i | 0 <= i < 16
      ensures ChanInv(k.chans[i], i, k.sched.state, Done(k).pending)
    {
      assert ChanInv(k.chans[i], i, k.sched.state, k.pending);
    }
  }

  // ---- When the condition fails ----

  const PING := Msg(1, 0, [])

  /** Thread 0 runs; channel 0 is full; thread 1 is READY if wanted, else BLOCKED sending on it. */
  ghost function Crowded(ready: bool): Kernel<nat> {
    Kernel(
      Sched([if ready then [1] else []] + seq(7, _ => []),
            map[0 := Running, 1 := if ready then Ready else Blocked, 2 := if ready then Blocked else Init],
            map[0 := 0, 1 := 0, 2 := 0], map[0 := 10, 1 := 10, 2 := 10], Some(0), false, if ready then Busy else Idle),
      [Chan(Open, 257, seq(8, _ => PING), Some(if ready then 2 else 1), None)] +
      seq(15, _ => Chan(Free, 0, [], None, None)),
      2,
      if ready then map[2 := SendOp(257, PING)] else map[1 := SendOp(257, PING)])
  }

  lemma CrowdedBand(ready: bool, i: nat)
    requires i < 8
    ensures var s := Crowded(ready).sched; BandHolds(s.queues[i], s.state, s.prio, i)
  {
  }

  lemma CrowdedSched(ready: bool)
    ensures SchedInv(Crowded(ready).sched)
  {
    hide BandHolds;
    var s := Crowded(ready).sched;
    forall i | 0 <= i < 8
      ensures BandHolds(s.queues[i], s.state, s.prio, i)
    {
      CrowdedBand(ready, i);
    }
    assert s.state.Keys == {0, 1, 2};
  }

  lemma CrowdedInv(ready: bool)
    ensures Inv(Crowded(ready))
  {
    hide SchedInv;
    CrowdedSched(ready);
  }

  lemma CrowdedFull(ready: bool)
    ensures var k := Crowded(ready);
            && Typed(k) && Find(k.chans, 257) == Some(0) && MustWait(k, 0, SendOp(257, PING))
            && Send(k, 257, PING) == Leave(k, 0, SendOp(257, PING))
  {
    hide Inv, Leave;
    CrowdedInv(ready);
    InvTyped(Crowded(ready));
  }

  /** A second sender on a full channel takes over the waiter slot: the first one stays BLOCKED
      with nobody left to wake it. */
  lemma SecondSenderLosesFirst()
    ensures var k := Crowded(true);
            && Inv(k) && Typed(k)
            && var (k1, r) := Send(k, 257, PING);
            r.None? && !Inv(k1) && 2 in k1.sched.state && k1.sched.state[2] == Blocked
            && forall i :: 0 <= i < |k1.chans| ==> k1.chans[i].sender != Some(2) && k1.chans[i].receiver != Some(2)
  {
    hide Inv, Send;
    var k := Crowded(true);
    CrowdedInv(true);
    CrowdedFull(true);
    WaitKeepsIff(k, 0, SendOp(257, PING));
  }

  /** With nobody READY the call returns AGAIN and leaves its caller RUNNING and queued. */
  lemma NobodyReadyQueuesCaller()
    ensures var k := Crowded(false);
            && Inv(k) && Typed(k)
            && var (k1, r) := Send(k, 257, PING);
            r == Some(AGAIN) && !Inv(k1) && 0 in k1.sched.state && k1.sched.state[0] == Running
            && |k1.sched.queues| == 8 && k1.sched.queues[0] == [0]
  {
    hide Inv, Send, Leave;
    var k := Crowded(false);
    CrowdedInv(false);
    CrowdedFull(false);
    UndoQueues(k, 0, SendOp(257, PING));
  }
}
