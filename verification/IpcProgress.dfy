/**
  A blocking call leaves the processor at most once: when its thread is woken the channel can serve
  it, and stays able to until the thread runs again, as long as nobody else sends or receives on
  the channel meanwhile.
*/
module IpcProgress {
  import opened Numbers
  import opened Scheduling
  import opened Ipc
  import opened IpcSafety
  import opened IpcRuns

  /** The channel of the call, if it still exists, has room for it or a message for it. */
  ghost predicate Served<T>(chans: seq<Chan<T>>, op: Op) {
    |chans| == 16 && (Usable(chans, op.handle) == OK ==>
      var c := chans[Find(chans, op.handle).value]; if op.SendOp? then |c.buf| < 8 else c.buf != [])
  }

  /** Every pending call whose thread is not BLOCKED can be served. */
  ghost predicate Woken<T>(k: Kernel<T>) {
    forall t :: t in k.pending && t in k.sched.state && k.sched.state[t] != Blocked ==> Served(k.chans, k.pending[t])
  }

  ghost predicate SendsOn(op: Op, h: nat) {
    op.SendOp? && op.handle == h
  }

  ghost predicate RecvsOn(op: Op, h: nat) {
    op.RecvOp? && op.handle == h
  }

  /** A call without blocking does not interfere with a pending call of the same kind on its
      channel, and no new channel takes the name of a pending call's. */
  ghost predicate Polite<T>(k: Kernel<T>, e: Event)
    requires |k.chans| == 16
  {
    match e
    case SendNow(h, _) => forall t :: t in k.pending ==> !SendsOn(k.pending[t], h)
    case RecvNow(h, _) => forall t :: t in k.pending ==> !RecvsOn(k.pending[t], h)
    case Create => forall t :: t in k.pending ==> k.pending[t].handle != Ipc.Create(k).1
    case _ => true
  }

  // ---- Channels ----

  /** Changing one channel but not its name changes no other channel's service. */
  lemma ServedElsewhere<T>(chans: seq<Chan<T>>, i: nat, c: Chan<T>, op: Op)
    requires |chans| == 16 && i < 16 && c.handle == chans[i].handle && c.state == chans[i].state && Served(chans, op)
    requires op.handle == chans[i].handle ==> (if op.SendOp? then |c.buf| < 8 else c.buf != []) || c.buf == chans[i].buf
    ensures Served(chans[i := c], op)
  {
  }

  /** A channel that gained or lost a message serves whoever it wakes, and everybody who could be
      served before and does not do the same. */
  lemma WakeServes<T>(chans: seq<Chan<T>>, state: map<T, ThreadState>, pending: map<T, Op>, i: nat, c: Chan<T>,
                      send: bool, t: T)
    requires |chans| == 16 && i < 16 && ChanInv(chans[i], i, state, pending) && t in state && t in pending
    requires c.handle == chans[i].handle && c.state == chans[i].state && (if send then c.buf != [] else |c.buf| < 8)
    requires !(if send then SendsOn(pending[t], c.handle) else RecvsOn(pending[t], c.handle))
    requires if state[t] == Blocked then Some(t) == (if send then chans[i].receiver else chans[i].sender)
             else Served(chans, pending[t])
    ensures Served(chans[i := c], pending[t])
  {
    if state[t] != Blocked {
      ServedElsewhere(chans, i, c, pending[t]);
    }
  }

  /** Nobody pending does the same on channel h, except perhaps one thread. */
  ghost predicate Alone<T>(pending: map<T, Op>, h: nat, send: bool, but: Option<T>) {
    forall t :: t in pending && Some(t) != but ==> !(if send then SendsOn(pending[t], h) else RecvsOn(pending[t], h))
  }

  ghost predicate WokenBut<T>(k: Kernel<T>, but: Option<T>) {
    forall t :: t in k.pending && Some(t) != but && t in k.sched.state && k.sched.state[t] != Blocked ==>
      Served(k.chans, k.pending[t])
  }

  /** What an accepted send does to the channels. */
  lemma SendShape<T>(k: Kernel<T>, h: nat, m: Msg, i: nat)
    requires Typed(k) && TrySend(k, h, m).1 == OK && Find(k.chans, h) == Some(i)
    ensures |k.chans| == 16 && k.chans[i].handle == h
    ensures var k1 := TrySend(k, h, m).0;
            && |k1.chans| == 16 && k1.chans == k.chans[i := k1.chans[i]]
            && k1.chans[i].handle == h && k1.chans[i].state == k.chans[i].state && k1.chans[i].buf != []
  {
    hide Wake;
  }

  lemma RecvShape<T>(k: Kernel<T>, h: nat, filter: nat, i: nat)
    requires Typed(k) && TryRecv(k, h, filter).1 == OK && Find(k.chans, h) == Some(i) && |k.chans[i].buf| <= 8
    ensures |k.chans| == 16 && k.chans[i].handle == h
    ensures var k1 := TryRecv(k, h, filter).0;
            && |k1.chans| == 16 && k1.chans == k.chans[i := k1.chans[i]]
            && k1.chans[i].handle == h && k1.chans[i].state == k.chans[i].state && |k1.chans[i].buf| < 8
  {
    hide Wake;
  }

  lemma SendServes<T>(k: Kernel<T>, h: nat, m: Msg, but: Option<T>)
    requires Inv(k) && Woken(k) && Alone(k.pending, h, true, but)
    ensures Typed(k) && WokenBut(TrySend(k, h, m).0, but)
  {
    hide Inv, TrySend, Served, SendsOn, RecvsOn, ChanInv;
    InvTyped(k);
    TrySendKeeps(k, h, m);
    var (k1, r) := TrySend(k, h, m);
    if r == OK {
      var i := Find(k.chans, h).value;
      ChanOf(k, i);
      SlotInState(k, i);
      SendShape(k, h, m, i);
      forall t | t in k.pending && Some(t) != but && t in k1.sched.state && k1.sched.state[t] != Blocked
        ensures Served(k1.chans, k.pending[t])
      {
        WakeServes(k.chans, k.sched.state, k.pending, i, k1.chans[i], true, t);
      }
    }
  }

  lemma SlotInState<T>(k: Kernel<T>, i: nat)
    requires Inv(k) && i < 16
    ensures |k.chans| == 16 && SlotIn(k.chans[i].sender, k.sched.state) && SlotIn(k.chans[i].receiver, k.sched.state)
  {
    ChanOf(k, i);
  }

  lemma RecvServes<T>(k: Kernel<T>, h: nat, filter: nat, but: Option<T>)
    requires Inv(k) && Woken(k) && Alone(k.pending, h, false, but)
    ensures Typed(k) && WokenBut(TryRecv(k, h, filter).0, but)
  {
    hide Inv, TryRecv, Served, SendsOn, RecvsOn, ChanInv;
    InvTyped(k);
    TryRecvKeeps(k, h, filter);
    var (k1, r, _) := TryRecv(k, h, filter);
    if r == OK {
      var i := Find(k.chans, h).value;
      ChanOf(k, i);
      SlotInState(k, i);
      BufferFits(k, i);
      RecvShape(k, h, filter, i);
      forall t | t in k.pending && Some(t) != but && t in k1.sched.state && k1.sched.state[t] != Blocked
        ensures Served(k1.chans, k.pending[t])
      {
        WakeServes(k.chans, k.sched.state, k.pending, i, k1.chans[i], false, t);
      }
    }
  }

  lemma BufferFits<T>(k: Kernel<T>, i: nat)
    requires Inv(k) && i < 16
    ensures |k.chans| == 16 && |k.chans[i].buf| <= 8
  {
    ChanOf(k, i);
  }

  // ---- Steps ----

  /** The calling thread's call returned. */
  lemma DoneServes<T>(k: Kernel<T>)
    requires k.sched.current.Some? && WokenBut(k, k.sched.current)
    ensures Woken(Done(k))
  {
    hide Served;
  }

  /** Slots are no part of what serves a call. */
  lemma ServedSlot<T>(chans: seq<Chan<T>>, i: nat, op: Op, w: Option<T>, other: Op)
    requires |chans| == 16 && i < 16 && Served(chans, other)
    ensures Served(chans[i := SetSlot(chans[i], op, w)], other)
  {
    ServedElsewhere(chans, i, SetSlot(chans[i], op, w), other);
  }

  lemma LeaveServes<T>(k: Kernel<T>, i: nat, op: Op)
    requires Inv(k) && Woken(k) && MustWait(k, i, op) && CanWait(k, i, op)
    ensures Typed(k) && i < 16 && Woken(Leave(k, i, op).0)
  {
    InvTyped(k);
    hide QueuesHold, ChansInv, ThreadInv, Dequeue, Served, SetSlot;
    SwitchFromBlocked(k.sched);
    var c := k.sched.current.value;
    DequeueStates(SetState(k.sched, c, Blocked));
    TakeStates(k.sched, c);
    var k1 := Leave(k, i, op).0;
    forall t | t in k1.pending && t in k1.sched.state && k1.sched.state[t] != Blocked
      ensures Served(k1.chans, k1.pending[t])
    {
      ServedSlot(k.chans, i, op, Some(c), k.pending[t]);
    }
  }

  /** With its role a thread is the only one that does the same on that channel. */
  lemma RoleAlone<T>(k: Kernel<T>, roles: Roles<T>, op: Op)
    requires RolesKept(k, roles) && k.sched.current.Some? && MayCall(roles, k.sched.current.value, op)
    ensures Alone(k.pending, op.handle, op.SendOp?, k.sched.current)
  {
  }

  lemma SendOpServes<T>(w: World<T>, roles: Roles<T>, h: nat, m: Msg)
    requires Good(w, roles) && Woken(w.k) && MayCall(roles, w.k.sched.current.value, SendOp(h, m))
    ensures Typed(w.k) && Woken(DoSend(w, h, m).k)
  {
    hide Inv, RolesKept, Fifo, Woken, Leave, Alone, MayCall;
    var k := w.k;
    HasCurrent(k);
    RoleAlone(k, roles, SendOp(h, m));
    SendServes(k, h, m, k.sched.current);
    TrySendKeeps(k, h, m);
    if TrySend(k, h, m).1 != FULL {
      DoneServes(TrySend(k, h, m).0);
    } else {
      FullWaits(k, h, m);
      var i := Find(k.chans, h).value;
      OpWaits(k, roles, SendOp(h, m), i);
      LeaveServes(k, i, SendOp(h, m));
    }
  }

  lemma RecvOpServes<T>(w: World<T>, roles: Roles<T>, h: nat, filter: nat)
    requires Good(w, roles) && Woken(w.k) && MayCall(roles, w.k.sched.current.value, RecvOp(h, filter))
    ensures Typed(w.k) && Woken(DoRecv(w, h, filter).k)
  {
    hide Inv, RolesKept, Fifo, Woken, Leave, Alone, MayCall;
    var k := w.k;
    HasCurrent(k);
    RoleAlone(k, roles, RecvOp(h, filter));
    RecvServes(k, h, filter, k.sched.current);
    TryRecvKeeps(k, h, filter);
    if TryRecv(k, h, filter).1 != EMPTY {
      DoneServes(TryRecv(k, h, filter).0);
    } else {
      var i := Find(k.chans, h).value;
      OpWaits(k, roles, RecvOp(h, filter), i);
      LeaveServes(k, i, RecvOp(h, filter));
    }
  }

  lemma HasCurrent<T>(k: Kernel<T>)
    requires Inv(k)
    ensures k.sched.current.Some? && k.sched.current.value in k.sched.state
    ensures k.sched.state[k.sched.current.value] == Running
  {
  }

  lemma SchedServes<T>(k: Kernel<T>, s: Sched<T>)
    requires Woken(k) && OnlySwitched(k.sched, s)
    ensures Woken(k.(sched := s))
  {
    hide Served, SchedInv;
  }

  lemma CreateServes<T>(k: Kernel<T>)
    requires Inv(k) && Woken(k) && |k.chans| == 16 && Polite(k, Create)
    ensures Woken(Ipc.Create(k).0)
  {
    hide SchedInv, ThreadInv, ChansInv, Handle;
    var i := FreeSlot(k.chans, 0);
    if i < 16 {
      HandleLow(k.generation, i);
      var k1 := Ipc.Create(k).0;
      forall t | t in k.pending && t in k.sched.state && k.sched.state[t] != Blocked
        ensures Served(k1.chans, k.pending[t])
      {
        assert Served(k.chans, k.pending[t]);
      }
    }
  }

  lemma DestroyServes<T>(k: Kernel<T>, h: nat)
    requires Woken(k) && |k.chans| == 16
    ensures Woken(Ipc.Destroy(k, h).0)
  {
    var k1 := Ipc.Destroy(k, h).0;
    forall t | t in k.pending && t in k.sched.state && k.sched.state[t] != Blocked
      ensures Served(k1.chans, k.pending[t])
    {
      assert Served(k.chans, k.pending[t]);
    }
  }

  // ---- Every run ----

  lemma StepServes<T>(w: World<T>, roles: Roles<T>, e: Event)
    requires Good(w, roles) && Woken(w.k) && Legal(w.k, roles, e) && |w.k.chans| == 16 && Polite(w.k, e)
    ensures Typed(w.k) && Woken(Step(w, e).k)
  {
    hide Inv, RolesKept, Fifo, Woken, Served, YieldStep, PriorityStep, PreemptStep, Tick, DoSend, DoRecv,
      TrySend, TryRecv, SendsOn, RecvsOn;
    InvTyped(w.k);
    HasCurrent(w.k);
    var k, s := w.k, w.k.sched;
    match e
    case Call(op) => OpServes(w, roles, op);
    case Retry =>
      PendingMayCall(k, roles);
      OpServes(w, roles, k.pending[s.current.value]);
    case SendNow(h, m) =>
      SendServes(k, h, m, None);
      NoneBut(TrySend(k, h, m).0);
    case RecvNow(h, filter) =>
      RecvServes(k, h, filter, None);
      NoneBut(TryRecv(k, h, filter).0);
    case Create => CreateServes(k);
    case Destroy(h) => DestroyServes(k, h);
    case _ => SchedStepServes(w, roles, e);
  }

  lemma OpServes<T>(w: World<T>, roles: Roles<T>, op: Op)
    requires Good(w, roles) && Woken(w.k) && MayCall(roles, w.k.sched.current.value, op)
    ensures Typed(w.k) && Woken(DoOp(w, op).k)
  {
    hide Good, Woken, MayCall, DoSend, DoRecv;
    match op
    case SendOp(h, m) => SendOpServes(w, roles, h, m);
    case RecvOp(h, filter) => RecvOpServes(w, roles, h, filter);
  }

  lemma PendingMayCall<T>(k: Kernel<T>, roles: Roles<T>)
    requires RolesKept(k, roles) && k.sched.current.Some? && k.sched.current.value in k.pending
    ensures MayCall(roles, k.sched.current.value, k.pending[k.sched.current.value])
  {
  }

  lemma NoneBut<T>(k: Kernel<T>)
    requires WokenBut(k, None)
    ensures Woken(k)
  {
    hide Served;
  }

  lemma SchedStepServes<T>(w: World<T>, roles: Roles<T>, e: Event)
    requires Inv(w.k) && Woken(w.k) && Typed(w.k) && Legal(w.k, roles, e)
    requires e.GiveUp? || e.SetPriority? || e.Timer? || e.Preempt?
    ensures Woken(Step(w, e).k)
  {
    hide SchedInv, ChansInv, ThreadInv, Woken, YieldStep, PriorityStep, PreemptStep, Tick, OnlySwitched;
    var k, s := w.k, w.k.sched;
    match e
    case GiveUp => YieldKeeps(s); SchedServes(k, YieldStep(s));
    case SetPriority(p) => PriorityKeeps(s, p); SchedServes(k, PriorityStep(s, p));
    case Timer => TickKeeps(s); SchedServes(k, Tick(s, s.current.value));
    case Preempt => PreemptKeepsIff(s); SchedServes(k, PreemptStep(s));
  }

  /** A pending call that gets the processor returns: its thread stays current and has no pending
      call any more. */
  lemma RetryReturns<T>(w: World<T>, roles: Roles<T>)
    requires Good(w, roles) && Woken(w.k) && Legal(w.k, roles, Retry)
    ensures Typed(w.k)
    ensures var k1 := Step(w, Retry).k; k1.sched.current == w.k.sched.current && w.k.sched.current.value !in k1.pending
  {
    hide RolesKept, Fifo, SchedInv, ChansInv, ThreadInv, Leave, Wake, ChanInv;
    var k := w.k;
    InvTyped(k);
    HasCurrent(k);
    var t := k.sched.current.value;
    var op := k.pending[t];
    assert Served(k.chans, op);
    match op
    case SendOp(h, m) => TrySendKeeps(k, h, m);
    case RecvOp(h, filter) => TryRecvKeeps(k, h, filter);
  }

  ghost predicate PoliteRun<T>(w: World<T>, roles: Roles<T>, es: seq<Event>)
    decreases |es|
  {
    es == [] || (Typed(w.k) && Legal(w.k, roles, es[0]) && Polite(w.k, es[0]) &&
                 PoliteRun(Step(w, es[0]), roles, es[1..]))
  }

  lemma {:induction false} RunServes<T>(w: World<T>, roles: Roles<T>, es: seq<Event>)
    requires Good(w, roles) && Woken(w.k) && PoliteRun(w, roles, es)
    ensures Good(Final(w, es), roles) && Woken(Final(w, es).k)
    decreases |es|
  {
    hide Good, Woken, Legal, Polite, Step;
    if es != [] {
      assert |w.k.chans| == 16;
      StepGood(w, roles, es[0]);
      StepServes(w, roles, es[0]);
      RunServes(Step(w, es[0]), roles, es[1..]);
    }
  }

  /** In every polite run, whenever a thread with a pending call has the processor, its next round
      returns: every blocking call blocks at most once. */
  lemma BlocksAtMostOnce<T>(k: Kernel<T>, roles: Roles<T>, es: seq<Event>)
    requires var w := World(k, map[], map[]); Initial(w, roles) && PoliteRun(w, roles, es)
    ensures var w := Final(World(k, map[], map[]), es);
            && Typed(w.k) && w.k.sched.current.Some?
            && (w.k.sched.current.value in w.k.pending ==>
                var k1 := Step(w, Retry).k;
                k1.sched.current == w.k.sched.current && w.k.sched.current.value !in k1.pending)
  {
    hide Inv, RolesKept, Fifo, SchedInv, PoliteRun, Final, Woken, Step;
    var w0 := World(k, map[], map[]);
    InitialGood(w0, roles);
    NothingPending(k);
    RunServes(w0, roles, es);
    var w := Final(w0, es);
    InvTyped(w.k);
    HasCurrent(w.k);
    if w.k.sched.current.value in w.k.pending {
      RetryReturns(w, roles);
    }
  }

  lemma NothingPending<T>(k: Kernel<T>)
    requires k.pending == map[]
    ensures Woken(k)
  {
  }
}
