/**
  Whole runs of the scheduler and the channels: any sequence of calls, retries, interrupts and
  timer ticks, with a log of what each channel accepted and delivered.
*/
module IpcRuns {
  import opened Numbers
  import opened Scheduling
  import opened Ipc
  import opened IpcSafety

  datatype Event =
    | Call(op: Op)
    | Retry
    | SendNow(handle: nat, msg: Msg)
    | RecvNow(handle: nat, filter: nat)
    | GiveUp
    | SetPriority(priority: nat)
    | Timer
    | Preempt
    | Create
    | Destroy(handle: nat)

  /** The kernel together with, for each handle, the messages accepted and delivered since the
      channel was created. */
  datatype World<T> = World(k: Kernel<T>, sent: map<nat, seq<Msg>>, got: map<nat, seq<Msg>>)

  /** The thread that may block sending on a channel, the one that may block receiving, and the
      one that never blocks. */
  datatype Roles<!T> = Roles(writer: nat -> T, reader: nat -> T, idle: T)

  function Log(m: map<nat, seq<Msg>>, h: nat): seq<Msg> {
    if h in m then m[h] else []
  }

  // ---- Steps ----

  /** SYSCALL_YIELD and SYSCALL_SCHED_SLEEP. */
  function YieldStep<T(==)>(s: Sched<T>): Sched<T>
    requires Shaped(s) && (s.current.Some? ==> s.current.value in s.state)
  {
    if s.current.None? then s
    else
      var t := s.current.value;
      var (s1, ok) := Yield(s, t);
      if !ok then s1
      else
        var (s2, next) := Dequeue(s1);
        if next.None? then SwitchTo(s2, t) else SwitchTo(s2, next.value)
  }

  /** SYSCALL_SCHED_SET_PRIORITY, for the current thread only. */
  function PriorityStep<T>(s: Sched<T>, p: nat): Sched<T> {
    if p >= 8 || s.current.None? then s else s.(prio := s.prio[s.current.value := p])
  }

  /** Ask for the next thread and switch to it. */
  function PreemptStep<T(==)>(s: Sched<T>): Sched<T>
    requires Shaped(s) && (s.current.Some? ==> s.current.value in s.state)
  {
    var (s1, next) := Next(s, s.current);
    if next.None? || s.current.None? then s1 else SwitchTo(s1, next.value)
  }

  function DoSend<T(==)>(w: World<T>, h: nat, m: Msg): World<T>
    requires Typed(w.k)
  {
    var (k1, r) := Send(w.k, h, m);
    World(k1, if r == Some(OK) then w.sent[h := Log(w.sent, h) + [m]] else w.sent, w.got)
  }

  function DoRecv<T(==)>(w: World<T>, h: nat, filter: nat): World<T>
    requires Typed(w.k)
  {
    var (k1, _, m) := Recv(w.k, h, filter);
    World(k1, w.sent, if m.Some? then w.got[h := Log(w.got, h) + [m.value]] else w.got)
  }

  function DoOp<T(==)>(w: World<T>, op: Op): World<T>
    requires Typed(w.k)
  {
    match op
    case SendOp(h, m) => DoSend(w, h, m)
    case RecvOp(h, filter) => DoRecv(w, h, filter)
  }

  function Step<T(==)>(w: World<T>, e: Event): World<T>
    requires Typed(w.k)
  {
    var s := w.k.sched;
    match e
    case Call(op) => DoOp(w, op)
    case Retry => if s.current.Some? && s.current.value in w.k.pending then DoOp(w, w.k.pending[s.current.value]) else w
    case SendNow(h, m) =>
      var (k1, r) := TrySend(w.k, h, m);
      World(k1, if r == OK then w.sent[h := Log(w.sent, h) + [m]] else w.sent, w.got)
    case RecvNow(h, filter) =>
      var (k1, _, m) := TryRecv(w.k, h, filter);
      World(k1, w.sent, if m.Some? then w.got[h := Log(w.got, h) + [m.value]] else w.got)
    case GiveUp => w.(k := w.k.(sched := YieldStep(s)))
    case SetPriority(p) => w.(k := w.k.(sched := PriorityStep(s, p)))
    case Timer => if s.current.Some? then w.(k := w.k.(sched := Tick(s, s.current.value))) else w
    case Preempt => w.(k := w.k.(sched := PreemptStep(s)))
    case Create =>
      var (k1, h) := Ipc.Create(w.k);
      if h == 0 then w else World(k1, w.sent[h := []], w.got[h := []])
    case Destroy(h) => w.(k := Ipc.Destroy(w.k, h).0)
  }

  // ---- What the callers promise ----

  ghost predicate MayCall<T>(roles: Roles<T>, t: T, op: Op) {
    t != roles.idle && t == if op.SendOp? then roles.writer(op.handle) else roles.reader(op.handle)
  }

  ghost predicate Legal<T>(k: Kernel<T>, roles: Roles<T>, e: Event) {
    && k.sched.current.Some? && |k.chans| == 16
    && var t := k.sched.current.value;
    match e
    case Call(op) => t !in k.pending && MayCall(roles, t, op)
    case Retry => t in k.pending
    case GiveUp => t !in k.pending
    case Preempt => k.sched.preempt || !SomeReady(k.sched)
    case Destroy(h) =>
      var i := Find(k.chans, h);
      i.Some? ==> k.chans[i.value].sender.None? && k.chans[i.value].receiver.None?
    case _ => true
  }

  ghost predicate LegalRun<T>(w: World<T>, roles: Roles<T>, es: seq<Event>)
    decreases |es|
  {
    es == [] || (Typed(w.k) && Legal(w.k, roles, es[0]) && LegalRun(Step(w, es[0]), roles, es[1..]))
  }

  ghost function Final<T>(w: World<T>, es: seq<Event>): World<T>
    decreases |es|
  {
    if es == [] then w else if Typed(w.k) then Final(Step(w, es[0]), es[1..]) else w
  }

  /** No channel yet, nobody BLOCKED, one thread RUNNING and the READY ones queued. */
  ghost predicate Initial<T>(w: World<T>, roles: Roles<T>) {
    && SchedInv(w.k.sched) && w.k.pending == map[] && w.k.generation == 1
    && w.k.chans == seq(16, _ => Chan(Free, 0, [], None, None))
    && (forall t :: t in w.k.sched.state ==> w.k.sched.state[t] != Blocked)
    && roles.idle in w.k.sched.state && w.k.sched.state[roles.idle] in {Ready, Running}
  }

  // ---- What every run keeps ----

  /** Only the thread with the role has a pending call, and the idle thread can always run. */
  ghost predicate RolesKept<T>(k: Kernel<T>, roles: Roles<T>) {
    && (forall t :: t in k.pending ==> MayCall(roles, t, k.pending[t]))
    && roles.idle in k.sched.state && k.sched.state[roles.idle] in {Ready, Running}
  }

  /** Accepted messages are the delivered ones followed by the buffered ones. */
  ghost predicate Fifo<T>(chans: seq<Chan<T>>, sent: map<nat, seq<Msg>>, got: map<nat, seq<Msg>>) {
    forall i :: 0 <= i < |chans| && chans[i].state == Open ==>
      Log(sent, chans[i].handle) == Log(got, chans[i].handle) + chans[i].buf
  }

  ghost predicate Good<T>(w: World<T>, roles: Roles<T>) {
    Inv(w.k) && RolesKept(w.k, roles) && Fifo(w.k.chans, w.sent, w.got)
  }

  // ---- The scheduler's own steps ----

  /** The channels only care which threads are BLOCKED. */
  lemma SameBlocked<T>(k: Kernel<T>, s: Sched<T>)
    requires Inv(k) && SchedInv(s) && s.state.Keys == k.sched.state.Keys
    requires forall t :: t in s.state ==> (s.state[t] == Blocked <==> k.sched.state[t] == Blocked)
    ensures Inv(k.(sched := s))
  {
    hide SchedInv, Registered;
    forall i | 0 <= i < 16
      ensures ChanInv(k.chans[i], i, s.state, k.pending)
    {
      assert ChanInv(k.chans[i], i, k.sched.state, k.pending);
    }
  }

  /** Only the running thread and the one that takes over change state. */
  ghost predicate OnlySwitched<T>(s: Sched<T>, s': Sched<T>) {
    && SchedInv(s') && s'.state.Keys == s.state.Keys
    && forall t :: t in s.state ==>
       if s.state[t] in {Ready, Running} then s'.state[t] in {Ready, Running} else s'.state[t] == s.state[t]
  }

  lemma YieldKeeps<T>(s: Sched<T>)
    requires SchedInv(s)
    ensures Shaped(s) && s.current.Some? && s.current.value in s.state && OnlySwitched(s, YieldStep(s))
  {
    hide BandHolds, Queued;
    SwitchFromReady(s);
    var t := s.current.value;
    var s1 := Yield(s, t).0;
    EnqueueStates(s.(state := s.state[t := Ready], ticks := s.ticks[t := QUANTUM], preempt := false), t);
    DequeueStates(s1);
    YieldTakes(s);
  }

  lemma YieldTakes<T>(s: Sched<T>)
    requires SchedInv(s)
    ensures Shaped(s) && var n := Dequeue(Yield(s, s.current.value).0).1;
            n.Some? && n.value in s.state && s.state[n.value] in {Ready, Running}
  {
    hide BandHolds, Queued;
    var c := s.current.value;
    var s' := s.(ticks := s.ticks[c := QUANTUM], preempt := false);
    assert QueuesHold(s');
    MakeReady(s', c);
    var s1 := Yield(s, c).0;
    assert s1 == Enqueue(SetState(s', c, Ready), c).0;
    TakeNext(s1);
    assert s1.state[c] == Ready;
  }

  lemma PriorityKeeps<T>(s: Sched<T>, p: nat)
    requires SchedInv(s)
    ensures OnlySwitched(s, PriorityStep(s, p))
  {
    var s' := PriorityStep(s, p);
    forall i | 0 <= i < 8
      ensures BandHolds(s.queues[i], s'.state, s'.prio, i)
    {
      assert BandHolds(s.queues[i], s.state, s.prio, i);
    }
  }

  lemma TickKeeps<T>(s: Sched<T>)
    requires SchedInv(s)
    ensures s.current.Some? && s.current.value in s.ticks && OnlySwitched(s, Tick(s, s.current.value))
  {
    hide BandHolds;
  }

  lemma TicksOnly<T>(s: Sched<T>, t: T, n: nat)
    requires SchedInv(s) && t in s.ticks
    ensures SchedInv(s.(ticks := s.ticks[t := n]))
  {
    hide BandHolds;
  }

  lemma PreemptRequeues<T>(s: Sched<T>)
    requires SchedInv(s) && s.preempt
    ensures Shaped(s) && OnlySwitched(s, PreemptStep(s))
  {
    hide BandHolds, Queued, Dequeue, Enqueue;
    YieldKeeps(s);
    SwitchFromReady(s);
    var s1 := YieldStep(s);
    var n := Dequeue(Yield(s, s.current.value).0).1.value;
    TicksOnly(s1, n, QUANTUM);
  }

  lemma PreemptStays<T>(s: Sched<T>)
    requires SchedInv(s) && !s.preempt && !SomeReady(s)
    ensures Shaped(s) && OnlySwitched(s, PreemptStep(s))
  {
    hide BandHolds, Queued;
    TakeNext(s);
    assert s.state[s.current.value := Running] == s.state;
    assert PreemptStep(s) == s;
  }

  lemma PreemptLeavesTwo<T>(s: Sched<T>)
    requires SchedInv(s) && !s.preempt && SomeReady(s)
    ensures Shaped(s) && !SchedInv(PreemptStep(s))
  {
    hide BandHolds, Queued, Dequeue, QueuesHold;
    SchedShaped(s);
    TakeNext(s);
    DequeueStates(s);
    var c := s.current.value;
    var n := Dequeue(s).1.value;
    assert n != c && PreemptStep(s).state[c] == Running && PreemptStep(s).current == Some(n);
  }

  /** Asking for the next thread and switching to it is safe exactly when a preemption was
      requested or nobody else is READY; otherwise two threads are RUNNING. */
  lemma PreemptKeepsIff<T>(s: Sched<T>)
    requires SchedInv(s)
    ensures Shaped(s) && s.current.Some? && s.current.value in s.state
    ensures SchedInv(PreemptStep(s)) <==> s.preempt || !SomeReady(s)
    ensures s.preempt || !SomeReady(s) ==> OnlySwitched(s, PreemptStep(s))
  {
    hide QueuesHold, PreemptStep;
    SchedShaped(s);
    if s.preempt {
      PreemptRequeues(s);
    } else if SomeReady(s) {
      PreemptLeavesTwo(s);
    } else {
      PreemptStays(s);
    }
  }

  // ---- Logs ----

  /** Handles tell channels apart. */
  lemma HandlesDiffer<T>(chans: seq<Chan<T>>, state: map<T, ThreadState>, pending: map<T, Op>, i: nat, j: nat)
    requires ChansInv(chans, state, pending) && i < 16 && j < 16 && i != j &&
             chans[i].state == Open && chans[j].state == Open
    ensures chans[i].handle != chans[j].handle
  {
    assert ChanInv(chans[i], i, state, pending) && ChanInv(chans[j], j, state, pending);
  }

  lemma LogSend<T>(w: World<T>, h: nat, m: Msg)
    requires Inv(w.k) && Fifo(w.k.chans, w.sent, w.got)
    ensures Typed(w.k)
    ensures var (k1, r) := TrySend(w.k, h, m);
            Fifo(k1.chans, if r == OK then w.sent[h := Log(w.sent, h) + [m]] else w.sent, w.got)
  {
    InvTyped(w.k);
    hide SchedInv, ThreadInv, Wake, ChansInv;
    var chans := w.k.chans;
    var (k1, r) := TrySend(w.k, h, m);
    if r == OK {
      var i := Find(chans, h).value;
      forall j | 0 <= j < 16 && j != i && chans[j].state == Open
        ensures chans[j].handle != h
      {
        HandlesDiffer(chans, w.k.sched.state, w.k.pending, i, j);
      }
      assert Log(w.sent, h) + [m] == Log(w.got, h) + (chans[i].buf + [m]);
    }
  }

  lemma LogRecv<T>(w: World<T>, h: nat, filter: nat)
    requires Inv(w.k) && Fifo(w.k.chans, w.sent, w.got)
    ensures Typed(w.k)
    ensures var (k1, r, m) := TryRecv(w.k, h, filter);
            Fifo(k1.chans, w.sent, if m.Some? then w.got[h := Log(w.got, h) + [m.value]] else w.got)
  {
    InvTyped(w.k);
    hide SchedInv, ThreadInv, Wake, ChansInv;
    var chans := w.k.chans;
    var (k1, r, m) := TryRecv(w.k, h, filter);
    if m.Some? {
      var i := Find(chans, h).value;
      forall j | 0 <= j < 16 && j != i && chans[j].state == Open
        ensures chans[j].handle != h
      {
        HandlesDiffer(chans, w.k.sched.state, w.k.pending, i, j);
      }
      assert chans[i].buf == [chans[i].buf[0]] + chans[i].buf[1..];
      assert Log(w.got, h) + chans[i].buf == Log(w.got, h) + [m.value] + chans[i].buf[1..];
    }
  }

  /** Taking a slot leaves buffers and handles alone. */
  lemma LogLeave<T>(k: Kernel<T>, i: nat, op: Op, sent: map<nat, seq<Msg>>, got: map<nat, seq<Msg>>)
    requires Typed(k) && i < 16 && Fifo(k.chans, sent, got)
    ensures Fifo(Leave(k, i, op).0.chans, sent, got)
  {
    hide Dequeue, Block, Undo;
  }

  // ---- Calls keep everything ----

  lemma OpWaits<T>(k: Kernel<T>, roles: Roles<T>, op: Op, i: nat)
    requires Inv(k) && RolesKept(k, roles) && MayCall(roles, k.sched.current.value, op) && MustWait(k, i, op)
    ensures CanWait(k, i, op)
  {
    hide QueuesHold;
    ChanOf(k, i);
    assert k.sched.state[roles.idle] == Ready;
  }

  lemma SuspendRoles<T>(k: Kernel<T>, roles: Roles<T>, i: nat, op: Op)
    requires Inv(k) && RolesKept(k, roles) && MayCall(roles, k.sched.current.value, op) && MustWait(k, i, op)
    ensures Typed(k) && i < 16
    ensures Inv(Leave(k, i, op).0) && RolesKept(Leave(k, i, op).0, roles) && Leave(k, i, op).1.None?
  {
    OpWaits(k, roles, op, i);
    SuspendKeeps(k, i, op);
    hide QueuesHold, ChansInv, ThreadInv, Dequeue;
    var c := k.sched.current.value;
    DequeueStates(SetState(k.sched, c, Blocked));
    TakeStates(k.sched, c);
  }

  lemma DoneRoles<T>(k: Kernel<T>, roles: Roles<T>)
    requires RolesKept(k, roles)
    ensures RolesKept(Done(k), roles)
  {
  }

  lemma WakeRoles<T>(k: Kernel<T>, k': Kernel<T>, roles: Roles<T>, w: Option<T>)
    requires RolesKept(k, roles) && k'.pending == k.pending
    requires k'.sched.state == if w.Some? then k.sched.state[w.value := Ready] else k.sched.state
    ensures RolesKept(k', roles)
  {
  }

  lemma TrySendGood<T>(w: World<T>, roles: Roles<T>, h: nat, m: Msg)
    requires Good(w, roles)
    ensures Typed(w.k) && Good(Step(w, SendNow(h, m)), roles)
  {
    hide Inv, Fifo, RolesKept, TrySend;
    TrySendKeeps(w.k, h, m);
    LogSend(w, h, m);
    var (k1, r) := TrySend(w.k, h, m);
    WakeRoles(w.k, k1, roles, if r == OK then w.k.chans[Find(w.k.chans, h).value].receiver else None);
  }

  lemma TryRecvGood<T>(w: World<T>, roles: Roles<T>, h: nat, filter: nat)
    requires Good(w, roles)
    ensures Typed(w.k) && Good(Step(w, RecvNow(h, filter)), roles)
  {
    hide Inv, Fifo, RolesKept, TryRecv;
    TryRecvKeeps(w.k, h, filter);
    LogRecv(w, h, filter);
    var (k1, r, _) := TryRecv(w.k, h, filter);
    WakeRoles(w.k, k1, roles, if r == OK then w.k.chans[Find(w.k.chans, h).value].sender else None);
  }

  lemma DoneGood<T>(w: World<T>, roles: Roles<T>)
    requires Good(w, roles)
    ensures Good(w.(k := Done(w.k)), roles)
  {
    hide Inv, Fifo, RolesKept;
    DoneKeeps(w.k);
    DoneRoles(w.k, roles);
  }

  lemma FullWaits<T>(k: Kernel<T>, h: nat, m: Msg)
    requires Inv(k) && Typed(k) && TrySend(k, h, m).1 == FULL
    ensures Find(k.chans, h).Some? && MustWait(k, Find(k.chans, h).value, SendOp(h, m))
  {
    ChanOf(k, Find(k.chans, h).value);
  }

  lemma SendGood<T>(w: World<T>, roles: Roles<T>, h: nat, m: Msg)
    requires Good(w, roles) && MayCall(roles, w.k.sched.current.value, SendOp(h, m))
    ensures Typed(w.k) && Good(DoSend(w, h, m), roles)
  {
    hide Inv, Fifo, RolesKept, TrySend, Leave;
    TrySendGood(w, roles, h, m);
    if TrySend(w.k, h, m).1 != FULL {
      DoneGood(Step(w, SendNow(h, m)), roles);
    } else {
      FullWaits(w.k, h, m);
      var i := Find(w.k.chans, h).value;
      SuspendRoles(w.k, roles, i, SendOp(h, m));
      LogLeave(w.k, i, SendOp(h, m), w.sent, w.got);
    }
  }

  lemma RecvGood<T>(w: World<T>, roles: Roles<T>, h: nat, filter: nat)
    requires Good(w, roles) && MayCall(roles, w.k.sched.current.value, RecvOp(h, filter))
    ensures Typed(w.k) && Good(DoRecv(w, h, filter), roles)
  {
    hide Inv, Fifo, RolesKept, Leave;
    TryRecvGood(w, roles, h, filter);
    if TryRecv(w.k, h, filter).1 != EMPTY {
      DoneGood(Step(w, RecvNow(h, filter)), roles);
    } else {
      var i := Find(w.k.chans, h).value;
      SuspendRoles(w.k, roles, i, RecvOp(h, filter));
      LogLeave(w.k, i, RecvOp(h, filter), w.sent, w.got);
    }
  }

  // ---- Creating and destroying channels ----

  lemma HandleLow(g: nat, i: nat)
    requires i < 16
    ensures Handle(g, i) % 256 == i + 1
  {
    var n := g % 0x100_0000;
    assert (n * 256 + i + 1) % 256 == (i + 1) % 256;
  }

  lemma CreateGood<T>(w: World<T>, roles: Roles<T>)
    requires Good(w, roles)
    ensures Typed(w.k) && Good(Step(w, Create), roles)
  {
    hide SchedInv, Handle;
    InvTyped(w.k);
    var i := FreeSlot(w.k.chans, 0);
    if i < 16 {
      var h := Handle(w.k.generation, i);
      HandleLow(w.k.generation, i);
      PutChan(w.k, i, Chan(Open, h, [], None, None), NextGeneration(w.k.generation));
      forall j | 0 <= j < 16 && j != i && w.k.chans[j].state == Open
        ensures w.k.chans[j].handle != h
      {
        ChanOf(w.k, j);
      }
    }
  }

  lemma DestroyGood<T>(w: World<T>, roles: Roles<T>, h: nat)
    requires Good(w, roles) && Legal(w.k, roles, Destroy(h))
    ensures Typed(w.k) && Good(Step(w, Destroy(h)), roles)
  {
    hide SchedInv;
    InvTyped(w.k);
    var i := Find(w.k.chans, h);
    if i.Some? {
      PutChan(w.k, i.value, Chan(Free, 0, [], None, None), w.k.generation);
    }
  }

  /** A channel nobody waits on may be replaced by a fresh one. */
  lemma PutChan<T>(k: Kernel<T>, i: nat, c: Chan<T>, generation: nat)
    requires Inv(k) && i < 16 && k.chans[i].sender.None? && k.chans[i].receiver.None?
    requires c == Chan(Free, 0, [], None, None) ||
             (c == Chan(Open, c.handle, [], None, None) && c.handle % 256 == i + 1)
    ensures Inv(k.(chans := k.chans[i := c], generation := generation))
  {
    hide SchedInv;
    var chans := k.chans[i := c];
    forall t | t in k.sched.state && k.sched.state[t] == Blocked
      ensures t in k.pending && Registered(chans, t, k.pending[t])
    {
      assert Registered(k.chans, t, k.pending[t]);
    }
  }

  // ---- Every run ----

  lemma SchedGood<T>(w: World<T>, roles: Roles<T>, s: Sched<T>)
    requires Good(w, roles) && OnlySwitched(w.k.sched, s)
    ensures Good(w.(k := w.k.(sched := s)), roles)
  {
    hide SchedInv, Fifo, ChansInv, ThreadInv;
    SameBlocked(w.k, s);
  }

  /** One step of a legal run keeps everything. */
  lemma StepGood<T>(w: World<T>, roles: Roles<T>, e: Event)
    requires Good(w, roles) && Legal(w.k, roles, e)
    ensures Typed(w.k) && Good(Step(w, e), roles)
  {
    hide SchedInv, ChansInv, ThreadInv, Fifo, YieldStep, PriorityStep, PreemptStep, Tick, DoSend, DoRecv,
      TrySend, TryRecv;
    InvTyped(w.k);
    var s := w.k.sched;
    match e
    case Call(op) => OpGood(w, roles, op);
    case Retry => OpGood(w, roles, w.k.pending[s.current.value]);
    case SendNow(h, m) => TrySendGood(w, roles, h, m);
    case RecvNow(h, filter) => TryRecvGood(w, roles, h, filter);
    case GiveUp => YieldKeeps(s); SchedGood(w, roles, YieldStep(s));
    case SetPriority(p) => PriorityKeeps(s, p); SchedGood(w, roles, PriorityStep(s, p));
    case Timer => TickKeeps(s); SchedGood(w, roles, Tick(s, s.current.value));
    case Preempt => PreemptKeepsIff(s); SchedGood(w, roles, PreemptStep(s));
    case Create => CreateGood(w, roles);
    case Destroy(h) => DestroyGood(w, roles, h);
  }

  lemma OpGood<T>(w: World<T>, roles: Roles<T>, op: Op)
    requires Good(w, roles) && MayCall(roles, w.k.sched.current.value, op)
    ensures Typed(w.k) && Good(DoOp(w, op), roles)
  {
    hide Good, DoSend, DoRecv, MayCall;
    match op
    case SendOp(h, m) => SendGood(w, roles, h, m);
    case RecvOp(h, filter) => RecvGood(w, roles, h, filter);
  }

  lemma InitialGood<T>(w: World<T>, roles: Roles<T>)
    requires Initial(w, roles)
    ensures Good(w.(sent := map[], got := map[]), roles)
  {
    hide SchedInv;
  }

  lemma {:induction false} RunGood<T>(w: World<T>, roles: Roles<T>, es: seq<Event>)
    requires Good(w, roles) && LegalRun(w, roles, es)
    ensures Good(Final(w, es), roles)
    decreases |es|
  {
    hide Good, Legal, Step, Typed;
    if es != [] {
      StepGood(w, roles, es[0]);
      RunGood(Step(w, es[0]), roles, es[1..]);
    }
  }

  /** In every state of every legal run: the current thread alone is RUNNING; the queued threads
      are exactly the READY ones; every BLOCKED thread is in exactly one waiter slot, of a full
      channel if it sends and of an empty one if it receives; and what each open channel accepted
      is what it delivered followed by what it holds. */
  lemma EveryRun<T>(k: Kernel<T>, roles: Roles<T>, es: seq<Event>)
    requires var w := World(k, map[], map[]); Initial(w, roles) && LegalRun(w, roles, es)
    ensures var w := Final(World(k, map[], map[]), es);
            && SchedInv(w.k.sched) && |w.k.chans| == 16
            && (forall t :: t in w.k.sched.state && w.k.sched.state[t] == Blocked ==> WaitsOnce(w.k, t))
            && (forall i :: 0 <= i < 16 && w.k.chans[i].state == Open ==>
                  Log(w.sent, w.k.chans[i].handle) == Log(w.got, w.k.chans[i].handle) + w.k.chans[i].buf)
  {
    hide SchedInv, ChansInv, ThreadInv, LegalRun, Final, WaitsOnce;
    var w0 := World(k, map[], map[]);
    InitialGood(w0, roles);
    RunGood(w0, roles, es);
    var w := Final(w0, es);
    InvTyped(w.k);
    forall t | t in w.k.sched.state && w.k.sched.state[t] == Blocked
      ensures WaitsOnce(w.k, t)
    {
      OneSlot(w.k, t);
    }
  }
}
