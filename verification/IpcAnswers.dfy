/** Which answer the channel calls give, what they do to the channel, and what receivers are given. */
module IpcAnswers {
  import opened Numbers
  import opened Scheduling
  import opened SchedAnswers
  import opened Ipc
  import opened IpcSafety
  import opened IpcRuns

  /** A handle names the slot its low byte counts, from one, if the slot carries that very handle. */
  lemma FindIff<T>(chans: seq<Chan<T>>, h: nat, i: nat)
    requires |chans| == 16
    ensures Find(chans, h) == Some(i) <==> i < 16 && chans[i].handle == h && h % 256 == i + 1
    ensures Find(chans, h).None? <==> forall j :: 0 <= j < 16 ==> chans[j].handle != h || h % 256 != j + 1
  {
  }

  /** Nothing but channel i and the scheduler differs, and of the channel only buffer and waiter. */
  ghost predicate OnlyChannel<T>(k: Kernel<T>, k1: Kernel<T>, i: nat, buf: seq<Msg>)
    requires i < |k.chans|
  {
    var c := k.chans[i];
    && |k1.chans| == |k.chans| && k1.generation == k.generation && k1.pending == k.pending
    && (forall j :: 0 <= j < |k.chans| && j != i ==> k1.chans[j] == k.chans[j])
    && k1.chans[i].state == c.state && k1.chans[i].handle == c.handle && k1.chans[i].buf == buf
  }

  /** A send that does not wait: refused without an open channel, FULL exactly with eight messages
      in it, otherwise taken as the last message, and nobody is left waiting to receive. */
  lemma TrySendAnswers<T>(k: Kernel<T>, h: nat, m: Msg)
    requires Typed(k)
    ensures Find(k.chans, h).None? ==> TrySend(k, h, m) == (k, INVAL)
    ensures Find(k.chans, h).Some? ==>
              var i := Find(k.chans, h).value;
              var c, (k1, r) := k.chans[i], TrySend(k, h, m);
              && (r == INVAL <==> c.state == Free) && (r == CLOSED <==> c.state == Closed)
              && (r == FULL <==> c.state == Open && |c.buf| >= 8) && (r == OK <==> c.state == Open && |c.buf| < 8)
              && (r != OK ==> k1 == k)
              && (r == OK ==> OnlyChannel(k, k1, i, c.buf + [m]) &&
                              k1.chans[i].sender == c.sender && k1.chans[i].receiver == None)
  {
    hide Wake;
  }

  /** A receive that does not wait: EMPTY exactly without a message, TYPE exactly if a type is asked
      for and the first message has another, otherwise the first message is given and removed, and
      nobody is left waiting to send. */
  lemma TryRecvAnswers<T>(k: Kernel<T>, h: nat, filter: nat)
    requires Typed(k)
    ensures Find(k.chans, h).None? ==> TryRecv(k, h, filter) == (k, INVAL, None)
    ensures Find(k.chans, h).Some? ==>
              var i := Find(k.chans, h).value;
              var c, (k1, r, m) := k.chans[i], TryRecv(k, h, filter);
              && (r == INVAL <==> c.state == Free) && (r == CLOSED <==> c.state == Closed)
              && (r == EMPTY <==> c.state == Open && c.buf == [])
              && (r == TYPE <==> c.state == Open && c.buf != [] && filter != 0 && c.buf[0].kind != filter)
              && (r == OK <==> c.state == Open && c.buf != [] && (filter == 0 || c.buf[0].kind == filter))
              && (r != OK ==> k1 == k && m == None)
              && (r == OK ==> m == Some(c.buf[0]) && OnlyChannel(k, k1, i, c.buf[1..]) &&
                              k1.chans[i].receiver == c.receiver && k1.chans[i].sender == None)
  {
    hide Wake;
  }

  /** Creating: the first free slot becomes an open, empty channel whose handle has the generation,
      modulo 2^24, above the slot counted from one; 0 exactly if no slot is free. */
  lemma CreateAnswers<T>(k: Kernel<T>)
    requires |k.chans| == 16
    ensures var (k1, h) := Ipc.Create(k);
            && (h == 0 <==> forall i :: 0 <= i < 16 ==> k.chans[i].state != Free)
            && (h == 0 ==> k1 == k)
            && (h != 0 ==>
                  exists i: nat ::
                    && i < 16 && k.chans[i].state == Free && (forall j :: 0 <= j < i ==> k.chans[j].state != Free)
                    && h == k.generation % 0x100_0000 * 256 + i + 1
                    && k1.chans == k.chans[i := Chan(Open, h, [], None, None)]
                    && k1.generation == (if k.generation == 0xFFFF_FFFF then 1 else k.generation + 1)
                    && k1.sched == k.sched && k1.pending == k.pending)
  {
    var i := FreeSlot(k.chans, 0);
    assert i < 16 ==> k.chans[i].state == Free;
  }

  /** Destroying: the handle must name a slot in use, which becomes free. */
  lemma DestroyAnswers<T>(k: Kernel<T>, h: nat)
    requires |k.chans| == 16
    ensures var (k1, r) := Ipc.Destroy(k, h);
            && (r == OK <==>
                  exists i :: 0 <= i < 16 && k.chans[i].handle == h && h % 256 == i + 1 && k.chans[i].state != Free)
            && (r != OK ==> r == INVAL && k1 == k)
            && (r == OK ==> k1 == k.(chans := k.chans[h % 256 - 1 := Chan(Free, 0, [], None, None)]))
  {
  }

  // ---- What receivers are given ----

  /** The channel and the type that the receive a step runs asks for. */
  function Asking<T(==)>(w: World<T>, e: Event): Option<(nat, nat)> {
    match e
    case RecvNow(h, f) => Some((h, f))
    case Call(op) => if op.RecvOp? then Some((op.handle, op.filter)) else None
    case Retry =>
      var t := w.k.sched.current;
      if t.Some? && t.value in w.k.pending && w.k.pending[t.value].RecvOp?
      then Some((w.k.pending[t.value].handle, w.k.pending[t.value].filter)) else None
    case _ => None
  }

  /** A step delivers nothing, or to the receive it runs one message of the type asked for. */
  ghost predicate Suits<T>(w: World<T>, e: Event, w1: World<T>) {
    || (forall h :: Log(w1.got, h) == Log(w.got, h) || Log(w1.got, h) == [])
    || (&& Asking(w, e).Some?
        && var (h, f) := Asking(w, e).value;
        exists m :: w1.got == w.got[h := Log(w.got, h) + [m]] && (f != 0 ==> m.kind == f))
  }

  lemma RecvSuits<T>(w: World<T>, h: nat, f: nat, m: Option<Msg>, w1: World<T>)
    requires Typed(w.k) && m == TryRecv(w.k, h, f).2
    requires w1.got == if m.Some? then w.got[h := Log(w.got, h) + [m.value]] else w.got
    ensures w1.got == w.got || exists m :: w1.got == w.got[h := Log(w.got, h) + [m]] && (f != 0 ==> m.kind == f)
  {
    TryRecvAnswers(w.k, h, f);
    hide TryRecv;
  }

  lemma DoRecvSuits<T>(w: World<T>, h: nat, f: nat)
    requires Typed(w.k)
    ensures var w1 := DoRecv(w, h, f);
            w1.got == w.got || exists m :: w1.got == w.got[h := Log(w.got, h) + [m]] && (f != 0 ==> m.kind == f)
  {
    hide TryRecv, Suspend, Log;
    TryRecvAnswers(w.k, h, f);
    RecvSuits(w, h, f, TryRecv(w.k, h, f).2, DoRecv(w, h, f));
  }

  lemma StepSuits<T>(w: World<T>, e: Event)
    requires Typed(w.k)
    ensures Suits(w, e, Step(w, e))
  {
    hide TryRecv, TrySend, DoRecv, DoSend, YieldStep, PriorityStep, PreemptStep, Tick;
    match e
    case RecvNow(h, f) =>
      RecvSuits(w, h, f, TryRecv(w.k, h, f).2, Step(w, e));
    case Call(op) =>
      if op.RecvOp? {
        DoRecvSuits(w, op.handle, op.filter);
      } else {
        SendDelivers(w, op.handle, op.msg);
      }
    case Retry =>
      var t := w.k.sched.current;
      if t.Some? && t.value in w.k.pending {
        var op := w.k.pending[t.value];
        if op.RecvOp? {
          DoRecvSuits(w, op.handle, op.filter);
        } else {
          SendDelivers(w, op.handle, op.msg);
        }
      }
    case _ =>
  }

  lemma SendDelivers<T>(w: World<T>, h: nat, m: Msg)
    requires Typed(w.k)
    ensures DoSend(w, h, m).got == w.got
  {
  }

  ghost predicate SuitsAll<T>(w: World<T>, es: seq<Event>)
    decreases |es|
  {
    es == [] || (Typed(w.k) && Suits(w, es[0], Step(w, es[0])) && SuitsAll(Step(w, es[0]), es[1..]))
  }

  /** In every legal run every message given to a receive that asks for a type has that type. */
  lemma {:induction false} EveryDelivery<T>(w: World<T>, roles: Roles<T>, es: seq<Event>)
    requires LegalRun(w, roles, es)
    ensures SuitsAll(w, es)
    decreases |es|
  {
    hide Step, Legal, Suits, Shaped;
    if es != [] {
      StepSuits(w, es[0]);
      EveryDelivery(Step(w, es[0]), roles, es[1..]);
    }
  }

  // ---- The calls of the scheduler ----

  /** Yield and sleep: the caller goes to the end of its band with ten ticks, and the first thread of
      the most urgent band runs, be it the caller itself. */
  lemma YieldStepAnswers<T>(s: Sched<T>)
    requires SchedInv(s)
    ensures Shaped(s) && s.current.Some? && s.current.value in s.state
    ensures var t, s1 := s.current.value, YieldStep(s);
            && s.prio[t] < 8 && s1.current.Some?
            && Foremost(s.queues[s.prio[t] := s.queues[s.prio[t]] + [t]], s1.current.value)
            && s1.state == s.state[t := Ready][s1.current.value := Running]
            && s1.ticks == s.ticks[t := 10] && s1.prio == s.prio && !s1.preempt
  {
    hide BandHolds, Queued, QueuesHold;
    SchedShaped(s);
    var t := s.current.value;
    SwitchFromReady(s);
    YieldAnswers(s, t);
    var s1 := Yield(s, t).0;
    DequeueAnswers(s1);
    assert s1.queues == s.queues[s.prio[t] := s.queues[s.prio[t]] + [t]];
  }

  /** Setting a priority below 8 changes the caller's and nothing else; others are refused. */
  lemma PriorityStepAnswers<T>(s: Sched<T>, p: nat)
    requires s.current.Some?
    ensures var s1 := PriorityStep(s, p);
            && (p < 8 ==> s1.prio == s.prio[s.current.value := p] && s1 == s.(prio := s1.prio))
            && (p >= 8 ==> s1 == s)
  {
  }

  // ---- The blocking calls ----

  /** A blocking call answers what the call that does not wait answers, and waits exactly where that
      one says FULL or EMPTY. */
  lemma RoundAnswers<T>(k: Kernel<T>, h: nat, m: Msg, f: nat)
    requires Typed(k)
    ensures var (q, r) := (TrySend(k, h, m).1, Send(k, h, m).1);
            if q == FULL then r in {None, Some(AGAIN)} else r == Some(q)
    ensures var (q, r) := (TryRecv(k, h, f), Recv(k, h, f));
            if q.1 == EMPTY then r.1 in {None, Some(AGAIN)} && r.2 == None else r.1 == Some(q.1) && r.2 == q.2
  {
    hide Wake, Block, Dequeue, Undo;
  }

  /** A call that waits: the caller is BLOCKED in the slot with its call pending, and the first
      READY thread of the most urgent band runs. */
  lemma WaitAnswers<T>(k: Kernel<T>, i: nat, op: Op)
    requires Inv(k) && MustWait(k, i, op) && SomeReady(k.sched)
    ensures Typed(k) && i < 16 && k.sched.current.Some?
    ensures var (k1, r) := Leave(k, i, op);
            var t := k.sched.current.value;
            && r == None && k1.sched.current.Some?
            && var n := k1.sched.current.value;
            && Foremost(k.sched.queues, n) && n != t
            && k1.sched.state == k.sched.state[t := Blocked][n := Running]
            && k1.pending == k.pending[t := op]
            && |k1.chans| == 16 && Slot(k1.chans[i], op) == Some(t) && k1.chans[i].buf == k.chans[i].buf
            && forall j :: 0 <= j < 16 && j != i ==> k1.chans[j] == k.chans[j]
  {
    hide BandHolds, ChansInv, ThreadInv, ChanInv, Queued, QueuesHold;
    InvTyped(k);
    SwitchFromBlocked(k.sched);
    var t := k.sched.current.value;
    var s0 := SetState(k.sched, t, Blocked);
    DequeueAnswers(s0);
    DequeueStates(s0);
  }
}
