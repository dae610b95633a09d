/** What each scheduler call answers and leaves behind, in terms of threads, bands and ticks. */
module SchedAnswers {
  import opened Numbers
  import opened Sequences
  import opened Scheduling

  /** n is the first thread of the most urgent band that has one. */
  ghost predicate Foremost<T>(queues: seq<seq<T>>, n: T) {
    exists b :: 0 <= b < |queues| && queues[b] != [] && queues[b][0] == n && forall j :: 0 <= j < b ==> queues[j] == []
  }

  /** Only band p differs. */
  ghost predicate OnlyBand<T>(a: seq<seq<T>>, b: seq<seq<T>>, p: nat, q: seq<T>) {
    |a| == |b| == 8 && p < 8 && b[p] == q && forall i :: 0 <= i < 8 && i != p ==> b[i] == a[i]
  }

  /** A thread joins the end of its band if it is READY, has a priority below 8, is not in the band
      yet and fewer than 32 threads are queued; otherwise nothing happens. */
  lemma EnqueueAnswers<T>(s: Sched<T>, t: T)
    requires |s.queues| == 8 && t in s.state && t in s.prio
    ensures var (s1, ok) := Enqueue(s, t);
            && (ok <==> s.state[t] == Ready && s.prio[t] < 8 && Queued(s.queues, 0) < 32 && t !in s.queues[s.prio[t]])
            && (ok ==> OnlyBand(s.queues, s1.queues, s.prio[t], s.queues[s.prio[t]] + [t]) &&
                       s1 == s.(queues := s1.queues, mode := Busy))
            && (!ok ==> s1 == s)
  {
  }

  /** The thread taken is the first of the most urgent band; none is taken exactly if all are empty. */
  lemma DequeueAnswers<T>(s: Sched<T>)
    requires |s.queues| == 8
    ensures var (s1, n) := Dequeue(s);
            && (n.None? <==> forall i :: 0 <= i < 8 ==> s.queues[i] == [])
            && (n.None? ==> s1 == s)
            && (n.Some? ==>
                  && Foremost(s.queues, n.value) && |s1.queues| == 8 && s1 == s.(queues := s1.queues, mode := s1.mode)
                  && exists b :: 0 <= b < 8 && s.queues[b] != [] && s.queues[b][0] == n.value &&
                                 OnlyBand(s.queues, s1.queues, b, s.queues[b][1..]))
  {
    var b := FirstBand(s.queues, 0);
    if b < 8 {
      assert s.queues[b] != [] && OnlyBand(s.queues, Dequeue(s).0.queues, b, s.queues[b][1..]);
    }
  }

  /** Ten ticks are a quantum: a running thread that yields starts again with ten. */
  lemma YieldAnswers<T>(s: Sched<T>, t: T)
    requires |s.queues| == 8 && t in s.state && t in s.prio
    ensures var (s1, ok) := Yield(s, t);
            && (ok <==> s.state[t] == Running && s.prio[t] < 8 && Queued(s.queues, 0) < 32 && t !in s.queues[s.prio[t]])
            && (s.state[t] != Running ==> s1 == s)
            && (s.state[t] == Running ==>
                  && s1.state == s.state[t := Ready] && s1.ticks == s.ticks[t := 10] && !s1.preempt
                  && s1.prio == s.prio && s1.current == s.current)
            && (ok ==> OnlyBand(s.queues, s1.queues, s.prio[t], s.queues[s.prio[t]] + [t]))
  {
  }

  /** A tick takes one from what is left and asks for preemption exactly when nothing is left. */
  lemma TickAnswers<T>(s: Sched<T>, t: T)
    requires t in s.ticks
    ensures var s1 := Tick(s, t);
            && s1.ticks == s.ticks[t := if s.ticks[t] == 0 then 0 else s.ticks[t] - 1]
            && (s1.preempt <==> s.preempt || s.ticks[t] <= 1)
            && s1.queues == s.queues && s1.state == s.state && s1.prio == s.prio && s1.current == s.current
  {
  }

  /** Blocking: a RUNNING thread just changes its state, a READY one leaves its band as well, a
      BLOCKED one stays; the others, and a READY thread in no band, are refused. */
  lemma BlockAnswers<T>(s: Sched<T>, t: T)
    requires |s.queues| == 8 && t in s.state
    ensures var (s1, ok) := Block(s, t);
            && (ok <==> s.state[t] in {Running, Blocked} ||
                        (s.state[t] == Ready && exists b :: 0 <= b < 8 && t in s.queues[b]))
            && s1.state == (if ok then s.state[t := Blocked] else s.state)
            && (s.state[t] != Ready ==> s1.queues == s.queues)
            && s1.prio == s.prio && s1.ticks == s.ticks && s1.current == s.current && s1.preempt == s.preempt
  {
    hide Place, Queued;
    assert s.state[t] == Blocked ==> s.state[t := Blocked] == s.state;
  }

  /** Waking: a BLOCKED thread becomes READY and joins the end of its band; others are refused. */
  lemma UnblockAnswers<T>(s: Sched<T>, t: T)
    requires QueuesHold(s) && |s.state| <= 32 && t in s.state && s.prio[t] < 8
    ensures var (s1, ok) := Unblock(s, t);
            && (ok <==> s.state[t] == Blocked)
            && (!ok ==> s1 == s)
            && (ok ==>
                  && s1.state == s.state[t := Ready] && s1.prio == s.prio
                  && s1.ticks == s.ticks && s1.current == s.current
                  && OnlyBand(s.queues, s1.queues, s.prio[t], s.queues[s.prio[t]] + [t]))
  {
    hide BandHolds, Queued;
    if s.state[t] == Blocked {
      MakeReady(s, t);
    }
  }

  /** The ticks of a thread that was picked: ten if it had none left. */
  function Refilled<T(==)>(ticks: map<T, nat>, n: T): map<T, nat> {
    if n in ticks && ticks[n] == 0 then ticks[n := 10] else ticks
  }

  /** Asking for the next thread without preemption: the foremost one, or a running caller if nobody is
      queued. */
  lemma NextPicks<T>(s: Sched<T>)
    requires Shaped(s) && s.current.Some? && s.current.value in s.state
    requires s.state[s.current.value] == Running && !s.preempt
    ensures var (s1, n) := Next(s, s.current);
            && ((forall i :: 0 <= i < 8 ==> s.queues[i] == []) ==> n == s.current && s1 == s)
            && ((exists i :: 0 <= i < 8 && s.queues[i] != []) ==>
                  n.Some? && Foremost(s.queues, n.value) && s1.ticks == Refilled(s.ticks, n.value))
            && s1.state == s.state && s1.prio == s.prio && s1.current == s.current
  {
    hide Queued;
    DequeueAnswers(s);
    hide Dequeue;
  }

  /** With preemption requested the running caller first goes to the end of its band, with ten ticks. */
  lemma NextPreempts<T>(s: Sched<T>)
    requires SchedInv(s) && s.preempt
    ensures Shaped(s) && s.current.Some? && s.current.value in s.state
    ensures var t, (s1, n) := s.current.value, Next(s, s.current);
            && s.prio[t] < 8 && n.Some? && Foremost(s.queues[s.prio[t] := s.queues[s.prio[t]] + [t]], n.value)
            && s1.ticks == Refilled(s.ticks[t := 10], n.value)
            && s1.state == s.state[t := Ready] && s1.prio == s.prio && !s1.preempt
  {
    hide BandHolds, Queued;
    var t := s.current.value;
    SwitchFromReady(s);
    YieldAnswers(s, t);
    var s0 := Yield(s, t).0;
    DequeueAnswers(s0);
    hide Dequeue, Yield, QueuesHold;
    assert s0.queues == s.queues[s.prio[t] := s.queues[s.prio[t]] + [t]];
  }
}
