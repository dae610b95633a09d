/**
  The scheduler as values: eight priority bands of queued threads, thread states and the current
  thread.  T is whatever names a thread.
*/
module Scheduling {
  import opened Numbers
  import opened Sequences

  datatype ThreadState = Init | Ready | Running | Blocked | Zombie

  datatype Mode = Idle | Busy | PreemptPending

  datatype Sched<T> = Sched(
    queues: seq<seq<T>>,
    state: map<T, ThreadState>,
    prio: map<T, nat>,
    ticks: map<T, nat>,
    current: Option<T>,
    preempt: bool,
    mode: Mode)

  const QUANTUM: nat := 10

  /** Threads queued in the bands from k on. */
  function Queued<T>(queues: seq<seq<T>>, k: nat): nat
    requires k <= |queues|
    decreases |queues| - k, queues
  {
    if k == |queues| then 0 else |queues[k]| + Queued(queues, k + 1)
  }

  /** The first non-empty band from k on, or the number of bands. */
  function FirstBand<T>(queues: seq<seq<T>>, k: nat): (b: nat)
    requires k <= |queues|
    ensures k <= b <= |queues|
    ensures forall i :: k <= i < b ==> queues[i] == []
    ensures b < |queues| ==> queues[b] != []
    decreases |queues| - k, queues
  {
    if k == |queues| || queues[k] != [] then k else FirstBand(queues, k + 1)
  }

  /** All fields cover the same threads and there are eight bands. */
  ghost predicate Shaped<T>(s: Sched<T>) {
    |s.queues| == 8 && s.prio.Keys == s.state.Keys && s.ticks.Keys == s.state.Keys
  }

  // ---- The calls of sched.c ----

  function Enqueue<T(==)>(s: Sched<T>, t: T): (r: (Sched<T>, bool))
    requires |s.queues| == 8 && t in s.state && t in s.prio
    ensures |r.0.queues| == 8
  {
    var p := s.prio[t];
    if s.state[t] != Ready || p >= 8 || Queued(s.queues, 0) >= 32 || t in s.queues[p] then (s, false)
    else (s.(queues := s.queues[p := s.queues[p] + [t]], mode := Busy), true)
  }

  function Dequeue<T>(s: Sched<T>): (Sched<T>, Option<T>)
    requires |s.queues| == 8
  {
    var b := FirstBand(s.queues, 0);
    if b == 8 then (s, None)
    else
      (s.(queues := s.queues[b := s.queues[b][1..]], mode := if Queued(s.queues, 0) == 1 then Idle else s.mode),
       Some(s.queues[b][0]))
  }

  function SetState<T>(s: Sched<T>, t: T, st: ThreadState): Sched<T> {
    s.(state := s.state[t := st])
  }

  function Yield<T(==)>(s: Sched<T>, t: T): (Sched<T>, bool)
    requires |s.queues| == 8 && t in s.state && t in s.prio
  {
    if s.state[t] != Running then (s, false)
    else Enqueue(s.(state := s.state[t := Ready], ticks := s.ticks[t := QUANTUM], preempt := false), t)
  }

  function Tick<T>(s: Sched<T>, t: T): Sched<T>
    requires t in s.ticks
  {
    var left := if s.ticks[t] > 0 then s.ticks[t] - 1 else 0;
    var s1 := s.(ticks := s.ticks[t := left]);
    if left == 0 then s1.(preempt := true, mode := PreemptPending) else s1
  }

  /** The band that holds t, counting from k, or the number of bands. */
  function BandOf<T(==)>(queues: seq<seq<T>>, t: T, k: nat): (b: nat)
    requires k <= |queues|
    ensures k <= b <= |queues|
    ensures forall i :: k <= i < b ==> t !in queues[i]
    ensures b < |queues| ==> t in queues[b]
    decreases |queues| - k, queues
  {
    if k == |queues| || t in queues[k] then k else BandOf(queues, t, k + 1)
  }

  function Place<T(==)>(q: seq<T>, t: T): (i: nat)
    requires t in q
    ensures i < |q| && q[i] == t && t !in q[..i]
  {
    if q[0] == t then 0 else 1 + Place(q[1..], t)
  }

  /** Unlink the first occurrence of t, searching the bands in order. */
  function Remove<T(==)>(s: Sched<T>, t: T): (Sched<T>, bool)
    requires |s.queues| == 8
  {
    var b := BandOf(s.queues, t, 0);
    if b == 8 then (s, false)
    else
      var q := s.queues[b];
      var i := Place(q, t);
      (s.(queues := s.queues[b := q[..i] + q[i + 1..]],
         mode := if Queued(s.queues, 0) == 1 then Idle else s.mode), true)
  }

  function Block<T(==)>(s: Sched<T>, t: T): (r: (Sched<T>, bool))
    requires |s.queues| == 8 && t in s.state
    ensures !r.1 ==> r.0 == s
  {
    match s.state[t]
    case Blocked => (s, true)
    case Ready =>
      var (s1, ok) := Remove(s, t);
      if ok then (SetState(s1, t, Blocked), true) else (s, false)
    case Running => (SetState(s, t, Blocked), true)
    case _ => (s, false)
  }

  function Unblock<T(==)>(s: Sched<T>, t: T): (Sched<T>, bool)
    requires |s.queues| == 8 && t in s.state && t in s.prio
  {
    if s.state[t] != Blocked then (s, false) else Enqueue(SetState(s, t, Ready), t)
  }

  /** The state part of a context switch. */
  function SwitchTo<T>(s: Sched<T>, next: T): Sched<T> {
    s.(state := s.state[next := Running], current := Some(next))
  }

  /** Nobody else can run: queue the caller as READY, then carry on as RUNNING. */
  function Undo<T(==)>(s: Sched<T>, t: T): Sched<T>
    requires |s.queues| == 8 && t in s.prio
  {
    var s1 := Enqueue(SetState(s, t, Ready), t).0;
    s1.(state := s1.state[t := Running], current := Some(t))
  }

  /** sched_next when preemption is pending: requeue the running thread, then pick. */
  function Next<T(==)>(s: Sched<T>, cur: Option<T>): (Sched<T>, Option<T>)
    requires Shaped(s) && (cur.Some? ==> cur.value in s.state)
  {
    var requeue := s.preempt && cur.Some? && s.state[cur.value] == Running;
    var s1 := if requeue then Yield(s, cur.value).0 else s;
    var cur1 := if requeue then None else cur;
    var (s2, next) := Dequeue(s1);
    if next.None? then
      if cur1.Some? && s2.state[cur1.value] == Running then (s2, cur1) else (s2.(mode := Idle), None)
    else if next.value in s2.ticks && s2.ticks[next.value] == 0 then
      (s2.(ticks := s2.ticks[next.value := QUANTUM]), next)
    else (s2, next)
  }

  // ---- Queues hold exactly the READY threads ----

  /** Band i holds exactly the READY threads of priority i, each once. */
  ghost predicate BandHolds<T>(q: seq<T>, state: map<T, ThreadState>, prio: map<T, nat>, i: nat)
    requires prio.Keys == state.Keys
  {
    && Distinct(q)
    && (forall t :: t in q ==> t in state && state[t] == Ready && prio[t] == i)
    && (forall t :: t in state && state[t] == Ready && prio[t] == i ==> t in q)
  }

  /** The queued threads are exactly the READY ones, each once, in the band of its priority. */
  ghost predicate QueuesHold<T>(s: Sched<T>) {
    && Shaped(s)
    && (forall i :: 0 <= i < 8 ==> BandHolds(s.queues[i], s.state, s.prio, i))
    && (forall t :: t in s.state && s.state[t] == Ready ==> s.prio[t] < 8)
  }

  /** At most 32 threads, all with a priority below 8, one of them current and alone RUNNING. */
  ghost predicate OneRuns<T>(s: Sched<T>) {
    && |s.state| <= 32 && s.prio.Keys == s.state.Keys
    && (forall t :: t in s.prio ==> s.prio[t] < 8)
    && s.current.Some? && s.current.value in s.state
    && (forall t :: t in s.state ==> (s.state[t] == Running <==> t == s.current.value))
  }

  ghost predicate SchedInv<T>(s: Sched<T>) {
    QueuesHold(s) && OneRuns(s)
  }

  // ---- Counting ----

  ghost function Members<T>(queues: seq<seq<T>>, k: nat): set<T>
    requires k <= |queues|
    decreases |queues| - k, queues
  {
    if k == |queues| then {} else Elements(queues[k]) + Members(queues, k + 1)
  }

  lemma {:induction false} MembersAre<T>(queues: seq<seq<T>>, k: nat, t: T)
    requires k <= |queues|
    ensures t in Members(queues, k) <==> exists i :: k <= i < |queues| && t in queues[i]
    decreases |queues| - k
  {
    if k < |queues| {
      MembersAre(queues, k + 1, t);
    }
  }

  /** Bands that share no thread hold as many threads as their lengths add up to. */
  lemma {:induction false} MembersCount<T>(queues: seq<seq<T>>, k: nat)
    requires k <= |queues| && forall i :: 0 <= i < |queues| ==> Distinct(queues[i])
    requires forall i, j, t :: 0 <= i < |queues| && 0 <= j < |queues| && t in queues[i] && t in queues[j] ==> i == j
    ensures |Members(queues, k)| == Queued(queues, k)
    decreases |queues| - k
  {
    if k < |queues| {
      MembersCount(queues, k + 1);
      ElementsCount(queues[k]);
      forall t | t in Elements(queues[k]) && t in Members(queues, k + 1)
        ensures false
      {
        MembersAre(queues, k + 1, t);
      }
      assert Elements(queues[k]) !! Members(queues, k + 1);
    }
  }

  /** There is room for one more: a thread that is not queued leaves at most 31 that are. */
  lemma RoomToQueue<T>(s: Sched<T>, t: T)
    requires QueuesHold(s) && |s.state| <= 32 && t in s.state && s.state[t] != Ready
    ensures Queued(s.queues, 0) < 32
  {
    forall i | 0 <= i < 8
      ensures Distinct(s.queues[i])
      ensures forall u :: u in s.queues[i] ==> u in s.state && s.prio[u] == i && u != t
    {
      assert BandHolds(s.queues[i], s.state, s.prio, i);
    }
    hide BandHolds;
    MembersCount(s.queues, 0);
    forall u | u in Members(s.queues, 0)
      ensures u in s.state.Keys - {t}
    {
      MembersAre(s.queues, 0, u);
    }
    assert Members(s.queues, 0) <= s.state.Keys - {t};
    SubsetCount(Members(s.queues, 0), s.state.Keys - {t});
    assert |s.state.Keys - {t}| == |s.state.Keys| - 1;
  }

  lemma {:induction false} SubsetCount<T>(a: set<T>, b: set<T>)
    requires a <= b
    ensures |a| <= |b|
  {
    if a != {} {
      var x :| x in a;
      SubsetCount(a - {x}, b - {x});
    }
  }

  // ---- Steps keep the queues right ----

  lemma BandGains<T>(q: seq<T>, state: map<T, ThreadState>, prio: map<T, nat>, i: nat, t: T)
    requires prio.Keys == state.Keys && t in state && state[t] != Ready && BandHolds(q, state, prio, i)
    ensures t !in q
    ensures BandHolds(if prio[t] == i then q + [t] else q, state[t := Ready], prio, i)
  {
  }

  lemma BandLoses<T>(q: seq<T>, state: map<T, ThreadState>, prio: map<T, nat>, i: nat, j: nat, st: ThreadState)
    requires prio.Keys == state.Keys && j < |q| && st != Ready && BandHolds(q, state, prio, i)
    ensures q[j] in state && state[q[j]] == Ready && prio[q[j]] == i
    ensures BandHolds(q[..j] + q[j + 1..], state[q[j] := st], prio, i)
  {
    assert q[j] in q;
    var r := q[..j] + q[j + 1..];
    forall u | u in q && u != q[j]
      ensures u in r
    {
      var k :| 0 <= k < |q| && q[k] == u;
      if k < j {
        assert r[k] == u;
      } else {
        assert r[k - 1] == u;
      }
    }
  }

  /** A band is not concerned with a thread that is not READY, or of another priority. */
  lemma BandIgnores<T>(q: seq<T>, state: map<T, ThreadState>, prio: map<T, nat>, i: nat, t: T, st: ThreadState)
    requires prio.Keys == state.Keys && t in state && BandHolds(q, state, prio, i)
    requires prio[t] != i || (state[t] != Ready && st != Ready)
    ensures BandHolds(q, state[t := st], prio, i)
  {
  }

  /** A thread made READY is queued at the end of its band, and the call cannot fail. */
  lemma MakeReady<T>(s: Sched<T>, t: T)
    requires QueuesHold(s) && |s.state| <= 32 && t in s.state && s.state[t] != Ready && s.prio[t] < 8
    ensures Enqueue(SetState(s, t, Ready), t).1 && QueuesHold(Enqueue(SetState(s, t, Ready), t).0)
  {
    hide BandHolds, Queued;
    RoomToQueue(s, t);
    forall i | 0 <= i < 8
      ensures t !in s.queues[i]
      ensures BandHolds(if s.prio[t] == i then s.queues[i] + [t] else s.queues[i], s.state[t := Ready], s.prio, i)
    {
      BandGains(s.queues[i], s.state, s.prio, i, t);
    }
  }

  /** The thread taken off the queues was READY; once RUNNING the queues are right again. */
  lemma TakeNext<T>(s: Sched<T>)
    requires QueuesHold(s)
    ensures var (s1, n) := Dequeue(s);
            if n.None? then s1 == s && forall t :: t in s.state ==> s.state[t] != Ready
            else n.value in s.state && s.state[n.value] == Ready && QueuesHold(SwitchTo(s1, n.value))
  {
    var b := FirstBand(s.queues, 0);
    if b < 8 {
      TakeFrom(s, b);
    } else {
      forall t | t in s.state
        ensures s.state[t] != Ready
      {
        assert BandHolds(s.queues[Min(s.prio[t], 7)], s.state, s.prio, Min(s.prio[t], 7));
      }
    }
  }

  lemma TakeFrom<T>(s: Sched<T>, b: nat)
    requires QueuesHold(s) && b == FirstBand(s.queues, 0) < 8
    ensures var n := s.queues[b][0];
            n in s.state && s.state[n] == Ready && QueuesHold(SwitchTo(Dequeue(s).0, n))
  {
    hide BandHolds, Queued;
    var q := s.queues[b];
    BandLoses(q, s.state, s.prio, b, 0, Running);
    assert q[..0] + q[1..] == q[1..];
    forall i | 0 <= i < 8 && i != b
      ensures BandHolds(s.queues[i], s.state[q[0] := Running], s.prio, i)
    {
      BandIgnores(s.queues[i], s.state, s.prio, i, q[0], Running);
    }
  }

  /** The running thread may become anything but READY without touching the queues. */
  lemma LeaveQueues<T>(s: Sched<T>, t: T, st: ThreadState)
    requires QueuesHold(s) && t in s.state && s.state[t] != Ready && st != Ready
    ensures QueuesHold(SetState(s, t, st))
  {
    hide BandHolds;
    forall i | 0 <= i < 8
      ensures BandHolds(s.queues[i], s.state[t := st], s.prio, i)
    {
      BandIgnores(s.queues[i], s.state, s.prio, i, t, st);
    }
  }

  /** Giving up the processor as BLOCKED: some READY thread takes over. */
  lemma SwitchFromBlocked<T>(s: Sched<T>)
    requires SchedInv(s) && exists t :: t in s.state && s.state[t] == Ready
    ensures var c := s.current.value;
            var (s1, n) := Dequeue(SetState(s, c, Blocked));
            n.Some? && n.value in s.state && s.state[n.value] == Ready && SchedInv(SwitchTo(s1, n.value))
  {
    hide BandHolds, QueuesHold, Queued;
    var c := s.current.value;
    var s0 := SetState(s, c, Blocked);
    LeaveQueues(s, c, Blocked);
    var t :| t in s.state && s.state[t] == Ready;
    assert t in s0.state && s0.state[t] == Ready;
    TakeNext(s0);
    assert s0.state.Keys == s.state.Keys;
  }

  /** Giving up the processor as READY: the queue is not empty, so some thread takes over. */
  lemma SwitchFromReady<T>(s: Sched<T>)
    requires SchedInv(s)
    ensures var c := s.current.value;
            var (s0, ok) := Yield(s, c);
            var (s1, n) := Dequeue(s0);
            ok && n.Some? && n.value in s.state && SchedInv(SwitchTo(s1, n.value))
  {
    hide BandHolds, Queued;
    var c := s.current.value;
    var s' := s.(ticks := s.ticks[c := QUANTUM], preempt := false);
    assert QueuesHold(s');
    MakeReady(s', c);
    var s0 := Yield(s, c).0;
    assert s0 == Enqueue(SetState(s', c, Ready), c).0;
    TakeNext(s0);
    assert s0.state[c] == Ready;
    assert s0.state.Keys == s.state.Keys;
  }
}
