/** Queueing any threads and taking them off again sorts them stably by priority. */
module SchedOrder {
  import opened Numbers
  import opened Sequences
  import opened Scheduling

  /** The threads of priority k, in order. */
  function Select<T(==)>(ts: seq<T>, prio: map<T, nat>, k: nat): seq<T>
    requires forall t :: t in ts ==> t in prio
  {
    if ts == [] then []
    else
      var rest := Select(ts[..|ts| - 1], prio, k);
      if prio[ts[|ts| - 1]] == k then rest + [ts[|ts| - 1]] else rest
  }

  function EnqueueAll<T(==)>(s: Sched<T>, ts: seq<T>): Sched<T>
    requires |s.queues| == 8 && forall t :: t in ts ==> t in s.state && t in s.prio
  {
    if ts == [] then s
    else
      var r := EnqueueAll(s, ts[..|ts| - 1]);
      if |r.queues| == 8 && ts[|ts| - 1] in r.state && ts[|ts| - 1] in r.prio then Enqueue(r, ts[|ts| - 1]).0 else r
  }

  function Drain<T>(s: Sched<T>): seq<T>
    requires |s.queues| == 8
    decreases Queued(s.queues, 0)
  {
    var b := FirstBand(s.queues, 0);
    if b == 8 then []
    else
      QueuedUpdate(s.queues, b, s.queues[b][1..], 0);
      [s.queues[b][0]] + Drain(Dequeue(s).0)
  }

  function Concat<T>(queues: seq<seq<T>>, k: nat): seq<T>
    requires k <= |queues|
    decreases |queues| - k, queues
  {
    if k == |queues| then [] else queues[k] + Concat(queues, k + 1)
  }

  lemma {:induction false} QueuedUpdate<T>(queues: seq<seq<T>>, b: nat, q: seq<T>, k: nat)
    requires k <= |queues| && b < |queues|
    ensures Queued(queues[b := q], k) == Queued(queues, k) + if k <= b then |q| - |queues[b]| else 0
    decreases |queues| - k
  {
    if k < |queues| {
      QueuedUpdate(queues, b, q, k + 1);
    }
  }

  lemma ConcatStep<T>(queues: seq<seq<T>>, k: nat)
    requires k < |queues|
    ensures Concat(queues, k) == queues[k] + Concat(queues, k + 1)
  {
  }

  lemma {:induction false} ConcatUpdate<T>(queues: seq<seq<T>>, b: nat, k: nat)
    requires k <= b < |queues| && queues[b] != [] && forall i :: k <= i < b ==> queues[i] == []
    ensures Concat(queues, k) == [queues[b][0]] + Concat(queues[b := queues[b][1..]], k)
    decreases |queues| - k
  {
    hide Concat;
    var q := queues[b := queues[b][1..]];
    ConcatStep(queues, k);
    ConcatStep(q, k);
    if k < b {
      ConcatUpdate(queues, b, k + 1);
    } else {
      ConcatSame(queues, q, k + 1);
      assert queues[b] == [queues[b][0]] + queues[b][1..];
    }
  }

  lemma {:induction false} ConcatSame<T>(p: seq<seq<T>>, q: seq<seq<T>>, k: nat)
    requires |p| == |q| && k <= |p| && forall i :: k <= i < |p| ==> p[i] == q[i]
    ensures Concat(p, k) == Concat(q, k)
    decreases |p| - k
  {
    if k < |p| {
      ConcatSame(p, q, k + 1);
    }
  }

  lemma {:induction false} ConcatEmpty<T>(queues: seq<seq<T>>, k: nat)
    requires k <= |queues| && forall i :: k <= i < |queues| ==> queues[i] == []
    ensures Concat(queues, k) == []
    decreases |queues| - k
  {
    if k < |queues| {
      ConcatEmpty(queues, k + 1);
    }
  }

  /** Dequeuing until nothing is left gives the bands one after the other. */
  lemma {:induction false} DrainIsConcat<T>(s: Sched<T>)
    requires |s.queues| == 8
    ensures Drain(s) == Concat(s.queues, 0)
    decreases Queued(s.queues, 0)
  {
    var b := FirstBand(s.queues, 0);
    if b == 8 {
      ConcatEmpty(s.queues, 0);
    } else {
      QueuedUpdate(s.queues, b, s.queues[b][1..], 0);
      DrainIsConcat(Dequeue(s).0);
      ConcatUpdate(s.queues, b, 0);
    }
  }

  /** Distinct READY threads, at most 32, with priorities in range. */
  ghost predicate Queueable<T>(s: Sched<T>, ts: seq<T>) {
    && |s.queues| == 8 && Distinct(ts) && |ts| <= 32
    && forall t :: t in ts ==> t in s.state && t in s.prio && s.state[t] == Ready && s.prio[t] < 8
  }

  lemma {:induction false} SelectIs<T>(ts: seq<T>, prio: map<T, nat>, k: nat, t: T)
    requires forall u :: u in ts ==> u in prio
    ensures t in Select(ts, prio, k) <==> t in ts && prio[t] == k
  {
    if ts != [] {
      SelectIs(ts[..|ts| - 1], prio, k, t);
      assert ts == ts[..|ts| - 1] + [ts[|ts| - 1]];
    }
  }

  /** After queueing from empty queues, each band is the selection of its priority and none was
      refused. */
  lemma {:induction false} BandsAreSelections<T>(s: Sched<T>, ts: seq<T>)
    requires Queueable(s, ts) && forall i :: 0 <= i < 8 ==> s.queues[i] == []
    ensures var r := EnqueueAll(s, ts);
            && |r.queues| == 8 && r.state == s.state && r.prio == s.prio
            && (forall i :: 0 <= i < 8 ==> r.queues[i] == Select(ts, s.prio, i))
            && Queued(r.queues, 0) == |ts|
  {
    if ts == [] {
      NothingQueued(s.queues, 0);
    } else {
      var init, t := ts[..|ts| - 1], ts[|ts| - 1];
      BandsAreSelections(s, init);
      var r := EnqueueAll(s, init);
      SelectIs(init, s.prio, s.prio[t], t);
      assert t in ts && t !in init;
      QueuedUpdate(r.queues, s.prio[t], r.queues[s.prio[t]] + [t], 0);
    }
  }

  lemma {:induction false} NothingQueued<T>(queues: seq<seq<T>>, k: nat)
    requires k <= |queues| && forall i :: 0 <= i < |queues| ==> queues[i] == []
    ensures Queued(queues, k) == 0
    decreases |queues| - k
  {
    if k < |queues| {
      NothingQueued(queues, k + 1);
    }
  }

  lemma {:induction false} SelectConcat<T>(a: seq<T>, b: seq<T>, prio: map<T, nat>, k: nat)
    requires forall t :: t in a + b ==> t in prio
    ensures (forall t :: t in a ==> t in prio) && (forall t :: t in b ==> t in prio)
    ensures Select(a + b, prio, k) == Select(a, prio, k) + Select(b, prio, k)
  {
    forall t | t in a || t in b
      ensures t in prio
    {
      assert t in a + b;
    }
    if b == [] {
      assert a + b == a;
    } else {
      assert (a + b)[..|a + b| - 1] == a + b[..|b| - 1];
      SelectConcat(a, b[..|b| - 1], prio, k);
    }
  }

  /** Selecting from threads that all have priority j gives all of them or none. */
  lemma {:induction false} SelectBand<T>(q: seq<T>, prio: map<T, nat>, j: nat, k: nat)
    requires forall t :: t in q ==> t in prio && prio[t] == j
    ensures Select(q, prio, k) == if j == k then q else []
  {
    if q != [] {
      SelectBand(q[..|q| - 1], prio, j, k);
    }
  }

  ghost predicate Banded<T>(queues: seq<seq<T>>, prio: map<T, nat>) {
    forall i, t :: 0 <= i < |queues| && t in queues[i] ==> t in prio && prio[t] == i
  }

  lemma {:induction false} ConcatMembers<T>(queues: seq<seq<T>>, prio: map<T, nat>, k: nat)
    requires k <= |queues| && Banded(queues, prio)
    ensures forall t :: t in Concat(queues, k) ==> t in prio && k <= prio[t] < |queues|
    decreases |queues| - k
  {
    if k < |queues| {
      ConcatMembers(queues, prio, k + 1);
    }
  }

  lemma {:induction false} ConcatSelect<T>(queues: seq<seq<T>>, prio: map<T, nat>, k: nat, j: nat)
    requires k <= |queues| && Banded(queues, prio)
    ensures forall t :: t in Concat(queues, k) ==> t in prio
    ensures Select(Concat(queues, k), prio, j) == if k <= j < |queues| then queues[j] else []
    decreases |queues| - k
  {
    ConcatMembers(queues, prio, k);
    if k < |queues| {
      ConcatSelect(queues, prio, k + 1, j);
      SelectConcat(queues[k], Concat(queues, k + 1), prio, j);
      SelectBand(queues[k], prio, k, j);
    }
  }

  lemma {:induction false} ConcatSorted<T>(queues: seq<seq<T>>, prio: map<T, nat>, k: nat)
    requires k <= |queues| && Banded(queues, prio)
    ensures forall t :: t in Concat(queues, k) ==> t in prio
    ensures forall a, b :: 0 <= a < b < |Concat(queues, k)| ==> prio[Concat(queues, k)[a]] <= prio[Concat(queues, k)[b]]
    decreases |queues| - k
  {
    ConcatMembers(queues, prio, k);
    if k < |queues| {
      ConcatSorted(queues, prio, k + 1);
      ConcatMembers(queues, prio, k + 1);
      var q, rest := queues[k], Concat(queues, k + 1);
      assert forall a :: 0 <= a < |q| ==> (q + rest)[a] in q;
      assert forall a :: |q| <= a < |q + rest| ==> (q + rest)[a] == rest[a - |q|] && rest[a - |q|] in rest;
    }
  }

  lemma {:induction false} SelectCount<T>(ts: seq<T>, prio: map<T, nat>, t: T)
    requires t in prio && forall u :: u in ts ==> u in prio
    ensures multiset(Select(ts, prio, prio[t]))[t] == multiset(ts)[t]
  {
    if ts != [] {
      SelectCount(ts[..|ts| - 1], prio, t);
      assert ts == ts[..|ts| - 1] + [ts[|ts| - 1]];
    }
  }

  /** Two sequences with the same selections are permutations of each other. */
  lemma SameSelections<T>(a: seq<T>, b: seq<T>, prio: map<T, nat>)
    requires (forall t :: t in a ==> t in prio) && (forall t :: t in b ==> t in prio)
    requires forall k :: Select(a, prio, k) == Select(b, prio, k)
    ensures multiset(a) == multiset(b)
  {
    forall t
      ensures multiset(a)[t] == multiset(b)[t]
    {
      if t in prio {
        SelectCount(a, prio, t);
        SelectCount(b, prio, t);
      }
    }
  }

  /** Queue any threads, then take all of them off: what comes out is a permutation of what went
      in, sorted by priority, and threads of equal priority keep their order. */
  lemma DrainIsStableSort<T>(s: Sched<T>, ts: seq<T>)
    requires Queueable(s, ts) && forall i :: 0 <= i < 8 ==> s.queues[i] == []
    ensures |EnqueueAll(s, ts).queues| == 8
    ensures var out := Drain(EnqueueAll(s, ts));
            && multiset(out) == multiset(ts)
            && (forall t :: t in out ==> t in s.prio)
            && (forall a, b :: 0 <= a < b < |out| ==> s.prio[out[a]] <= s.prio[out[b]])
            && (forall k :: Select(out, s.prio, k) == Select(ts, s.prio, k))
  {
    hide Select, Drain, Concat, Queued, Distinct, EnqueueAll;
    BandsAreSelections(s, ts);
    var r := EnqueueAll(s, ts);
    DrainIsConcat(r);
    var out := Concat(r.queues, 0);
    forall i, t | 0 <= i < 8 && t in r.queues[i]
      ensures t in s.prio && s.prio[t] == i
    {
      SelectIs(ts, s.prio, i, t);
    }
    ConcatSorted(r.queues, s.prio, 0);
    forall k
      ensures Select(out, s.prio, k) == Select(ts, s.prio, k)
    {
      ConcatSelect(r.queues, s.prio, 0, k);
      if k >= 8 {
        NoSelection(ts, s.prio, k);
      }
    }
    SameSelections(out, ts, s.prio);
  }

  lemma {:induction false} NoSelection<T>(ts: seq<T>, prio: map<T, nat>, k: nat)
    requires forall t :: t in ts ==> t in prio && prio[t] != k
    ensures Select(ts, prio, k) == []
  {
    if ts != [] {
      NoSelection(ts[..|ts| - 1], prio, k);
    }
  }

  /** The threads of q other than t, in order. */
  function Without<T(==)>(q: seq<T>, t: T): seq<T> {
    if q == [] then [] else (if q[0] == t then [] else [q[0]]) + Without(q[1..], t)
  }

  lemma {:induction false} WithoutAbsent<T>(q: seq<T>, t: T)
    requires t !in q
    ensures Without(q, t) == q
  {
    if q != [] {
      WithoutAbsent(q[1..], t);
    }
  }

  lemma {:induction false} WithoutPlace<T>(q: seq<T>, t: T)
    requires t in q && Distinct(q)
    ensures var i := Place(q, t); q[..i] + q[i + 1..] == Without(q, t)
  {
    var i := Place(q, t);
    if q[0] == t {
      WithoutAbsent(q[1..], t);
      assert i == 0 && q[..0] + q[1..] == q[1..];
    } else {
      WithoutPlace(q[1..], t);
      assert q[..i] == [q[0]] + q[1..][..i - 1] && q[i + 1..] == q[1..][i..];
    }
  }

  /** Removing a thread deletes it from every band and nothing else, in order. */
  lemma RemoveDeletes<T>(s: Sched<T>, t: T)
    requires |s.queues| == 8 && forall i :: 0 <= i < 8 ==> Distinct(s.queues[i])
    requires forall i, j :: 0 <= i < 8 && 0 <= j < 8 && t in s.queues[i] && t in s.queues[j] ==> i == j
    ensures var (s', ok) := Remove(s, t);
            && (ok <==> exists i :: 0 <= i < 8 && t in s.queues[i])
            && |s'.queues| == 8 && forall i :: 0 <= i < 8 ==> s'.queues[i] == Without(s.queues[i], t)
  {
    hide Without, Distinct, Queued;
    var b := BandOf(s.queues, t, 0);
    if b < 8 {
      WithoutPlace(s.queues[b], t);
    }
    forall i | 0 <= i < 8 && i != b
      ensures Without(s.queues[i], t) == s.queues[i]
    {
      WithoutAbsent(s.queues[i], t);
    }
  }

  function Ticks<T>(s: Sched<T>, t: T, n: nat): (r: Sched<T>)
    requires t in s.ticks
    ensures t in r.ticks
  {
    if n == 0 then s else Tick(Ticks(s, t, n - 1), t)
  }

  /** A thread is asked to give way exactly when its remaining ticks are used up. */
  lemma {:induction false} QuantumRunsOut<T>(s: Sched<T>, t: T, n: nat)
    requires t in s.ticks
    ensures var r := Ticks(s, t, n);
            && r.ticks == s.ticks[t := Max(0, s.ticks[t] - n)]
            && (r.preempt <==> s.preempt || (n > 0 && n >= s.ticks[t]))
            && r.queues == s.queues && r.state == s.state && r.current == s.current
  {
    if n > 0 {
      QuantumRunsOut(s, t, n - 1);
    } else {
      assert s.ticks[t := s.ticks[t]] == s.ticks;
    }
  }
}
