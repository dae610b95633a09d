/**
  The run queues as sched.c keeps them: one intrusive list of threads per priority band, with
  head, tail and count, linked through the threads themselves.  Every call is tied to the
  function of the same name in Scheduling.
*/
module RunQueues {
  import opened Numbers
  import opened Sequences
  import opened S = Scheduling
  import SchedOrder

  class Thread {
    var state: ThreadState
    var priority: nat
    var ticks: nat
    var total: nat
    var next: Thread?

    constructor (priority: nat)
      ensures state == Init && this.priority == priority && ticks == 0 && total == 0 && next == null
    {
      state, this.priority, ticks, total, next := Init, priority, 0, 0, null;
    }
  }

  /** The thread at place j of a band, or no thread past either end. */
  ghost function At(q: seq<Thread>, j: int): Thread? {
    if 0 <= j < |q| then q[j] else null
  }

  /** The list that starts at head runs through q in order and ends at tail. */
  ghost predicate Listed(q: seq<Thread>, head: Thread?, tail: Thread?, count: nat, next: map<Thread, Thread?>) {
    && head == At(q, 0) && tail == At(q, |q| - 1) && count == |q| && Distinct(q)
    && forall j :: 0 <= j < |q| ==> q[j] in next && next[q[j]] == At(q, j + 1)
  }

  ghost predicate AllListed(queues: seq<seq<Thread>>, heads: seq<Thread?>, tails: seq<Thread?>, counts: seq<nat>,
                            next: map<Thread, Thread?>)
  {
    && |queues| == |heads| == |tails| == |counts| == 8
    && forall i :: 0 <= i < 8 ==> Listed(queues[i], heads[i], tails[i], counts[i], next)
  }

  /** Every queued thread stands in the band of its priority. */
  ghost predicate InBands(queues: seq<seq<Thread>>, prio: map<Thread, nat>) {
    forall i, j :: 0 <= i < |queues| && 0 <= j < |queues[i]| ==> queues[i][j] in prio && prio[queues[i][j]] == i
  }

  ghost predicate Inside(queues: seq<seq<Thread>>, world: set<Thread>) {
    |queues| == 8 && forall i, j :: 0 <= i < 8 && 0 <= j < |queues[i]| ==> queues[i][j] in world
  }

  ghost function Cut(q: seq<Thread>, j: nat): seq<Thread>
    requires j < |q|
  {
    q[..j] + q[j + 1..]
  }

  lemma ListFrame(q: seq<Thread>, head: Thread?, tail: Thread?, count: nat,
                  next: map<Thread, Thread?>, next': map<Thread, Thread?>)
    requires Listed(q, head, tail, count, next)
    requires forall t :: t in q ==> t in next' && t in next && next'[t] == next[t]
    ensures Listed(q, head, tail, count, next')
  {
  }

  lemma CutInside(queues: seq<seq<Thread>>, world: set<Thread>, i: nat, j: nat)
    requires Inside(queues, world) && i < 8 && j < |queues[i]|
    ensures |queues| == 8 && queues[i][j] in world && (0 < j ==> queues[i][j - 1] in world)
    ensures Inside(queues[i := Cut(queues[i], j)], world)
  {
  }

  lemma CutDistinct(q: seq<Thread>, j: nat)
    requires Distinct(q) && j < |q|
    ensures Distinct(Cut(q, j)) && forall t :: t in Cut(q, j) ==> t in q && t != q[j]
  {
  }

  /** What the links become when the thread at place j is unlinked. */
  ghost function Unlinked(q: seq<Thread>, next: map<Thread, Thread?>, j: nat): map<Thread, Thread?>
    requires j < |q| && q[j] in next
  {
    if j == 0 then next[q[j] := null] else next[q[j - 1] := next[q[j]]][q[j] := null]
  }

  /** Unlinking one thread leaves the list of the others in order. */
  lemma ListRemove(q: seq<Thread>, head: Thread?, tail: Thread?, count: nat, next: map<Thread, Thread?>, j: nat)
    requires Listed(q, head, tail, count, next) && j < |q|
    ensures Listed(Cut(q, j), if j == 0 then next[q[j]] else head, if tail == q[j] then At(q, j - 1) else tail,
                   count - 1,
                   Unlinked(q, next, j))
  {
    var r, n := Cut(q, j), Unlinked(q, next, j);
    CutDistinct(q, j);
    forall k | 0 <= k < |r|
      ensures r[k] in n && n[r[k]] == At(r, k + 1)
    {
      LinkAfterCut(q, next, j, k);
    }
    hide Distinct, Unlinked;
    assert tail == q[|q| - 1];
    if j < |q| - 1 {
      assert tail != q[j] by {
        TwoPlaces(q, j, |q| - 1);
      }
    }
  }

  lemma TwoPlaces(q: seq<Thread>, i: nat, j: nat)
    requires Distinct(q) && i < j < |q|
    ensures q[i] != q[j]
  {
  }

  lemma LinkAfterCut(q: seq<Thread>, next: map<Thread, Thread?>, j: nat, k: nat)
    requires Distinct(q) && j < |q| && k < |q| - 1
    requires forall i :: 0 <= i < |q| ==> q[i] in next && next[q[i]] == At(q, i + 1)
    ensures var r, n := Cut(q, j), Unlinked(q, next, j); r[k] in n && n[r[k]] == At(r, k + 1)
  {
    hide Distinct;
    var x := if k < j then k else k + 1;
    assert Cut(q, j)[k] == q[x];
    if x < j {
      TwoPlaces(q, x, j);
    } else {
      TwoPlaces(q, j, x);
    }
    if 0 < j {
      if x < j - 1 {
        TwoPlaces(q, x, j - 1);
      } else if j - 1 < x {
        TwoPlaces(q, j - 1, x);
      }
    }
  }

  lemma ListAppend(q: seq<Thread>, head: Thread?, tail: Thread?, count: nat, next: map<Thread, Thread?>, t: Thread)
    requires Listed(q, head, tail, count, next) && t !in q
    ensures Listed(q + [t], if tail == null then t else head, t, count + 1,
                   if q == [] then next[t := null] else next[t := null][q[|q| - 1] := t])
  {
    var n := if q == [] then next[t := null] else next[t := null][q[|q| - 1] := t];
    forall j | 0 <= j < |q|
      ensures n[q[j]] == At(q + [t], j + 1)
    {
      assert next[q[j]] == At(q, j + 1);
    }
  }

  function Current(t: Thread?): Option<Thread> {
    if t == null then None else Some(t)
  }

  class Scheduler {
    const heads: array<Thread?>
    const tails: array<Thread?>
    const counts: array<nat>
    var totalReady: nat
    var mode: Mode
    var preempt: bool
    var current: Thread?
    ghost const world: set<Thread>
    ghost var queues: seq<seq<Thread>>

    ghost predicate Shape() {
      heads != tails && heads.Length == 8 && tails.Length == 8 && counts.Length == 8
    }

    ghost function Links(): map<Thread, Thread?>
      reads world
    {
      map t | t in world :: t.next
    }

    ghost function States(): map<Thread, ThreadState>
      reads world
    {
      map t | t in world :: t.state
    }

    ghost function Priorities(): map<Thread, nat>
      reads world
    {
      map t | t in world :: t.priority
    }

    ghost function Ticks(): map<Thread, nat>
      reads world
    {
      map t | t in world :: t.ticks
    }

    /** The lists are the ghost sequences, and the counters count them. */
    ghost predicate Valid()
      reads this, heads, tails, counts, world
    {
      && Shape() && |queues| == 8 && Inside(queues, world) && (current != null ==> current in world)
      && totalReady == Queued(queues, 0)
      && InBands(queues, Priorities())
      && AllListed(queues, heads[..], tails[..], counts[..], Links())
    }

    ghost function View(): Sched<Thread>
      reads this, world
    {
      Sched(queues, States(), Priorities(), Ticks(), Current(current), preempt, mode)
    }

    constructor (ghost threads: set<Thread>)
      ensures Valid() && world == threads && fresh(heads) && fresh(tails) && fresh(counts)
      ensures queues == seq(8, _ => []) && mode == Idle && !preempt && current == null
    {
      heads := new Thread?[8](_ => null);
      tails := new Thread?[8](_ => null);
      counts := new nat[8](_ => 0);
      totalReady, mode, preempt, current := 0, Idle, false, null;
      world, queues := threads, seq(8, _ => []);
      new;
      SchedOrder.NothingQueued(queues, 0);
    }

    // ---- Fields of a thread ----

    method SetNext(t: Thread, n: Thread?)
      requires t in world
      modifies t`next
      ensures t.next == n && Links() == old(Links())[t := n]
      ensures States() == old(States()) && Priorities() == old(Priorities()) && Ticks() == old(Ticks())
    {
      t.next := n;
    }

    method SetState(t: Thread, st: ThreadState)
      requires t in world
      modifies t`state
      ensures t.state == st && States() == old(States())[t := st]
      ensures Links() == old(Links()) && Priorities() == old(Priorities()) && Ticks() == old(Ticks())
    {
      t.state := st;
    }

    method SetTicks(t: Thread, n: nat)
      requires t in world
      modifies t`ticks
      ensures t.ticks == n && Ticks() == old(Ticks())[t := n]
      ensures Links() == old(Links()) && Priorities() == old(Priorities()) && States() == old(States())
    {
      t.ticks := n;
    }

    // ---- Lists ----

    lemma LinkOf(t: Thread)
      requires t in world
      ensures t in Links() && Links()[t] == t.next
    {
    }

    method QueueContains(p: nat, target: Thread) returns (found: bool)
      requires Valid() && p < 8
      ensures found <==> target in queues[p]
    {
      ghost var q := queues[p];
      assert Listed(q, heads[p], tails[p], counts[p], Links());
      var cur := heads[p];
      ghost var j := 0;
      while cur != null
        invariant 0 <= j <= |q| && cur == At(q, j) && target !in q[..j]
        decreases |q| - j
      {
        if cur == target {
          return true;
        }
        assert Links()[cur] == At(q, j + 1);
        cur := cur.next;
        j := j + 1;
      }
      return false;
    }

    /** The pointer part of unlinking cur, whose predecessor is prev, from band i. */
    method Splice(i: nat, prev: Thread?, cur: Thread)
      requires Shape() && i < 8 && cur in world && (prev != null ==> prev in world && prev != cur) && counts[i] > 0
      modifies heads, tails, counts, world
      ensures cur.next == null
      ensures heads[..] == old(heads[..])[i := if prev == null then old(Links()[cur]) else old(heads[i])]
      ensures tails[..] == old(tails[..])[i := if old(tails[i]) == cur then prev else old(tails[i])]
      ensures counts[..] == old(counts[..])[i := old(counts[i]) - 1]
      ensures var p: Thread := if prev == null then cur else prev;
              Links() == if prev == null then old(Links())[cur := null]
                        else old(Links())[p := old(Links()[cur])][cur := null]
      ensures States() == old(States()) && Priorities() == old(Priorities()) && Ticks() == old(Ticks())
    {
      hide Links, States, Priorities, Ticks;
      LinkOf(cur);
      var after := cur.next;
      if prev == null {
        heads[i] := after;
      } else {
        SetNext(prev, after);
      }
      if tails[i] == cur {
        tails[i] := prev;
      }
      SetNext(cur, null);
      counts[i] := counts[i] - 1;
    }

    /** Take the thread at place j of band i out of its list, given its predecessor. */
    method Unlink(i: nat, ghost j: nat, prev: Thread?, cur: Thread)
      requires Valid() && i < 8 && j < |queues[i]| && cur == queues[i][j] && prev == At(queues[i], j - 1)
      modifies this, heads, tails, counts, world
      ensures Valid() && cur.next == null
      ensures queues == old(queues)[i := Cut(old(queues)[i], j)]
      ensures View() == old(View()).(queues := queues, mode := if Queued(old(queues), 0) == 1 then Idle else old(mode))
    {
      hide Queued, AllListed, InBands, Cut, Listed, Inside, Links, States, Priorities, Ticks;
      ghost var q := queues[i];
      RemoveFrom(queues, heads[..], tails[..], counts[..], Links(), i, j, Priorities());
      CutInside(queues, world, i, j);
      SchedOrder.QueuedUpdate(queues, i, Cut(q, j), 0);
      Splice(i, prev, cur);
      totalReady := totalReady - 1;
      queues := queues[i := Cut(q, j)];
      if totalReady == 0 {
        mode := Idle;
      }
    }

    /** Search the bands in order for the target and take it out of its list. */
    method QueueRemove(target: Thread?) returns (ok: bool)
      requires Valid()
      modifies this, heads, tails, counts, world
      ensures Valid()
      ensures if target == null then !ok && View() == old(View()) else (View(), ok) == Remove(old(View()), target)
    {
      hide Queued, AllListed, InBands, Listed, Inside, Links, States, Priorities, Ticks;
      if target == null {
        return false;
      }
      for i := 0 to 8
        invariant Valid() && View() == old(View()) && forall k :: 0 <= k < i ==> target !in queues[k]
      {
        var prev, cur, found := FindIn(i, target);
        if found {
          ghost var q := queues[i];
          assert BandOf(queues, target, 0) == i;
          Unlink(i, Place(q, target), prev, target);
          return true;
        }
      }
      return false;
    }

    /** Walk band i to the target, keeping the thread before it. */
    method FindIn(i: nat, target: Thread) returns (prev: Thread?, cur: Thread?, found: bool)
      requires Valid() && i < 8
      ensures found <==> target in queues[i]
      ensures found ==> cur == target && prev == At(queues[i], Place(queues[i], target) - 1)
    {
      ghost var q := queues[i];
      assert Listed(q, heads[i], tails[i], counts[i], Links());
      prev, cur, found := null, heads[i], false;
      ghost var j := 0;
      while cur != null
        invariant 0 <= j <= |q| && cur == At(q, j) && prev == At(q, j - 1) && target !in q[..j]
        decreases |q| - j
      {
        if cur == target {
          PlaceIs(q, target, j);
          return prev, cur, true;
        }
        assert Links()[cur] == At(q, j + 1);
        prev, cur := cur, cur.next;
        j := j + 1;
      }
    }

    // ---- The calls ----

    /** The pointer part of queueing t in band p. */
    method Append(p: nat, t: Thread)
      requires Shape() && p < 8 && t in world && (tails[p] != null ==> tails[p] in world)
      modifies heads, tails, counts, world
      ensures heads[..] == old(heads[..])[p := if old(tails[p]) == null then t else old(heads[p])]
      ensures tails[..] == old(tails[..])[p := t]
      ensures counts[..] == old(counts[..])[p := old(counts[p]) + 1]
      ensures var l: Thread := if old(tails[p]) == null then t else old(tails[p]);
              Links() == if old(tails[p]) == null then old(Links())[t := null] else old(Links())[t := null][l := t]
      ensures States() == old(States()) && Priorities() == old(Priorities()) && Ticks() == old(Ticks())
    {
      hide Links, States, Priorities, Ticks;
      SetNext(t, null);
      if tails[p] == null {
        heads[p] := t;
        tails[p] := t;
      } else {
        SetNext(tails[p], t);
        tails[p] := t;
      }
      counts[p] := counts[p] + 1;
    }

    method Enqueue(t: Thread?) returns (ok: bool)
      requires Valid() && (t != null ==> t in world)
      modifies this, heads, tails, counts, world
      ensures Valid()
      ensures if t == null then !ok && View() == old(View()) else (View(), ok) == S.Enqueue(old(View()), t)
    {
      hide Queued, AllListed, InBands, Listed, Inside, Links, States, Priorities, Ticks;
      if t == null {
        return false;
      }
      FieldsOf(t);
      if t.state != Ready || t.priority >= 8 || totalReady >= 32 {
        return false;
      }
      var p := t.priority;
      var queued := QueueContains(p, t);
      if queued {
        return false;
      }
      AppendTo(queues, heads[..], tails[..], counts[..], Links(), p, t, Priorities());
      AppendInside(queues, world, p, t);
      ghost var q: seq<Thread> := queues[p] + [t];
      SchedOrder.QueuedUpdate(queues, p, q, 0);
      TailInside(p);
      Append(p, t);
      totalReady := totalReady + 1;
      mode := Busy;
      queues := queues[p := q];
      return true;
    }

    /** The pointer part of taking the first thread t off band i. */
    method PopHead(i: nat, t: Thread)
      requires Shape() && i < 8 && t in world && counts[i] > 0
      modifies heads, tails, counts, world
      ensures t.next == null
      ensures heads[..] == old(heads[..])[i := old(Links()[t])]
      ensures tails[..] == old(tails[..])[i := if old(Links()[t]) == null then null else old(tails[i])]
      ensures counts[..] == old(counts[..])[i := old(counts[i]) - 1]
      ensures Links() == old(Links())[t := null]
      ensures States() == old(States()) && Priorities() == old(Priorities()) && Ticks() == old(Ticks())
    {
      hide Links, States, Priorities, Ticks;
      LinkOf(t);
      heads[i] := t.next;
      if heads[i] == null {
        tails[i] := null;
      }
      SetNext(t, null);
      counts[i] := counts[i] - 1;
    }

    method Dequeue() returns (t: Thread?)
      requires Valid()
      modifies this, heads, tails, counts, world
      ensures Valid()
      ensures (View(), Current(t)) == S.Dequeue(old(View()))
      ensures t != null ==> t in world
    {
      hide Queued, AllListed, InBands, Listed, Inside, Links, States, Priorities, Ticks, Cut;
      for i := 0 to 8
        invariant Valid() && View() == old(View()) && forall k :: 0 <= k < i ==> queues[k] == []
      {
        HeadInside(i);
        if heads[i] != null {
          t := heads[i];
          ghost var q := queues[i];
          assert FirstBand(queues, 0) == i;
          RemoveFrom(queues, heads[..], tails[..], counts[..], Links(), i, 0, Priorities());
          CutInside(queues, world, i, 0);
          CutFirst(q);
          SchedOrder.QueuedUpdate(queues, i, q[1..], 0);
          PopHead(i, t);
          totalReady := totalReady - 1;
          queues := queues[i := q[1..]];
          if totalReady == 0 {
            mode := Idle;
          }
          return;
        }
      }
      return null;
    }

    method Yield(t: Thread?) returns (ok: bool)
      requires Valid() && (t != null ==> t in world)
      modifies this, heads, tails, counts, world
      ensures Valid()
      ensures if t == null then !ok && View() == old(View()) else (View(), ok) == S.Yield(old(View()), t)
    {
      hide Queued, AllListed, InBands, Listed, Inside, Links, States, Priorities, Ticks;
      if t == null {
        return false;
      }
      FieldsOf(t);
      if t.state != Running {
        return false;
      }
      SetState(t, Ready);
      SetTicks(t, QUANTUM);
      preempt := false;
      ok := Enqueue(t);
    }

    method Tick(t: Thread?)
      requires Valid() && (t != null ==> t in world)
      modifies this, world
      ensures Valid()
      ensures View() == if t == null then old(View()) else S.Tick(old(View()), t)
      ensures t != null ==> t.total == (old(t.total) + 1) % 0x1_0000_0000_0000_0000
    {
      hide Queued, AllListed, InBands, Listed, Inside, Links, States, Priorities, Ticks;
      if t == null {
        return;
      }
      CountTick(t);
      FieldsOf(t);
      if t.ticks > 0 {
        SetTicks(t, t.ticks - 1);
      } else {
        SetTicks(t, 0);
      }
      if t.ticks == 0 {
        preempt := true;
        mode := PreemptPending;
      }
    }

    method CountTick(t: Thread)
      requires t in world
      modifies t`total
      ensures t.total == (old(t.total) + 1) % 0x1_0000_0000_0000_0000
      ensures Links() == old(Links()) && States() == old(States())
      ensures Priorities() == old(Priorities()) && Ticks() == old(Ticks())
    {
      t.total := (t.total + 1) % 0x1_0000_0000_0000_0000;
    }

    method Next(cur: Thread?) returns (next: Thread?)
      requires Valid() && (cur != null ==> cur in world)
      modifies this, heads, tails, counts, world
      ensures Valid()
      ensures Shaped(old(View())) && (View(), Current(next)) == S.Next(old(View()), Current(cur))
    {
      hide Queued, AllListed, InBands, Listed, Inside, Links, States, Priorities, Ticks, S.Dequeue, S.Yield;
      IsShaped();
      var c := cur;
      if cur != null {
        FieldsOf(cur);
        if preempt && cur.state == Running {
          Requeue(cur);
          c := null;
        }
      }
      next := Dequeue();
      if c != null {
        FieldsOf(c);
      }
      next := Pick(c, next);
    }

    /** The running thread goes back to its queue with a fresh quantum. */
    method Requeue(cur: Thread)
      requires Valid() && cur in world && cur.state == Running && preempt
      modifies this, heads, tails, counts, world
      ensures Valid() && View() == S.Yield(old(View()), cur).0
    {
      hide Queued, AllListed, InBands, Listed, Inside, Links, States, Priorities, Ticks, S.Enqueue;
      FieldsOf(cur);
      preempt := false;
      SetState(cur, Ready);
      SetTicks(cur, QUANTUM);
      var _ := Enqueue(cur);
    }

    /** The last part of choosing: idle, carry on, or give the next thread its first quantum. */
    method Pick(c: Thread?, n: Thread?) returns (next: Thread?)
      requires Valid() && (c != null ==> c in world) && (n != null ==> n in world)
      modifies this, world
      ensures Valid()
      ensures n == null ==> if c != null && old(c.state) == Running then View() == old(View()) && next == c
                            else View() == old(View()).(mode := Idle) && next == null
      ensures n != null ==>
        && next == n && n in old(Ticks())
        && View() == if old(Ticks())[n] == 0 then old(View()).(ticks := old(Ticks())[n := QUANTUM]) else old(View())
    {
      hide Queued, AllListed, InBands, Listed, Inside, Links, States, Priorities, Ticks;
      if n == null {
        if c != null && c.state == Running {
          return c;
        }
        mode := Idle;
        return null;
      }
      next := n;
      FieldsOf(n);
      if n.ticks == 0 {
        SetTicks(n, QUANTUM);
      }
    }

    lemma CurrentIs()
      requires Valid()
      ensures View().current == Current(current) && (current != null ==> current in world)
      ensures forall t :: t in world <==> t in View().state
    {
    }

    lemma IsShaped()
      requires |queues| == 8
      ensures Shaped(View())
    {
    }

    method Block(t: Thread?) returns (ok: bool)
      requires Valid() && (t != null ==> t in world)
      modifies this, heads, tails, counts, world
      ensures Valid()
      ensures if t == null then !ok && View() == old(View()) else (View(), ok) == S.Block(old(View()), t)
    {
      hide Queued, AllListed, InBands, Listed, Inside, Links, States, Priorities, Ticks;
      if t == null {
        return false;
      }
      FieldsOf(t);
      if t.state == Blocked {
        return true;
      }
      if t.state == Ready {
        var removed := QueueRemove(t);
        if !removed {
          return false;
        }
      } else if t.state != Running {
        return false;
      }
      SetState(t, Blocked);
      return true;
    }

    method Unblock(t: Thread?) returns (ok: bool)
      requires Valid() && (t != null ==> t in world)
      modifies this, heads, tails, counts, world
      ensures Valid()
      ensures if t == null then !ok && View() == old(View()) else (View(), ok) == S.Unblock(old(View()), t)
    {
      hide Queued, AllListed, InBands, Listed, Inside, Links, States, Priorities, Ticks;
      if t == null {
        return false;
      }
      FieldsOf(t);
      if t.state != Blocked {
        return false;
      }
      SetState(t, Ready);
      ok := Enqueue(t);
    }

    /** Nobody else can run: queue the caller as READY, then carry on as RUNNING. */
    method Undo(t: Thread)
      requires Valid() && t in world
      modifies this, heads, tails, counts, world
      ensures Valid() && View() == S.Undo(old(View()), t)
    {
      hide Queued, AllListed, InBands, Listed, Inside, Links, States, Priorities, Ticks, S.Enqueue;
      FieldsOf(t);
      SetState(t, Ready);
      var _ := Enqueue(t);
      SetState(t, Running);
      current := t;
    }

    /** The state part of a context switch; the registers are not modelled. */
    method ContextSwitch(prev: Thread?, next: Thread?)
      requires Valid() && (next != null ==> next in world)
      modifies this, world
      ensures Valid()
      ensures View() == if prev == null || next == null then old(View()) else SwitchTo(old(View()), next)
    {
      hide Queued, AllListed, InBands, Listed, Inside, Links, States, Priorities, Ticks;
      if prev == null || next == null {
        return;
      }
      SetState(next, Running);
      current := next;
    }

    /** The counter is the number of threads on the lists. */
    method GetReadyCount() returns (n: nat)
      requires Valid()
      ensures n == Queued(View().queues, 0)
    {
      n := totalReady;
    }

    lemma HeadInside(i: nat)
      requires Valid() && i < 8
      ensures heads[i] == At(queues[i], 0) && (heads[i] != null ==> heads[i] in world)
      ensures heads[i] != null ==> (Links()[heads[i]] == null <==> tails[i] == heads[i])
      ensures heads[i] != null && tails[i] != heads[i] ==> Links()[heads[i]] != null
    {
      assert Listed(queues[i], heads[i], tails[i], counts[i], Links());
    }

    lemma FieldsOf(t: Thread)
      requires t in world
      ensures t in States() && States()[t] == t.state
      ensures t in Priorities() && Priorities()[t] == t.priority
      ensures t in Ticks() && Ticks()[t] == t.ticks
    {
    }

    lemma TailInside(p: nat)
      requires Valid() && p < 8
      ensures tails[p] == At(queues[p], |queues[p]| - 1) && (tails[p] != null ==> tails[p] in world)
    {
      assert Listed(queues[p], heads[p], tails[p], counts[p], Links());
    }
  }

  /** Unlinking from one band gives that band's list without the thread; the others stay. */
  lemma RemoveFrom(queues: seq<seq<Thread>>, heads: seq<Thread?>, tails: seq<Thread?>, counts: seq<nat>,
                   next: map<Thread, Thread?>, i: nat, j: nat, prio: map<Thread, nat>)
    requires AllListed(queues, heads, tails, counts, next) && InBands(queues, prio) && i < 8 && j < |queues[i]|
    ensures queues[i][j] in next && counts[i] > 0 && (0 < j ==> queues[i][j - 1] != queues[i][j])
    ensures |Cut(queues[i], j)| == |queues[i]| - 1
    ensures InBands(queues[i := Cut(queues[i], j)], prio)
    ensures AllListed(queues[i := Cut(queues[i], j)],
                      heads[i := if j == 0 then next[queues[i][j]] else heads[i]],
                      tails[i := if tails[i] == queues[i][j] then At(queues[i], j - 1) else tails[i]],
                      counts[i := counts[i] - 1], Unlinked(queues[i], next, j))
  {
    var q := queues[i];
    ListRemove(q, heads[i], tails[i], counts[i], next, j);
    forall k | 0 <= k < 8 && k != i
      ensures Listed(queues[k], heads[k], tails[k], counts[k], Unlinked(q, next, j))
    {
      assert forall t :: t in queues[k] ==> t !in q;
      ListFrame(queues[k], heads[k], tails[k], counts[k], next, Unlinked(q, next, j));
    }
  }

  lemma PlaceIs(q: seq<Thread>, t: Thread, j: nat)
    requires j < |q| && q[j] == t && t !in q[..j]
    ensures Place(q, t) == j
  {
    var k := Place(q, t);
    assert t !in q[..k] && t !in q[..j];
  }

  lemma CutFirst(q: seq<Thread>)
    requires q != []
    ensures Cut(q, 0) == q[1..]
  {
  }

  lemma AppendInside(queues: seq<seq<Thread>>, world: set<Thread>, p: nat, t: Thread)
    requires Inside(queues, world) && p < 8 && t in world
    ensures Inside(queues[p := queues[p] + [t]], world)
  {
  }

  /** Queueing a thread at the end of its band gives that band's longer list; the others stay. */
  lemma AppendTo(queues: seq<seq<Thread>>, heads: seq<Thread?>, tails: seq<Thread?>, counts: seq<nat>,
                 next: map<Thread, Thread?>, p: nat, t: Thread, prio: map<Thread, nat>)
    requires AllListed(queues, heads, tails, counts, next) && InBands(queues, prio)
    requires p < 8 && t in prio && prio[t] == p && t !in queues[p]
    ensures InBands(queues[p := queues[p] + [t]], prio)
    ensures var q := queues[p];
            AllListed(queues[p := q + [t]], heads[p := if tails[p] == null then t else heads[p]], tails[p := t],
                      counts[p := counts[p] + 1], if q == [] then next[t := null] else next[t := null][q[|q| - 1] := t])
  {
    var q := queues[p];
    ListAppend(q, heads[p], tails[p], counts[p], next, t);
    var next' := if q == [] then next[t := null] else next[t := null][q[|q| - 1] := t];
    forall k | 0 <= k < 8 && k != p
      ensures Listed(queues[k], heads[k], tails[k], counts[k], next')
    {
      assert forall u :: u in queues[k] ==> u !in q && u != t;
      ListFrame(queues[k], heads[k], tails[k], counts[k], next, next');
    }
  }
}
