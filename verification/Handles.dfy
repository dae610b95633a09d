/**
  Channel handles over whole runs: the generation in a handle keeps a destroyed channel's handle
  from being accepted again, as long as generations do not repeat modulo 2^24.
*/
module Handles {
  import opened Numbers
  import opened Scheduling
  import opened Ipc
  import opened IpcSafety
  import opened IpcRuns

  /** Two handles are equal exactly when their slots are and their generations agree in the 24
      bits that are kept. */
  lemma SameHandle(g1: nat, i: nat, g2: nat, j: nat)
    requires i < 16 && j < 16
    ensures Handle(g1, i) == Handle(g2, j) <==> i == j && g1 % 0x100_0000 == g2 % 0x100_0000
  {
  }

  // ---- Which steps touch handles ----

  /** Open slots and their handles. */
  ghost predicate SameNames<T>(a: seq<Chan<T>>, b: seq<Chan<T>>) {
    |a| == |b| && forall i :: 0 <= i < |a| ==> a[i].state == b[i].state && a[i].handle == b[i].handle
  }

  lemma SendNames<T>(k: Kernel<T>, h: nat, m: Msg)
    requires Typed(k)
    ensures SameNames(k.chans, TrySend(k, h, m).0.chans)
  {
    hide Wake;
  }

  lemma RecvNames<T>(k: Kernel<T>, h: nat, filter: nat)
    requires Typed(k)
    ensures SameNames(k.chans, TryRecv(k, h, filter).0.chans)
  {
    hide Wake;
  }

  lemma LeaveNames<T>(k: Kernel<T>, i: nat, op: Op)
    requires Typed(k) && i < 16
    ensures SameNames(k.chans, Leave(k, i, op).0.chans) && Leave(k, i, op).0.generation == k.generation
  {
    hide Dequeue, Block, Undo;
  }

  lemma OpNames<T>(w: World<T>, op: Op)
    requires Typed(w.k)
    ensures SameNames(w.k.chans, DoOp(w, op).k.chans) && DoOp(w, op).k.generation == w.k.generation
  {
    hide Leave, Wake;
    match op
    case SendOp(h, m) =>
      SendNames(w.k, h, m);
      if TrySend(w.k, h, m).1 == FULL {
        LeaveNames(w.k, Find(w.k.chans, h).value, op);
      }
    case RecvOp(h, filter) =>
      RecvNames(w.k, h, filter);
      if TryRecv(w.k, h, filter).1 == EMPTY {
        LeaveNames(w.k, Find(w.k.chans, h).value, op);
      }
  }

  /** Only creating and destroying changes which handles are in use. */
  lemma StepNames<T>(w: World<T>, e: Event)
    requires Typed(w.k) && !e.Create? && !e.Destroy?
    ensures SameNames(w.k.chans, Step(w, e).k.chans) && Step(w, e).k.generation == w.k.generation
  {
    hide DoOp, Wake, YieldStep, PriorityStep, PreemptStep, Tick;
    match e
    case Call(op) => OpNames(w, op);
    case Retry =>
      if w.k.sched.current.Some? && w.k.sched.current.value in w.k.pending {
        OpNames(w, w.k.pending[w.k.sched.current.value]);
      }
    case SendNow(h, m) => SendNames(w.k, h, m);
    case RecvNow(h, filter) => RecvNames(w.k, h, filter);
    case _ =>
  }

  // ---- Handles made and handles given up ----

  /** What a step made: the handle a creation returned. */
  ghost function MadeBy<T>(k: Kernel<T>, e: Event): seq<nat>
    requires |k.chans| == 16
  {
    if e.Create? && Ipc.Create(k).1 != 0 then [Ipc.Create(k).1] else []
  }

  ghost function GivenUpBy<T>(k: Kernel<T>, e: Event): set<nat>
    requires |k.chans| == 16
  {
    if e.Destroy? && Ipc.Destroy(k, e.handle).1 == OK then {e.handle} else {}
  }

  ghost function Made<T>(w: World<T>, es: seq<Event>): seq<nat>
    decreases |es|
  {
    if es == [] || !Typed(w.k) then [] else MadeBy(w.k, es[0]) + Made(Step(w, es[0]), es[1..])
  }

  ghost function GivenUp<T>(w: World<T>, es: seq<Event>): set<nat>
    decreases |es|
  {
    if es == [] || !Typed(w.k) then {} else GivenUpBy(w.k, es[0]) + GivenUp(Step(w, es[0]), es[1..])
  }

  /** The handle names some slot in this generation. */
  ghost predicate Carries(h: nat, generation: nat) {
    exists i :: 0 <= i < 16 && h == Handle(generation, i)
  }

  /** The n-th handle made carries generation n + 1; handles in use were made; given-up ones are
      not in use. */
  ghost predicate Named<T>(chans: seq<Chan<T>>, generation: nat, made: seq<nat>, dead: set<nat>) {
    && generation == |made| + 1
    && (forall n :: 0 <= n < |made| ==> Carries(made[n], n + 1))
    && (forall i :: 0 <= i < |chans| && chans[i].state == Open ==> chans[i].handle in made && chans[i].handle !in dead)
    && (forall h :: h in dead ==> h in made)
  }

  /** A new handle is none of the handles made in the last 2^24 creations. */
  lemma FreshHandle(made: seq<nat>, i: nat)
    requires |made| < 0x100_0000 && i < 16
    requires forall n :: 0 <= n < |made| ==> Carries(made[n], n + 1)
    ensures Handle(|made| + 1, i) !in made
  {
    hide Handle;
    forall n | 0 <= n < |made|
      ensures made[n] != Handle(|made| + 1, i)
    {
      var j :| 0 <= j < 16 && made[n] == Handle(n + 1, j);
      SameHandle(n + 1, j, |made| + 1, i);
      GenerationsDiffer(n + 1, |made| + 1);
    }
  }

  lemma GenerationsDiffer(a: nat, b: nat)
    requires 1 <= a < b <= 0x100_0000
    ensures a % 0x100_0000 != b % 0x100_0000
  {
  }

  lemma CreateNamed<T>(k: Kernel<T>, made: seq<nat>, dead: set<nat>)
    requires |k.chans| == 16 && Named(k.chans, k.generation, made, dead) && |made| + |MadeBy(k, Create)| <= 0x100_0000
    ensures Named(Ipc.Create(k).0.chans, Ipc.Create(k).0.generation, made + MadeBy(k, Create), dead)
  {
    hide Handle;
    var i := FreeSlot(k.chans, 0);
    if i == 16 {
      assert made + [] == made;
    } else {
      HandleLow(k.generation, i);
      var h := Handle(k.generation, i);
      FreshHandle(made, i);
      var all := made + [h];
      forall n | 0 <= n < |all|
        ensures Carries(all[n], n + 1)
      {
        if n < |made| {
          assert all[n] == made[n];
        } else {
          assert all[n] == Handle(n + 1, i);
        }
      }
    }
  }

  lemma DestroyNamed<T>(k: Kernel<T>, h: nat, made: seq<nat>, dead: set<nat>, state: map<T, ThreadState>)
    requires ChansInv(k.chans, state, k.pending) && Named(k.chans, k.generation, made, dead)
    ensures Named(Ipc.Destroy(k, h).0.chans, Ipc.Destroy(k, h).0.generation, made, dead + GivenUpBy(k, Destroy(h)))
  {
    hide Handle;
    var i := Find(k.chans, h);
    if i.Some? && k.chans[i.value].state != Free {
      assert ChanInv(k.chans[i.value], i.value, state, k.pending);
      forall j | 0 <= j < 16 && j != i.value && k.chans[j].state == Open
        ensures k.chans[j].handle != h
      {
        HandlesDiffer(k.chans, state, k.pending, i.value, j);
      }
    } else {
      assert dead + {} == dead;
    }
  }

  lemma StepNamed<T>(w: World<T>, roles: Roles<T>, e: Event, made: seq<nat>, dead: set<nat>)
    requires Good(w, roles) && Typed(w.k) && Named(w.k.chans, w.k.generation, made, dead)
    requires |made| + |MadeBy(w.k, e)| <= 0x100_0000
    ensures var w1 := Step(w, e);
            Named(w1.k.chans, w1.k.generation, made + MadeBy(w.k, e), dead + GivenUpBy(w.k, e))
  {
    hide SchedInv, ThreadInv, ChansInv, Fifo, RolesKept, Handle;
    match e
    case Create => CreateNamed(w.k, made, dead);
    case Destroy(h) =>
      DestroyNamed(w.k, h, made, dead, w.k.sched.state);
      assert made + [] == made;
    case _ =>
      StepNames(w, e);
      assert made + [] == made;
  }

  lemma {:induction false} RunNamed<T>(w: World<T>, roles: Roles<T>, es: seq<Event>, made: seq<nat>, dead: set<nat>)
    requires Good(w, roles) && LegalRun(w, roles, es) && Named(w.k.chans, w.k.generation, made, dead)
    requires |made + Made(w, es)| <= 0x100_0000
    ensures var w1 := Final(w, es);
            |w1.k.chans| == 16 && Named(w1.k.chans, w1.k.generation, made + Made(w, es), dead + GivenUp(w, es))
    decreases |es|
  {
    hide Good, Legal, Step, Named, MadeBy, GivenUpBy;
    if es == [] {
      GoodSixteen(w, roles);
      assert made + [] == made && dead + {} == dead;
    } else {
      StepGood(w, roles, es[0]);
      GoodSixteen(w, roles);
      var m, d := made + MadeBy(w.k, es[0]), dead + GivenUpBy(w.k, es[0]);
      assert made + Made(w, es) == m + Made(Step(w, es[0]), es[1..]);
      assert dead + GivenUp(w, es) == d + GivenUp(Step(w, es[0]), es[1..]);
      StepNamed(w, roles, es[0], made, dead);
      RunNamed(Step(w, es[0]), roles, es[1..], m, d);
    }
  }

  lemma GoodSixteen<T>(w: World<T>, roles: Roles<T>)
    requires Good(w, roles)
    ensures |w.k.chans| == 16
  {
  }

  /** In a run with at most 2^24 creations no two creations return the same handle and a handle
      once destroyed is refused ever after. */
  lemma NeverAcceptedAgain<T>(k: Kernel<T>, roles: Roles<T>, es: seq<Event>)
    requires var w := World(k, map[], map[]); Initial(w, roles) && LegalRun(w, roles, es)
    requires |Made(World(k, map[], map[]), es)| <= 0x100_0000
    ensures var w := World(k, map[], map[]);
            && |Final(w, es).k.chans| == 16
            && (forall a, b :: 0 <= a < b < |Made(w, es)| ==> Made(w, es)[a] != Made(w, es)[b])
            && forall h :: h in GivenUp(w, es) ==> Usable(Final(w, es).k.chans, h) == INVAL
  {
    hide SchedInv, LegalRun, Final, Made, GivenUp;
    var w := World(k, map[], map[]);
    InitialGood(w, roles);
    var made := Made(w, es);
    assert [] + made == made && {} + GivenUp(w, es) == GivenUp(w, es);
    RunNamed(w, roles, es, [], {});
    RunGood(w, roles, es);
    var w1 := Final(w, es);
    forall a, b | 0 <= a < b < |made|
      ensures made[a] != made[b]
    {
      assert Carries(made[b], b + 1);
      var i :| 0 <= i < 16 && made[b] == Handle(b + 1, i);
      FreshHandle(made[..b], i);
      assert made[..b][a] == made[a];
    }
    forall h | h in GivenUp(w, es)
      ensures Usable(w1.k.chans, h) == INVAL
    {
      NotInUse(w1, roles, h);
    }
  }

  lemma NotInUse<T>(w: World<T>, roles: Roles<T>, h: nat)
    requires Good(w, roles) && |w.k.chans| == 16
    requires forall i :: 0 <= i < 16 && w.k.chans[i].state == Open ==> w.k.chans[i].handle != h
    ensures Usable(w.k.chans, h) == INVAL
  {
    hide SchedInv;
    var i := Find(w.k.chans, h);
    if i.Some? {
      ChanOf(w.k, i.value);
    }
  }

  // ---- The bound is sharp ----

  /** Create a channel and destroy it again, n times. */
  function Churn<T>(k: Kernel<T>, n: nat): Kernel<T>
    requires |k.chans| == 16
  {
    if n == 0 then k
    else
      var k1 := Churn(k, n - 1);
      if |k1.chans| != 16 then k1
      else
        var (k2, h) := Ipc.Create(k1);
        Ipc.Destroy(k2, h).0
  }

  ghost predicate AllFree<T>(chans: seq<Chan<T>>) {
    |chans| == 16 && forall i :: 0 <= i < 16 ==> chans[i] == Chan(Free, 0, [], None, None)
  }

  lemma {:induction false} ChurnCounts<T>(k: Kernel<T>, n: nat)
    requires AllFree(k.chans) && k.generation == 1 && n + 1 < 0x1_0000_0000
    ensures AllFree(Churn(k, n).chans) && Churn(k, n).generation == n + 1
  {
    hide Handle;
    if n > 0 {
      ChurnCounts(k, n - 1);
      var k1 := Churn(k, n - 1);
      assert FreeSlot(k1.chans, 0) == 0;
      HandleLow(k1.generation, 0);
    }
  }

  /** After 2^24 channels made and destroyed the first handle is returned again, so the handle
      given up first is accepted. */
  lemma FirstHandleReturns<T>(k: Kernel<T>, n: nat)
    requires AllFree(k.chans) && k.generation == 1 && n == 0x100_0000
    ensures var k1 := Churn(k, n);
            && |k1.chans| == 16 && Ipc.Create(k1).1 == Ipc.Create(k).1
            && |Ipc.Create(k1).0.chans| == 16 && Usable(Ipc.Create(k1).0.chans, Ipc.Create(k).1) == OK
  {
    hide Handle;
    ChurnCounts(k, n);
    var k1 := Churn(k, n);
    SameHandle(n + 1, 0, 1, 0);
    HandleLow(1, 0);
    assert FreeSlot(k.chans, 0) == 0 && FreeSlot(k1.chans, 0) == 0;
  }
}
