/**
  Runs of the kernel together with the interrupt router from boot: which subscriptions work, and
  what a subscription made anywhere in a run delivers.
*/
module IrqHub {
  import opened Scheduling
  import opened Ipc
  import opened IpcRuns
  import opened IrqRouting

  // ---- Runs from boot ----

  ghost predicate Boot<T>(u: Hub<T>, roles: Roles<T>) {
    && Initial(u.w, roles) && u.w.sent == map[] && u.w.got == map[]
    && u.subs == seq(16, _ => NO_SUB) && u.generation == 1
  }

  /** The kernel's steps are legal; the router may be called at any time. */
  ghost predicate HubRun<T>(u: Hub<T>, roles: Roles<T>, es: seq<Signal>)
    decreases |es|
  {
    es == [] ||
    (Typed(u.w.k) && |u.subs| == 16 && (es[0].Kernel? ==> Legal(u.w.k, roles, es[0].event)) &&
     HubRun(Move(u, es[0]).0, roles, es[1..]))
  }

  ghost predicate Subscribes<T>(u: Hub<T>, e: Signal)
    requires |u.w.k.chans| == 16 && |u.subs| == 16
  {
    e.Subscribing? && Ipc.Usable(u.w.k.chans, e.channel) == OK && Vacant(u.subs, 0) < 16
  }

  /** Subscriptions made in a run. */
  ghost function Made<T>(u: Hub<T>, es: seq<Signal>): nat
    decreases |es|
  {
    if es == [] || !Typed(u.w.k) || |u.subs| != 16 then 0
    else (if Subscribes(u, es[0]) then 1 else 0) + Made(Move(u, es[0]).0, es[1..])
  }

  /** The low byte of a handle names its entry. */
  ghost predicate Named(subs: seq<Sub>) {
    |subs| == 16 && forall j :: 0 <= j < 16 && subs[j].handle != 0 ==> subs[j].handle % 256 == j + 1
  }

  /** After n subscriptions, fewer than 2^23: the kernel's invariant, the generation counter, and
      every entry in use has a positive handle. */
  ghost predicate HubInv<T>(u: Hub<T>, roles: Roles<T>, n: nat) {
    && Good(u.w, roles) && Named(u.subs) && u.generation == 1 + n
    && forall j :: 0 <= j < 16 ==> u.subs[j].handle >= 0
  }

  lemma SubscribeKeeps<T>(u: Hub<T>, roles: Roles<T>, n: nat, e: Signal)
    requires HubInv(u, roles, n) && e.Subscribing? && Typed(u.w.k) &&
             n + (if Subscribes(u, e) then 1 else 0) < 0x80_0000
    ensures HubInv(Move(u, e).0, roles, n + if Subscribes(u, e) then 1 else 0)
  {
    hide Good, SubHandle;
    var x := Vacant(u.subs, 0);
    if x < 16 {
      PositiveIff(u.generation, x);
    }
  }

  lemma MoveKeeps<T>(u: Hub<T>, roles: Roles<T>, n: nat, e: Signal)
    requires HubInv(u, roles, n) && (e.Kernel? ==> Legal(u.w.k, roles, e.event))
    requires Typed(u.w.k) && n + (if Subscribes(u, e) then 1 else 0) < 0x80_0000
    ensures HubInv(Move(u, e).0, roles, n + if Subscribes(u, e) then 1 else 0)
  {
    hide Good, Step, Legal, Publish;
    match e
    case Kernel(e) => StepGood(u.w, roles, e);
    case Subscribing(_, _) => SubscribeKeeps(u, roles, n, e);
    case Unsubscribing(_) =>
    case Raise(irq) => PublishGood(u.w, roles, u.subs, irq, 0);
  }

  lemma {:induction false} RunKeepsHub<T>(u: Hub<T>, roles: Roles<T>, n: nat, es: seq<Signal>)
    requires HubInv(u, roles, n) && HubRun(u, roles, es) && n + Made(u, es) < 0x80_0000
    ensures HubInv(After(u, es), roles, n + Made(u, es))
    decreases |es|
  {
    hide HubInv, Legal, Move, Subscribes, Shaped;
    if es != [] {
      MoveKeeps(u, roles, n, es[0]);
      RunKeepsHub(Move(u, es[0]).0, roles, n + if Subscribes(u, es[0]) then 1 else 0, es[1..]);
    }
  }

  /** In every run from boot with fewer than 2^23 subscriptions every entry in use has a positive
      handle that names it, and the kernel keeps what it keeps without the router. */
  lemma EveryHandleWorks<T>(u: Hub<T>, roles: Roles<T>, es: seq<Signal>)
    requires Boot(u, roles) && HubRun(u, roles, es) && Made(u, es) < 0x80_0000
    ensures HubInv(After(u, es), roles, Made(u, es))
  {
    hide SchedInv, HubRun, Made, After;
    InitialGood(u.w, roles);
    assert u.w.(sent := map[], got := map[]) == u.w;
    RunKeepsHub(u, roles, 0, es);
  }

  // ---- Which subscriptions work ----

  /** A subscription just made listens to its interrupt, and can be unsubscribed, if and only if bit
      23 of its generation is clear. */
  lemma WorksIff(subs: seq<Sub>, generation: nat, irq: nat, channel: nat)
    requires Named(subs) && Vacant(subs, 0) < 16
    ensures var x := Vacant(subs, 0);
            var (subs', _, handle) := Subscribe(subs, generation, true, irq, channel);
            && |subs'| == 16 && Named(subs')
            && (Listens(subs'[x], irq) <==> generation % 0x100_0000 < 0x80_0000)
            && (Unsubscribe(subs', handle) == (subs'[x := NO_SUB], 0) <==> generation % 0x100_0000 < 0x80_0000)
  {
    hide SubHandle;
    PositiveIff(generation, Vacant(subs, 0));
  }

  lemma MoveKeepsStuck<T>(u: Hub<T>, roles: Roles<T>, x: nat, e: Signal)
    requires Good(u.w, roles) && Typed(u.w.k) && |u.subs| == 16 && x < 16 && u.subs[x].handle < 0
    requires e.Kernel? ==> Legal(u.w.k, roles, e.event)
    ensures var u1 := Move(u, e).0; Good(u1.w, roles) && |u1.subs| == 16 && u1.subs[x] == u.subs[x]
  {
    hide Good, Step, Legal, Publish, SubHandle;
    match e
    case Kernel(e) => StepGood(u.w, roles, e);
    case Raise(irq) => PublishGood(u.w, roles, u.subs, irq, 0);
    case _ =>
  }

  /** An entry made with bit 23 set is lost: in everything that follows it listens to no interrupt
      and no call unsubscribes it. */
  lemma {:induction false} StuckForever<T>(u: Hub<T>, roles: Roles<T>, x: nat, es: seq<Signal>)
    requires Good(u.w, roles) && |u.subs| == 16 && x < 16 && u.subs[x].handle < 0 && HubRun(u, roles, es)
    ensures var u1 := After(u, es);
            && |u1.subs| == 16 && u1.subs[x] == u.subs[x] && (forall irq :: !Listens(u1.subs[x], irq))
            && forall handle :: Unsubscribe(u1.subs, handle).0[x] == u.subs[x]
    decreases |es|
  {
    hide Good, Legal, Move, Shaped;
    if es != [] {
      MoveKeepsStuck(u, roles, x, es[0]);
      StuckForever(Move(u, es[0]).0, roles, x, es[1..]);
    }
  }

  // ---- The bound is sharp ----

  /** Subscribing and unsubscribing n times in a row, from generation g on. */
  function Churn(irq: nat, h: nat, g: nat, n: nat): seq<Signal>
    decreases n
  {
    if n == 0 then []
    else [Subscribing(irq, h)] + ([Unsubscribing(SubHandle(g, 0))] + Churn(irq, h, g + 1, n - 1))
  }

  ghost predicate Idle<T>(u: Hub<T>, h: nat, g: nat) {
    && Typed(u.w.k) && u.subs == seq(16, _ => NO_SUB) && u.generation == g && Ipc.Usable(u.w.k.chans, h) == OK
  }

  lemma HubFrom<T>(u: Hub<T>, roles: Roles<T>, e: Signal, es: seq<Signal>)
    requires Typed(u.w.k) && |u.subs| == 16 && (e.Kernel? ==> Legal(u.w.k, roles, e.event))
    ensures var u1 := Move(u, e).0;
            && After(u, [e] + es) == After(u1, es)
            && Made(u, [e] + es) == (if Subscribes(u, e) then 1 else 0) + Made(u1, es)
            && (HubRun(u, roles, [e] + es) <==> HubRun(u1, roles, es))
  {
    hide Move, Legal, Subscribes, Shaped;
    assert ([e] + es)[1..] == es;
  }

  lemma OncePaired<T>(u: Hub<T>, irq: nat, h: nat, g: nat)
    requires Idle(u, h, g) && 1 <= g < 0x80_0000
    ensures var u1 := Move(u, Subscribing(irq, h)).0;
            && Subscribes(u, Subscribing(irq, h)) && u1.w == u.w && |u1.subs| == 16
            && Move(u1, Unsubscribing(SubHandle(g, 0))).0 == u.(generation := g + 1)
  {
    hide SubHandle;
    PositiveIff(g, 0);
    assert Vacant(u.subs, 0) == 0;
    var u1 := Move(u, Subscribing(irq, h)).0;
    assert Holder(u1.subs, SubHandle(g, 0), 0) == 0;
    assert u1.subs[0 := NO_SUB] == u.subs;
  }

  lemma {:induction false} ChurnRuns<T>(u: Hub<T>, roles: Roles<T>, irq: nat, h: nat, g: nat, n: nat)
    requires Idle(u, h, g) && 1 <= g && g + n <= 0x80_0000
    ensures var es := Churn(irq, h, g, n);
            HubRun(u, roles, es) && Made(u, es) == n && After(u, es) == u.(generation := g + n)
    decreases n
  {
    hide Move, Shaped, SubHandle, Subscribes;
    if n > 0 {
      OncePaired(u, irq, h, g);
      var u1, off, rest := Move(u, Subscribing(irq, h)).0, Unsubscribing(SubHandle(g, 0)), Churn(irq, h, g + 1, n - 1);
      ChurnRuns(u.(generation := g + 1), roles, irq, h, g + 1, n - 1);
      HubFrom(u1, roles, off, rest);
      HubFrom(u, roles, Subscribing(irq, h), [off] + rest);
      assert !Subscribes(u1, off) by { NoSubscription(u1, SubHandle(g, 0)); }
    }
  }

  lemma NoSubscription<T>(u: Hub<T>, handle: int)
    requires |u.w.k.chans| == 16 && |u.subs| == 16
    ensures !Subscribes(u, Unsubscribing(handle))
  {
  }

  lemma {:induction false} HubSplit<T>(u: Hub<T>, roles: Roles<T>, a: seq<Signal>, b: seq<Signal>)
    requires HubRun(u, roles, a)
    ensures var v := After(u, a);
            && After(u, a + b) == After(v, b) && Made(u, a + b) == Made(u, a) + Made(v, b)
            && (HubRun(u, roles, a + b) <==> HubRun(v, roles, b))
    decreases |a|
  {
    hide Move, Legal, Subscribes, Shaped;
    if a == [] {
      assert a + b == b;
    } else {
      assert (a + b)[1..] == a[1..] + b;
      HubSplit(Move(u, a[0]).0, roles, a[1..], b);
    }
  }

  /** The first channel after boot. */
  lemma FirstChannel<T>(u: Hub<T>, roles: Roles<T>)
    requires Boot(u, roles)
    ensures Typed(u.w.k) && Legal(u.w.k, roles, Create) && |u.subs| == 16 && !Subscribes(u, Signal.Kernel(Create))
    ensures var v := Move(u, Signal.Kernel(Create)).0; Good(v.w, roles) && Idle(v, Handle(1, 0), 1)
  {
    hide Handle, QueuesHold;
    InitialGood(u.w, roles);
    assert u.w.(sent := map[], got := map[]) == u.w;
    InvOf(u.w, roles);
    StepGood(u.w, roles, Create);
    var v := Move(u, Signal.Kernel(Create)).0;
    InvOf(v.w, roles);
    HandleLow(1, 0);
    assert FreeSlot(u.w.k.chans, 0) == 0;
  }

  /** The subscription of generation 2^23. */
  lemma LastHandle<T>(u: Hub<T>, irq: nat, h: nat)
    requires Idle(u, h, 0x80_0000)
    ensures var e := Subscribing(irq, h);
            var v := Move(u, e).0; Subscribes(u, e) && v.w == u.w && |v.subs| == 16 && v.subs[0].handle < 0
  {
    hide SubHandle;
    PositiveIff(0x80_0000, 0);
    assert Vacant(u.subs, 0) == 0;
  }

  /** A channel, and then 2^23 subscriptions to it, each but the last given up before the next. */
  function Worn(irq: nat, n: nat): seq<Signal> {
    [Signal.Kernel(Create)] + (Churn(irq, Handle(1, 0), 1, n) + ([Subscribing(irq, Handle(1, 0))] + []))
  }

  /** 2^23 subscriptions are too many: this run from boot ends with an entry that is lost for good. */
  lemma BootedStuck<T>(u: Hub<T>, roles: Roles<T>, irq: nat, n: nat)
    requires Boot(u, roles) && n == 0x7F_FFFF
    ensures var v := After(u, Worn(irq, n));
            && HubRun(u, roles, Worn(irq, n)) && Made(u, Worn(irq, n)) == 0x80_0000
            && |v.subs| == 16 && v.subs[0].handle < 0
            && forall later :: HubRun(v, roles, later) ==> Lost(After(v, later), v.subs[0])
  {
    hide Move, Shaped, Handle, Subscribes, Good, Boot, Legal, HubRun, Made, After, Churn;
    FirstChannel(u, roles);
    var h, u1 := Handle(1, 0), Move(u, Signal.Kernel(Create)).0;
    var churn, last := Churn(irq, h, 1, n), [Subscribing(irq, h)] + [];
    ChurnRuns(u1, roles, irq, h, 1, n);
    var u2 := After(u1, churn);
    LastHandle(u2, irq, h);
    var v := Move(u2, Subscribing(irq, h)).0;
    HubFrom(u2, roles, Subscribing(irq, h), []);
    HubSplit(u1, roles, churn, last);
    HubFrom(u, roles, Signal.Kernel(Create), churn + last);
    HubEnds(v, roles);
    HubEnds(u, roles);
    forall later | HubRun(v, roles, later)
      ensures Lost(After(v, later), v.subs[0])
    {
      StuckForever(v, roles, 0, later);
    }
  }

  /** The first entry is still the given one, hears nothing and cannot be unsubscribed. */
  ghost predicate Lost<T>(u: Hub<T>, entry: Sub) {
    && |u.subs| == 16 && u.subs[0] == entry && (forall irq :: !Listens(u.subs[0], irq))
    && forall handle :: Unsubscribe(u.subs, handle).0[0] == entry
  }

  lemma HubEnds<T>(u: Hub<T>, roles: Roles<T>)
    ensures HubRun(u, roles, []) && After(u, []) == u && Made(u, []) == 0
  {
  }

  // ---- Delivery from boot ----

  /** A subscription made at any point of a run from boot, as one of fewer than 2^23, with nobody
      else on its channel then and later: what the channel delivers and then holds is what it had
      accepted before followed by the notices taken; their numbers increase strictly and skip
      exactly the publications that were not taken. */
  lemma BootedDelivers<T>(u: Hub<T>, roles: Roles<T>, before: seq<Signal>, irq: nat, h: nat, es: seq<Signal>, i: nat)
    requires Boot(u, roles) && HubRun(u, roles, before) && Made(u, before) + 1 < 0x80_0000
    requires var u1 := After(u, before);
             && Typed(u1.w.k) && |u1.subs| == 16 && Subscribes(u1, Subscribing(irq, h))
             && (forall j :: 0 <= j < 16 && u1.subs[j].handle > 0 ==> u1.subs[j].channel != h)
             && var x, u2 := Vacant(u1.subs, 0), Move(u1, Subscribing(irq, h)).0;
             && QuietRun(u2, roles, x, h, es) && |Told(u2, x, es)| < 0x1_0000_0000_0000_0000
             && |After(u2, es).w.k.chans| == 16 && i < 16
             && After(u2, es).w.k.chans[i].state == Open && After(u2, es).w.k.chans[i].handle == h
    ensures var u1 := After(u, before);
            var x, u2 := Vacant(u1.subs, 0), Move(u1, Subscribing(irq, h)).0;
            var u3, told := After(u2, es), Told(u2, x, es);
            var notices := Notices(irq, 0, told);
            && Log(u3.w.got, h) + u3.w.k.chans[i].buf == Log(u1.w.sent, h) + notices
            && (forall m :: m in notices ==> |m.payload| == 8)
            && (forall m :: m in notices ==> m == Msg(0x1_0100, 16, [irq, m.payload[1], 0, 0, 0, 0, 0, 0]))
            && (forall a, b :: 0 <= a < b < |notices| ==> Ordinals(notices)[a] < Ordinals(notices)[b])
            && forall v :: v in Ordinals(notices) <==> 0 < v <= |told| && told[v - 1]
  {
    hide Boot, HubRun, Made, After, Good, QuietRun, Told, Notices, Ordinals, Log, Feeding, Shaped, Find;
    EveryHandleWorks(u, roles, before);
    var u1 := After(u, before);
    SubscribeFeeds(u1, roles, irq, h);
    var u2 := Move(u1, Subscribing(irq, h)).0;
    SubscriptionDelivers(u2, roles, Vacant(u1.subs, 0), h, irq, es, i);
  }
}
