/**
  Interrupt subscriptions: publishing an interrupt sends a numbered message to each subscribed
  channel without blocking, so a full channel loses the message but not the number.
*/
module IrqRouting {
  import opened Numbers
  import opened Scheduling
  import opened Ipc
  import opened IpcSafety
  import opened IpcRuns

  datatype Sub = Sub(handle: int, irq: nat, channel: nat, sequence: nat)

  const NO_SUB := Sub(0, 0, 0, 0)

  /** The handle as a signed 32-bit number. */
  function SubHandle(generation: nat, i: nat): int {
    var v := Handle(generation, i);
    if v < 0x8000_0000 then v else v - 0x1_0000_0000
  }

  /** A subscription handle is positive exactly when bit 23 of its generation is clear; its low byte
      names its entry either way. */
  lemma PositiveIff(g: nat, i: nat)
    requires i < 16
    ensures SubHandle(g, i) > 0 <==> g % 0x100_0000 < 0x80_0000
    ensures SubHandle(g, i) != 0 && SubHandle(g, i) % 256 == i + 1
  {
    HandleLow(g, i);
  }

  /** The first unused entry from i on, or 16. */
  function Vacant(subs: seq<Sub>, i: nat): (r: nat)
    requires i <= |subs| == 16
    ensures i <= r <= 16 && (forall j :: i <= j < r ==> subs[j].handle != 0) && (r < 16 ==> subs[r].handle == 0)
    decreases 16 - i, subs
  {
    if i == 16 || subs[i].handle == 0 then i else Vacant(subs, i + 1)
  }

  /** The first entry with this handle from i on, or 16. */
  function Holder(subs: seq<Sub>, handle: int, i: nat): (r: nat)
    requires i <= |subs| == 16
    ensures i <= r <= 16 && (forall j :: i <= j < r ==> subs[j].handle != handle) &&
            (r < 16 ==> subs[r].handle == handle)
    decreases 16 - i, subs
  {
    if i == 16 || subs[i].handle == handle then i else Holder(subs, handle, i + 1)
  }

  function Subscribe(subs: seq<Sub>, generation: nat, open: bool, irq: nat, channel: nat): (seq<Sub>, nat, int)
    requires |subs| == 16
  {
    if !open then (subs, generation, -1)
    else
      var i := Vacant(subs, 0);
      if i == 16 then (subs, generation, -1)
      else
        var handle := SubHandle(generation, i);
        (subs[i := Sub(handle, irq, channel, 0)], NextGeneration(generation), handle)
  }

  function Unsubscribe(subs: seq<Sub>, handle: int): (seq<Sub>, int)
    requires |subs| == 16
  {
    if handle <= 0 then (subs, -1)
    else
      var i := Holder(subs, handle, 0);
      if i == 16 then (subs, -1) else (subs[i := NO_SUB], 0)
  }

  /** Subscribing: -1 exactly if the channel is not open or all sixteen entries are in use; otherwise
      the first unused entry takes the interrupt and the channel and starts at number zero, and the
      handle has the generation above the entry counted from one, as a signed 32-bit number. */
  lemma SubscribeAnswers(subs: seq<Sub>, generation: nat, open: bool, irq: nat, channel: nat)
    requires |subs| == 16
    ensures var (subs', generation', h) := Subscribe(subs, generation, open, irq, channel);
            && (!open || (forall i :: 0 <= i < 16 ==> subs[i].handle != 0) ==>
                  subs' == subs && generation' == generation && h == -1)
            && (open && (exists i :: 0 <= i < 16 && subs[i].handle == 0) ==>
                  exists i: nat ::
                    && i < 16 && subs[i].handle == 0 && (forall j :: 0 <= j < i ==> subs[j].handle != 0)
                    && subs' == subs[i := Sub(h, irq, channel, 0)]
                    && var v := generation % 0x100_0000 * 256 + i + 1;
                    && h == (if v < 0x8000_0000 then v else v - 0x1_0000_0000)
                    && generation' == if generation == 0xFFFF_FFFF then 1 else generation + 1)
  {
    var i := Vacant(subs, 0);
    assert i < 16 ==> subs[i].handle == 0;
  }

  /** Unsubscribing: 0 exactly if the handle is positive and in use, and then its first entry is cleared. */
  lemma UnsubscribeAnswers(subs: seq<Sub>, h: int)
    requires |subs| == 16
    ensures var (subs', r) := Unsubscribe(subs, h);
            && (r == 0 <==> h > 0 && exists i :: 0 <= i < 16 && subs[i].handle == h)
            && (r != 0 ==> r == -1 && subs' == subs)
            && (r == 0 ==>
                  exists i ::
                    && 0 <= i < 16 && subs[i].handle == h && (forall j :: 0 <= j < i ==> subs[j].handle != h)
                    && subs' == subs[i := Sub(0, 0, 0, 0)])
  {
    var i := Holder(subs, h, 0);
    assert i < 16 ==> subs[i].handle == h;
  }

  /** The message for the n-th publication of an interrupt. */
  function Notice(irq: nat, n: nat): Msg {
    Msg(0x1_0100, 16, [irq, n, 0, 0, 0, 0, 0, 0])
  }

  predicate Listens(sub: Sub, irq: nat) {
    sub.handle > 0 && sub.irq == irq
  }

  function Counted(sub: Sub): Sub {
    sub.(sequence := (sub.sequence + 1) % 0x1_0000_0000_0000_0000)
  }

  /** Which entry was tried and whether its channel took the message. */
  datatype Attempt = Attempt(entry: nat, taken: bool)

  /** Publish to the entries from i on. */
  ghost function Publish<T>(w: World<T>, subs: seq<Sub>, irq: nat, i: nat): (World<T>, seq<Sub>, seq<Attempt>)
    requires i <= |subs|
    decreases |subs| - i
  {
    if i == |subs| || !Typed(w.k) then (w, subs, [])
    else if !Listens(subs[i], irq) then Publish(w, subs, irq, i + 1)
    else
      var sub := Counted(subs[i]);
      var m := Notice(irq, sub.sequence);
      var w1 := Step(w, SendNow(sub.channel, m));
      var (w2, subs2, tries) := Publish(w1, subs[i := sub], irq, i + 1);
      (w2, subs2, [Attempt(i, TrySend(w.k, sub.channel, m).1 == OK)] + tries)
  }

  // ---- Runs ----

  datatype Signal =
    | Kernel(event: Event)
    | Subscribing(irq: nat, channel: nat)
    | Unsubscribing(handle: int)
    | Raise(irq: nat)

  datatype Hub<T> = Hub(w: World<T>, subs: seq<Sub>, generation: nat)

  ghost function Move<T>(u: Hub<T>, e: Signal): (Hub<T>, seq<Attempt>)
    requires Typed(u.w.k) && |u.subs| == 16
  {
    match e
    case Kernel(e) => (u.(w := Step(u.w, e)), [])
    case Subscribing(irq, channel) =>
      var (subs, generation, _) := Subscribe(u.subs, u.generation, Usable(u.w.k.chans, channel) == OK, irq, channel);
      (Hub(u.w, subs, generation), [])
    case Unsubscribing(handle) => (u.(subs := Unsubscribe(u.subs, handle).0), [])
    case Raise(irq) =>
      var (w, subs, tries) := Publish(u.w, u.subs, irq, 0);
      (Hub(w, subs, u.generation), tries)
  }

  /** What the attempts say about entry x. */
  function About(tries: seq<Attempt>, x: nat): seq<bool> {
    if tries == [] then [] else (if tries[0].entry == x then [tries[0].taken] else []) + About(tries[1..], x)
  }

  /** Publishing keeps the kernel's invariant, numbers only the listeners and tries each once. */
  lemma {:induction false} PublishGood<T>(w: World<T>, roles: Roles<T>, subs: seq<Sub>, irq: nat, i: nat)
    requires Good(w, roles) && i <= |subs|
    ensures var (w', subs', tries) := Publish(w, subs, irq, i);
            && Good(w', roles) && |subs'| == |subs|
            && (forall j :: 0 <= j < |subs| ==>
                  subs'[j] == if i <= j && Listens(subs[j], irq) then Counted(subs[j]) else subs[j])
            && (forall a :: a in tries ==> i <= a.entry < |subs| && Listens(subs[a.entry], irq))
    decreases |subs| - i
  {
    hide Good, Step, TrySend;
    if i < |subs| {
      TrySendGood(w, roles, subs[i].channel, Notice(irq, Counted(subs[i]).sequence));
      if Listens(subs[i], irq) {
        var sub := Counted(subs[i]);
        PublishGood(Step(w, SendNow(sub.channel, Notice(irq, sub.sequence))), roles, subs[i := sub], irq, i + 1);
      } else {
        PublishGood(w, roles, subs, irq, i + 1);
      }
    }
  }

  /** Entry x alone feeds channel h. */
  ghost predicate Alone(subs: seq<Sub>, x: nat, h: nat) {
    && |subs| == 16 && x < 16 && subs[x].handle > 0 && subs[x].channel == h
    && forall j :: 0 <= j < 16 && j != x && subs[j].handle > 0 ==> subs[j].channel != h
  }

  lemma SendElsewhere<T>(w: World<T>, h: nat, h': nat, m: Msg)
    requires Typed(w.k)
    ensures var w1 := Step(w, SendNow(h', m));
            Log(w1.sent, h) == Log(w.sent, h) + if h' == h && TrySend(w.k, h', m).1 == OK then [m] else []
  {
    hide TrySend;
  }

  /** What publishing adds to channel h: the notice of entry x, if x listens and was taken. */
  lemma {:induction false} PublishFeeds<T>(w: World<T>, roles: Roles<T>, subs: seq<Sub>, irq: nat, i: nat,
                                        x: nat, h: nat)
    requires Good(w, roles) && i <= 16 && Alone(subs, x, h)
    ensures var (w', _, tries) := Publish(w, subs, irq, i);
            var told := About(tries, x);
            && |told| == (if i <= x && Listens(subs[x], irq) then 1 else 0)
            && Log(w'.sent, h) == Log(w.sent, h) +
               if told == [true] then [Notice(irq, Counted(subs[x]).sequence)] else []
    decreases 16 - i
  {
    hide Good, Step, TrySend, Log, Notice;
    if i < 16 {
      var sub := Counted(subs[i]);
      var m := Notice(irq, sub.sequence);
      TrySendGood(w, roles, sub.channel, m);
      if Listens(subs[i], irq) {
        var w1 := Step(w, SendNow(sub.channel, m));
        SendElsewhere(w, h, sub.channel, m);
        PublishFeeds(w1, roles, subs[i := sub], irq, i + 1, x, h);
        var (w2, _, tries) := Publish(w1, subs[i := sub], irq, i + 1);
        var taken := TrySend(w.k, sub.channel, m).1 == OK;
        AboutFirst(taken, i, tries, x);
        if i == x {
          assert About(tries, x) == [] && Log(w2.sent, h) == Log(w1.sent, h);
          assert [taken] + [] == [taken] && ([taken] == [true] <==> [taken][0]);
        } else {
          assert Log(w1.sent, h) == Log(w.sent, h);
        }
      } else {
        PublishFeeds(w, roles, subs, irq, i + 1, x, h);
      }
    }
  }

  lemma AboutFirst(taken: bool, i: nat, tries: seq<Attempt>, x: nat)
    ensures About([Attempt(i, taken)] + tries, x) == (if i == x then [taken] else []) + About(tries, x)
  {
    assert ([Attempt(i, taken)] + tries)[1..] == tries;
  }

  /** The step of the kernel is a send on channel h, or makes a new channel of that name. */
  ghost predicate Touches<T>(k: Kernel<T>, e: Event, h: nat)
    requires |k.chans| == 16
  {
    match e
    case Call(op) => op.SendOp? && op.handle == h
    case Retry =>
      && k.sched.current.Some? && k.sched.current.value in k.pending
      && k.pending[k.sched.current.value].SendOp? && k.pending[k.sched.current.value].handle == h
    case SendNow(h', _) => h' == h
    case Create => Ipc.Create(k).1 == h
    case _ => false
  }

  lemma StepElsewhere<T>(w: World<T>, e: Event, h: nat)
    requires Typed(w.k) && !Touches(w.k, e, h)
    ensures Log(Step(w, e).sent, h) == Log(w.sent, h)
  {
    hide Send, Recv, TrySend, TryRecv, YieldStep, PriorityStep, PreemptStep, Tick;
  }

  /** Nobody but entry x sends on channel h, and entry x stays. */
  ghost predicate Quiet<T>(u: Hub<T>, roles: Roles<T>, x: nat, h: nat, e: Signal)
    requires |u.subs| == 16 && x < 16 && |u.w.k.chans| == 16
  {
    match e
    case Kernel(e) => Legal(u.w.k, roles, e) && !Touches(u.w.k, e, h)
    case Subscribing(_, channel) => channel != h
    case Unsubscribing(handle) => handle != u.subs[x].handle
    case Raise(_) => true
  }

  ghost predicate QuietRun<T>(u: Hub<T>, roles: Roles<T>, x: nat, h: nat, es: seq<Signal>)
    decreases |es|
  {
    es == [] || (Typed(u.w.k) && |u.subs| == 16 && x < 16 &&
                 Quiet(u, roles, x, h, es[0]) && QuietRun(Move(u, es[0]).0, roles, x, h, es[1..]))
  }

  ghost function After<T>(u: Hub<T>, es: seq<Signal>): Hub<T>
    decreases |es|
  {
    if es == [] || !Typed(u.w.k) || |u.subs| != 16 then u else After(Move(u, es[0]).0, es[1..])
  }

  /** For each publication to entry x, in order: was it taken? */
  ghost function Told<T>(u: Hub<T>, x: nat, es: seq<Signal>): seq<bool>
    decreases |es|
  {
    if es == [] || !Typed(u.w.k) || |u.subs| != 16 then []
    else About(Move(u, es[0]).1, x) + Told(Move(u, es[0]).0, x, es[1..])
  }

  /** The notices of the publications that were taken, numbered from n + 1. */
  function Notices(irq: nat, n: nat, told: seq<bool>): seq<Msg>
    decreases |told|
  {
    if told == [] then []
    else (if told[0] then [Notice(irq, (n + 1) % 0x1_0000_0000_0000_0000)] else []) + Notices(irq, n + 1, told[1..])
  }

  /** Entry x has been published to n times and fed the channel accordingly. */
  ghost predicate Feeding<T>(u: Hub<T>, roles: Roles<T>, x: nat, h: nat, irq: nat, n: nat) {
    Good(u.w, roles) && Alone(u.subs, x, h) && u.subs[x].irq == irq && u.subs[x].sequence == n % 0x1_0000_0000_0000_0000
  }

  lemma NextNumber(n: nat)
    ensures (n % 0x1_0000_0000_0000_0000 + 1) % 0x1_0000_0000_0000_0000 == (n + 1) % 0x1_0000_0000_0000_0000
  {
  }

  lemma OneNotice(irq: nat, n: nat, told: seq<bool>)
    requires |told| <= 1
    ensures Notices(irq, n, told) == if told == [true] then [Notice(irq, (n + 1) % 0x1_0000_0000_0000_0000)] else []
  {
    if told != [] {
      assert told == [told[0]] && told[1..] == [];
    }
  }

  lemma RaiseFeeds<T>(u: Hub<T>, roles: Roles<T>, x: nat, h: nat, irq: nat, n: nat, raised: nat)
    requires Feeding(u, roles, x, h, irq, n)
    ensures Typed(u.w.k)
    ensures var (u1, tries) := Move(u, Raise(raised));
            var told := About(tries, x);
            && Feeding(u1, roles, x, h, irq, n + |told|)
            && Log(u1.w.sent, h) == Log(u.w.sent, h) + Notices(irq, n, told)
  {
    hide Good, Log, Notice, Notices, Publish;
    InvOf(u.w, roles);
    PublishGood(u.w, roles, u.subs, raised, 0);
    PublishFeeds(u.w, roles, u.subs, raised, 0, x, h);
    NextNumber(n);
    OneNotice(irq, n, About(Move(u, Raise(raised)).1, x));
  }

  lemma InvOf<T>(w: World<T>, roles: Roles<T>)
    requires Good(w, roles)
    ensures Typed(w.k)
  {
    InvTyped(w.k);
  }

  lemma OtherFeeds<T>(u: Hub<T>, roles: Roles<T>, x: nat, h: nat, irq: nat, n: nat, e: Signal)
    requires Feeding(u, roles, x, h, irq, n) && !e.Raise? && |u.w.k.chans| == 16 && Quiet(u, roles, x, h, e)
    ensures Typed(u.w.k)
    ensures var (u1, tries) := Move(u, e);
            Feeding(u1, roles, x, h, irq, n) && tries == [] && Log(u1.w.sent, h) == Log(u.w.sent, h)
  {
    hide Good, Log, Step, Legal, Touches;
    InvOf(u.w, roles);
    match e
    case Kernel(e) =>
      StepGood(u.w, roles, e);
      StepElsewhere(u.w, e, h);
    case _ =>
  }

  /** The notice of one publication, if it was taken. */
  function FirstNotice(irq: nat, n: nat, taken: bool): seq<Msg> {
    if taken then [Notice(irq, (n + 1) % 0x1_0000_0000_0000_0000)] else []
  }

  lemma NoticesStep(irq: nat, n: nat, told: seq<bool>)
    requires told != []
    ensures Notices(irq, n, told) == FirstNotice(irq, n, told[0]) + Notices(irq, n + 1, told[1..])
  {
    hide Notice;
  }

  lemma {:induction false} NoticesSplit(irq: nat, n: nat, a: seq<bool>, b: seq<bool>)
    ensures Notices(irq, n, a + b) == Notices(irq, n, a) + Notices(irq, n + |a|, b)
    decreases |a|
  {
    if a == [] {
      assert a + b == b;
      NoNotices(irq, n);
    } else {
      hide Notices, FirstNotice;
      NoticesSplit(irq, n + 1, a[1..], b);
      assert (a + b)[1..] == a[1..] + b && (a + b)[0] == a[0];
      NoticesStep(irq, n, a + b);
      NoticesStep(irq, n, a);
      assert n + 1 + |a[1..]| == n + |a|;
    }
  }

  lemma {:induction false} RunFeeds<T>(u: Hub<T>, roles: Roles<T>, x: nat, h: nat, irq: nat, n: nat, es: seq<Signal>)
    requires Feeding(u, roles, x, h, irq, n) && QuietRun(u, roles, x, h, es)
    ensures var u1 := After(u, es);
            var told := Told(u, x, es);
            Feeding(u1, roles, x, h, irq, n + |told|) && Log(u1.w.sent, h) == Log(u.w.sent, h) + Notices(irq, n, told)
    decreases |es|
  {
    hide Feeding, Quiet, Log, Notices, Move, Typed, About;
    if es == [] {
      NoNotices(irq, n);
    } else {
      var (u1, tries) := Move(u, es[0]);
      var told := About(tries, x);
      MoveFeeds(u, roles, x, h, irq, n, es[0]);
      RunFeeds(u1, roles, x, h, irq, n + |told|, es[1..]);
      NoticesSplit(irq, n, told, Told(u1, x, es[1..]));
    }
  }

  lemma NoNotices(irq: nat, n: nat)
    ensures Notices(irq, n, []) == []
  {
  }

  lemma MoveFeeds<T>(u: Hub<T>, roles: Roles<T>, x: nat, h: nat, irq: nat, n: nat, e: Signal)
    requires Typed(u.w.k) && |u.subs| == 16 && x < 16 && Feeding(u, roles, x, h, irq, n) && Quiet(u, roles, x, h, e)
    ensures var (u1, tries) := Move(u, e);
            var told := About(tries, x);
            && Feeding(u1, roles, x, h, irq, n + |told|)
            && Log(u1.w.sent, h) == Log(u.w.sent, h) + Notices(irq, n, told)
  {
    hide Feeding, Quiet, Log;
    match e
    case Raise(raised) => RaiseFeeds(u, roles, x, h, irq, n, raised);
    case _ =>
      OtherFeeds(u, roles, x, h, irq, n, e);
      NoNotices(irq, n);
  }

  // ---- What the numbers say ----

  function Ordinals(ms: seq<Msg>): (ns: seq<nat>)
    requires forall m :: m in ms ==> |m.payload| == 8
    ensures |ns| == |ms|
  {
    if ms == [] then [] else [ms[0].payload[1]] + Ordinals(ms[1..])
  }

  lemma {:induction false} NoticesShaped(irq: nat, n: nat, told: seq<bool>)
    ensures forall m :: m in Notices(irq, n, told) ==> |m.payload| == 8
    ensures forall m :: m in Notices(irq, n, told) ==> m == Msg(0x1_0100, 16, [irq, m.payload[1], 0, 0, 0, 0, 0, 0])
    decreases |told|
  {
    if told != [] {
      NoticesShaped(irq, n + 1, told[1..]);
    }
  }

  /** The places, counted from n + 1, where told is true. */
  function Taken(n: nat, told: seq<bool>): seq<nat>
    decreases |told|
  {
    if told == [] then [] else (if told[0] then [n + 1] else []) + Taken(n + 1, told[1..])
  }

  lemma {:induction false} TakenAre(n: nat, told: seq<bool>)
    ensures forall v :: v in Taken(n, told) <==> n < v <= n + |told| && told[v - n - 1]
    decreases |told|
  {
    if told != [] {
      var rest := Taken(n + 1, told[1..]);
      TakenAre(n + 1, told[1..]);
      forall v
        ensures v in Taken(n, told) <==> n < v <= n + |told| && told[v - n - 1]
      {
        assert v in Taken(n, told) <==> (told[0] && v == n + 1) || v in rest;
        assert v in rest <==> n + 1 < v <= n + |told| && told[1..][v - n - 2];
      }
    }
  }

  lemma {:induction false} TakenGrow(n: nat, told: seq<bool>)
    ensures forall a, b :: 0 <= a < b < |Taken(n, told)| ==> Taken(n, told)[a] < Taken(n, told)[b]
    decreases |told|
  {
    if told != [] {
      var rest := Taken(n + 1, told[1..]);
      TakenAre(n + 1, told[1..]);
      TakenGrow(n + 1, told[1..]);
      assert forall b :: 0 <= b < |rest| ==> rest[b] in rest;
    }
  }

  /** The numbers on fewer than 2^64 notices are the places of the publications taken. */
  lemma {:induction false} OrdinalsAre(irq: nat, n: nat, told: seq<bool>)
    requires n + |told| < 0x1_0000_0000_0000_0000
    ensures forall m :: m in Notices(irq, n, told) ==> |m.payload| == 8
    ensures Ordinals(Notices(irq, n, told)) == Taken(n, told)
    decreases |told|
  {
    hide Notice;
    NoticesShaped(irq, n, told);
    if told != [] {
      NoticesShaped(irq, n + 1, told[1..]);
      OrdinalsAre(irq, n + 1, told[1..]);
      NoticeNumber(irq, n, told);
    }
  }

  lemma NoticeNumber(irq: nat, n: nat, told: seq<bool>)
    requires told != [] && n + 1 < 0x1_0000_0000_0000_0000
    requires forall m :: m in Notices(irq, n + 1, told[1..]) ==> |m.payload| == 8
    ensures forall m :: m in Notices(irq, n, told) ==> |m.payload| == 8
    ensures Ordinals(Notices(irq, n, told)) == (if told[0] then [n + 1] else []) +
            Ordinals(Notices(irq, n + 1, told[1..]))
  {
    var rest := Notices(irq, n + 1, told[1..]);
    if told[0] {
      var m := Notice(irq, n + 1);
      assert Notices(irq, n, told) == [m] + rest;
      assert ([m] + rest)[1..] == rest;
    } else {
      assert Notices(irq, n, told) == [] + rest == rest;
    }
  }

  /** A subscription that alone feeds its channel: from the moment it is made, what the channel
      delivers and then holds is what it had before followed by the notices taken; each is a message
      of type 0x10100 and 16 bytes with the interrupt and a number, and the numbers skip exactly the
      publications that were not taken. */
  lemma SubscriptionDelivers<T>(u: Hub<T>, roles: Roles<T>, x: nat, h: nat, irq: nat, es: seq<Signal>, i: nat)
    requires Feeding(u, roles, x, h, irq, 0) && QuietRun(u, roles, x, h, es)
    requires |Told(u, x, es)| < 0x1_0000_0000_0000_0000
    requires |After(u, es).w.k.chans| == 16 && i < 16
    requires After(u, es).w.k.chans[i].state == Open && After(u, es).w.k.chans[i].handle == h
    ensures var u1, told := After(u, es), Told(u, x, es);
            var notices := Notices(irq, 0, told);
            && Log(u1.w.got, h) + u1.w.k.chans[i].buf == Log(u.w.sent, h) + notices
            && (forall m :: m in notices ==> |m.payload| == 8)
            && (forall m :: m in notices ==> m == Msg(0x1_0100, 16, [irq, m.payload[1], 0, 0, 0, 0, 0, 0]))
            && (forall a, b :: 0 <= a < b < |notices| ==> Ordinals(notices)[a] < Ordinals(notices)[b])
            && forall v :: v in Ordinals(notices) <==> 0 < v <= |told| && told[v - 1]
  {
    hide QuietRun, After, Told, Notices, Ordinals, Inv, RolesKept, Alone, Log, Taken;
    RunFeeds(u, roles, x, h, irq, 0, es);
    OrdinalsAre(irq, 0, Told(u, x, es));
    NoticesShaped(irq, 0, Told(u, x, es));
    TakenAre(0, Told(u, x, es));
    TakenGrow(0, Told(u, x, es));
  }

  /** A subscription made now, with a usable handle and nobody else on the channel, starts at
      number zero. */
  lemma SubscribeFeeds<T>(u: Hub<T>, roles: Roles<T>, irq: nat, h: nat)
    requires Good(u.w, roles) && Typed(u.w.k) && |u.subs| == 16
    requires forall j :: 0 <= j < 16 && u.subs[j].handle > 0 ==> u.subs[j].channel != h
    ensures var x := Vacant(u.subs, 0);
            Usable(u.w.k.chans, h) == OK && x < 16 && u.generation % 0x100_0000 < 0x80_0000 ==>
              Feeding(Move(u, Subscribing(irq, h)).0, roles, x, h, irq, 0)
  {
    hide SubHandle, Good;
    var x := Vacant(u.subs, 0);
    if x < 16 {
      PositiveIff(u.generation, x);
    }
  }
}
