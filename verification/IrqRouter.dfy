/** The subscription table as irq_router.c keeps it, over the channel pool. */
module IrqRouter {
  import opened Ipc
  import opened IpcRuns
  import I = IrqRouting
  import opened ChannelPool

  class Router {
    const subs: array<I.Sub>
    const pool: Pool
    var generation: nat

    ghost predicate Valid()
      reads this, subs, pool, pool.slots, pool.sched, pool.sched.heads,
            pool.sched.tails, pool.sched.counts, pool.sched.world
    {
      subs.Length == 16 && pool.Valid() && 1 <= generation < 0x1_0000_0000
    }

    constructor (pool: Pool)
      requires pool.Valid()
      ensures Valid() && this.pool == pool && fresh(subs) && generation == 1 && subs[..] == seq(16, _ => I.NO_SUB)
    {
      subs := new I.Sub[16](_ => I.NO_SUB);
      this.pool, generation := pool, 1;
    }

    method Subscribe(irq: nat, channel: nat) returns (handle: int)
      requires Valid()
      modifies this`generation, subs
      ensures Valid()
      ensures (subs[..], generation, handle) ==
              I.Subscribe(old(subs[..]), old(generation), Usable(pool.View().chans, channel) == OK, irq, channel)
    {
      hide Pool.Valid, Pool.View, I.SubHandle;
      var open := pool.IsOpen(channel);
      if !open {
        return -1;
      }
      for i := 0 to 16
        invariant subs[..] == old(subs[..]) && generation == old(generation) &&
                  forall j :: 0 <= j < i ==> subs[j].handle != 0
      {
        if subs[i].handle == 0 {
          assert I.Vacant(subs[..], 0) == i;
          handle := I.SubHandle(generation, i);
          generation := if generation + 1 == 0x1_0000_0000 then 1 else generation + 1;
          subs[i] := I.Sub(handle, irq, channel, 0);
          return;
        }
      }
      return -1;
    }

    method Unsubscribe(handle: int) returns (r: int)
      requires Valid()
      modifies subs
      ensures Valid() && (subs[..], r) == I.Unsubscribe(old(subs[..]), handle)
    {
      hide Pool.Valid;
      if handle <= 0 {
        return -1;
      }
      for i := 0 to 16
        invariant subs[..] == old(subs[..]) && forall j :: 0 <= j < i ==> subs[j].handle != handle
      {
        if subs[i].handle == handle {
          assert I.Holder(subs[..], handle, 0) == i;
          subs[i] := I.NO_SUB;
          return 0;
        }
      }
      return -1;
    }

    /** Number and send one notice to each listening entry, in order. */
    method Publish(irq: nat)
      requires Valid()
      modifies subs, pool.slots, pool.sched, pool.sched.heads, pool.sched.tails, pool.sched.counts, pool.sched.world
      ensures Valid()
      ensures var (w, after, _) := I.Publish(World(old(pool.View()), map[], map[]), old(subs[..]), irq, 0);
              pool.View() == w.k && subs[..] == after
    {
      hide Pool.Valid, Pool.View, TrySend;
      ghost var w := World(pool.View(), map[], map[]);
      ghost var w0, subs0 := w, subs[..];
      for i := 0 to 16
        invariant Valid() && w.k == pool.View()
        invariant I.Publish(w0, subs0, irq, 0).0.k == I.Publish(w, subs[..], irq, i).0.k
        invariant I.Publish(w0, subs0, irq, 0).1 == I.Publish(w, subs[..], irq, i).1
      {
        pool.IsTyped();
        if subs[i].handle > 0 && subs[i].irq == irq {
          ghost var was := subs[..];
          ghost var k := pool.View();
          var n := (subs[i].sequence + 1) % 0x1_0000_0000_0000_0000;
          subs[i] := subs[i].(sequence := n);
          assert subs[..] == was[i := I.Counted(was[i])];
          var _ := pool.TrySend(subs[i].channel, I.Notice(irq, n));
          w := Step(w, SendNow(subs[i].channel, I.Notice(irq, n)));
        }
      }
    }

    method SubscriptionCount(irq: nat) returns (n: nat)
      requires Valid()
      ensures n == |set i | 0 <= i < 16 && I.Listens(subs[i], irq)|
    {
      n := 0;
      ghost var seen: set<int> := {};
      for i := 0 to 16
        invariant seen == (set j | 0 <= j < i && I.Listens(subs[j], irq)) && n == |seen|
      {
        if subs[i].handle > 0 && subs[i].irq == irq {
          n := n + 1;
          seen := seen + {i};
        }
      }
    }
  }
}
