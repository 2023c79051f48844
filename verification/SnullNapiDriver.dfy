/** The polling driver on the heap. */
module SnullNapiDriver {
  import opened IpHeader
  import opened Common
  import opened SnullTypes
  import opened SnullRegular
  import opened SnullRegularProof
  import opened SnullRegularTheorems
  import opened SnullDevice
  import opened SnullRegularDriver
  import opened SnullNapi
  import opened SnullNapiPackets

  class NapiPort {
    const dev: Device
    var scheduled: bool     // napi_schedule was called and the poll has not completed
    var lockHeld: bool      // the out-of-pool return left the lock taken
    ghost var sent: seq<Skb>
    ghost const owned: set<Packet>

    constructor (dev: Device, ghost owned: set<Packet>)
      ensures this.dev == dev && this.owned == owned && sent == [] && !scheduled && !lockHeld
    {
      this.dev := dev;
      scheduled, lockHeld := false, false;
      sent, this.owned := [], owned;
    }

    ghost function Abs(): NSide
      reads this, dev, dev.queue
    {
      NSide(Side(dev.id, dev.Abs(), Idle, sent, owned), scheduled, lockHeld)
    }

    ghost function With(twin: NapiPort): NPair
      reads this, dev, dev.queue, twin, twin.dev, twin.dev.queue
    {
      NPair(Abs(), twin.Abs())
    }

    ghost predicate Valid(twin: NapiPort)
      reads this, dev, dev.queue, dev.pool, twin, twin.dev, twin.dev.queue, twin.dev.pool
    {
      && this != twin && dev != twin.dev && dev.Valid() && twin.dev.Valid()
      && Structure(With(twin))
    }

    /** snull_napi_interrupt */
    method Interrupt()
      requires dev.Valid()
      modifies this`scheduled, dev
      ensures dev.Valid()
      ensures Abs() == NapiInterrupt(old(Abs()))
    {
      var rx, tx := dev.ReadStatus();
      if rx {
        dev.RxInts(false);
        scheduled := true;
      }
      if tx {
        dev.TxDoneOnce();
      }
    }

    /** One round of the poll loop: dequeue, deliver or drop, give the packet back. */
    method PollRound(twin: NapiPort, ok: bool)
      requires Valid(twin) && dev.queue != []
      modifies dev, twin.dev, dev.queue[..1]
      ensures dev.queue == old(dev.queue[1..])
      ensures With(twin) == PollOne(old(With(twin)), ok)
      ensures Valid(twin)
    {
      hide Linked, NoDup;
      HeadIsLoose(twin);
      var pkt := dev.DequeueAndReceive(ok);
      assert twin.dev.Abs() == old(twin.dev.Abs()) && twin.dev.Valid();
      twin.dev.PutBack(pkt);  // the device pkt.dev names
      assert With(twin) == PollOne(old(With(twin)), ok);
      PollOneKeepsStructure(old(With(twin)), ok);
    }

    lemma HeadIsLoose(twin: NapiPort)
      requires Valid(twin) && dev.queue != []
      ensures var pkt := dev.queue[0];
        && pkt.dev == twin.dev.id && pkt !in dev.pool && pkt !in dev.queue[1..]
        && pkt !in twin.dev.pool && pkt !in twin.dev.queue
    {
      var p := With(twin).Base();
      var pkt, rxq := dev.queue[0], p.me.dev.rxq;
      assert pkt == rxq[0].pkt && pkt.dev == twin.dev.id;
      assert Account(Swap(p), pkt) == 1 by { assert pkt == QueuePackets(rxq)[0]; assert pkt in Listed(Swap(p)); }
      ListCounts(twin.dev.pool, rxq[1..], pkt);
      forall k | 0 <= k < |dev.queue[1..]|
        ensures dev.queue[1..][k] != pkt
      {
        assert rxq[1..][k].pkt == dev.queue[1..][k];
      }
      QueueMembers(twin.dev.queue, pkt);
    }

    /** The loop of snull_poll: at most budget rounds, fewer if the queue runs dry. */
    method PollRounds(twin: NapiPort, budget: nat, fails: set<nat>) returns (npackets: nat)
      requires Valid(twin)
      modifies dev, twin.dev, dev.queue
      ensures (With(twin), npackets) == PollLoop(old(With(twin)), 0, budget, fails)
      ensures Valid(twin)
    {
      ghost var q, p := dev.queue, With(twin);
      npackets := 0;
      while npackets < budget && dev.rxQueue != null
        invariant Valid(twin)
        invariant npackets <= |q| && dev.queue == q[npackets..]
        invariant PollLoop(With(twin), npackets, budget, fails) == PollLoop(p, 0, budget, fails)
        decreases |dev.queue|
      {
        assert dev.queue[0] == q[npackets];
        PollLoopUnrolls(With(twin), npackets, budget, fails);
        PollRound(twin, npackets !in fails);
        npackets := npackets + 1;
      }
    }

    /** snull_poll: the loop, and polling stops if it did not use up its budget. */
    method Poll(twin: NapiPort, budget: nat, fails: set<nat>) returns (npackets: nat)
      requires Valid(twin)
      modifies this`scheduled, dev, twin.dev, dev.queue
      ensures With(twin) == SnullNapi.Poll(old(With(twin)), budget, fails)
      ensures npackets == PollLoop(old(With(twin)), 0, budget, fails).1
      ensures Valid(twin)
    {
      npackets := PollRounds(twin, budget, fails);
      if npackets < budget {
        CompletePoll(twin);
      }
    }

    method CompletePoll(twin: NapiPort)
      requires Valid(twin)
      modifies this`scheduled, dev
      ensures With(twin) == old(With(twin)).(me := Complete(old(With(twin)).me))
      ensures Valid(twin)
    {
      dev.RxInts(true);
      scheduled := false;
      assert With(twin) == old(With(twin)).(me := Complete(old(With(twin)).me));
      SameListsKeepStructure(old(With(twin)), With(twin));
    }

    /** Remember the skb, take a packet and copy the frame into it. */
    method TakeFrame(skb: Skb) returns (pkt: Packet)
      requires dev.Valid() && dev.pool != [] && dev.pool[0] !in dev.queue
      modifies this`sent, dev, dev.pool[..1]
      ensures pkt == old(dev.pool[0]) && pkt.data == skb.frame
      ensures Abs() == old(Abs()).(base := old(Abs()).base.(sent := old(sent) + [skb],
                dev := SnullTypes.TakeBuffer(old(dev.Abs()).(skb := Some(skb)))))
      ensures dev.Valid() && dev.queue == old(dev.queue) && dev.pool == old(dev.pool[1..])
      ensures pkt !in dev.pool && pkt !in dev.queue
    {
      dev.Remember(skb);
      sent := sent + [skb];
      pkt := dev.GetFilledBuffer(skb.frame);
    }

    /** ... and push it on the twin's queue. */
    method PushFrame(twin: NapiPort, skb: Skb)
      requires this != twin && dev != twin.dev && dev.Valid() && twin.dev.Valid() && dev.pool != []
      requires var pkt := dev.pool[0]; pkt !in dev.queue && pkt !in twin.dev.pool && pkt !in twin.dev.queue
      modifies this`sent, dev, twin.dev, dev.pool[..1]
      ensures Abs() == Pushed(old(With(twin)), skb).me && twin.Abs() == Pushed(old(With(twin)), skb).twin
      ensures dev.Valid() && twin.dev.Valid()
    {
      hide Linked, NoDup;
      var pkt := TakeFrame(skb);
      assert twin.dev.Abs() == old(twin.dev.Abs()) && twin.dev.Valid();
      ghost var taken := Abs();
      assert taken == Pushed(old(With(twin)), skb).me;
      twin.dev.Enqueue(pkt);
      assert Abs() == taken && dev.Valid();
    }

    lemma PoolHeadIsLoose(twin: NapiPort)
      requires Valid(twin) && dev.pool != []
      ensures var pkt := dev.pool[0]; pkt !in dev.queue && pkt !in twin.dev.pool && pkt !in twin.dev.queue
    {
      var p := With(twin).Base();
      var pkt := dev.pool[0];
      assert Account(p, pkt) == 1 by { assert pkt in Listed(p); }
      ListCounts(dev.pool[1..], p.twin.dev.rxq, pkt);
      QueueMembers(twin.dev.queue, pkt);
      QueueMembers(dev.queue, pkt);
    }

    /** snull_tx: the whole transmission. Finding the pool empty, it returns with the lock held. */
    method Tx(twin: NapiPort, id: nat, data: array<byte>, other: Sum)
      requires Valid(twin) && Transmittable(data[..])
      modifies this, twin`scheduled, dev, twin.dev, data, dev.pool[..if dev.pool == [] then 0 else 1]
      ensures With(twin) == Transmit(old(With(twin)), Load(id, old(data[..]), other))
      ensures Valid(twin)
    {
      var skb := PrepareSkb(id, data, other);
      assert With(twin) == old(With(twin)) && Valid(twin);
      HwTx(twin, skb);
    }

    /** A packet has arrived: raise the receive interrupt if it is enabled. */
    method Announce()
      requires dev.Valid()
      modifies this`scheduled, dev
      ensures dev.Valid() && Abs() == NotifyTwin(old(Abs()))
    {
      if dev.rxIntEnabled {
        dev.SetRxPending();
        Interrupt();
      }
    }

    /** The transmission is over: raise the transmit interrupt. */
    method Finish(len: nat)
      requires dev.Valid()
      modifies this`scheduled, dev
      ensures dev.Valid() && Abs() == NotifySelf(old(Abs()), len)
    {
      dev.SetTxPending(len, false);
      Interrupt();
    }

    method Notify(twin: NapiPort, len: nat)
      requires this != twin && dev != twin.dev && dev.Valid() && twin.dev.Valid()
      modifies this`scheduled, twin`scheduled, dev, twin.dev
      ensures Abs() == NotifySelf(old(Abs()), len) && twin.Abs() == NotifyTwin(old(twin.Abs()))
      ensures dev.Valid() && twin.dev.Valid()
    {
      hide Linked, NoDup, NotifySelf, NotifyTwin;
      twin.Announce();
      Finish(len);
    }

    method Deliver(twin: NapiPort, skb: Skb)
      requires this != twin && dev != twin.dev && dev.Valid() && twin.dev.Valid() && dev.pool != []
      requires var pkt := dev.pool[0]; pkt !in dev.queue && pkt !in twin.dev.pool && pkt !in twin.dev.queue
      modifies this`sent, this`scheduled, twin`scheduled, dev, twin.dev, dev.pool[..1]
      ensures var q := Pushed(old(With(twin)), skb);
        Abs() == NotifySelf(q.me, |skb.frame|) && twin.Abs() == NotifyTwin(q.twin)
      ensures dev.Valid() && twin.dev.Valid()
    {
      PushFrame(twin, skb);
      Notify(twin, |skb.frame|);
    }

    method OutOfPool(skb: Skb)
      requires dev.Valid()
      modifies this, dev
      ensures Abs() == old(Abs()).(lockHeld := true, base := old(Abs()).base.(
                sent := old(sent) + [skb], dev := old(dev.Abs()).(skb := Some(skb))))
      ensures dev.Valid()
    {
      dev.Remember(skb);
      sent := sent + [skb];
      lockHeld := true;
    }

    method HwTx(twin: NapiPort, skb: Skb)
      requires Valid(twin)
      modifies this, twin`scheduled, dev, twin.dev, dev.pool[..if dev.pool == [] then 0 else 1]
      ensures With(twin) == Transmit(old(With(twin)), skb)
      ensures Valid(twin)
    {
      if dev.ppool == null {
        OutOfPool(skb);
        assert twin.Abs() == old(twin.Abs()) && twin.dev.Valid();
      } else {
        PoolHeadIsLoose(twin);
        Deliver(twin, skb);
      }
      assert With(twin) == Transmit(old(With(twin)), skb);
      TransmitKeepsStructure(old(With(twin)), skb);
    }
  }

  /** Structure looks only at the lists and their owners. */
  lemma SameListsKeepStructure(p: NPair, q: NPair)
    requires Structure(p) && q.me.base.pc.Idle? && q.twin.base.pc.Idle?
    requires q.me.base.id == p.me.base.id && q.twin.base.id == p.twin.base.id
    requires q.me.base.dev.pool == p.me.base.dev.pool && q.twin.base.dev.pool == p.twin.base.dev.pool
    requires q.me.base.dev.rxq == p.me.base.dev.rxq && q.twin.base.dev.rxq == p.twin.base.dev.rxq
    ensures Structure(q)
  {
    SameAccountsKeepUnique(p.Base(), q.Base());
    SameAccountsKeepUnique(Swap(p.Base()), Swap(q.Base()));
  }

  lemma PollLoopUnrolls(p: NPair, n: nat, budget: nat, fails: set<nat>)
    requires n < budget && p.me.base.dev.rxq != []
    ensures PollLoop(p, n, budget, fails) == PollLoop(PollOne(p, n !in fails), n + 1, budget, fails)
  {
  }

  /** Both devices up in polling mode: an initial state of the machine. */
  method OpenNapiPair(poolSize: int, allocatable0: nat, allocatable1: nat) returns (port0: NapiPort, port1: NapiPort)
    requires poolSize > 0 && allocatable0 > 0 && allocatable1 > 0
    ensures fresh(port0) && fresh(port1) && fresh(port0.dev) && fresh(port1.dev)
    ensures port0.Valid(port1) && NInit(NState(port0.Abs(), port1.Abs()))
    ensures |port0.owned| == if poolSize <= allocatable0 then poolSize else allocatable0
    ensures |port1.owned| == if poolSize <= allocatable1 then poolSize else allocatable1
  {
    var d0, o0 := OpenDevice(0, poolSize, allocatable0);
    var d1, o1 := OpenDevice(1, poolSize, allocatable1);
    port0 := new NapiPort(d0, o0);
    port1 := new NapiPort(d1, o1);
    ghost var s := State(0, port0.Abs().base, port1.Abs().base);
    InitPlaces(s);
    InitUnique(s, 0);
    InitUnique(s, 1);
    assert Swap(s.View(0)) == s.View(1);
  }
}
