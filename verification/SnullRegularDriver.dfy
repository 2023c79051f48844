/** The regular-interrupt driver on the heap: each locked section works on the intrusive lists
    and does exactly the step of the machine. */
module SnullRegularDriver {
  import opened Common
  import opened IpHeader
  import opened SnullTypes
  import opened SnullRegular
  import opened SnullRegularProof
  import opened SnullRegularTheorems
  import opened SnullDevice

  /** A device together with the thread that transmits on it. */
  class Port {
    const dev: Device
    var pc: Pc
    ghost var sent: seq<Skb>
    ghost const owned: set<Packet>

    constructor (dev: Device, ghost owned: set<Packet>)
      ensures this.dev == dev && this.owned == owned && pc == Idle && sent == []
    {
      this.dev, pc := dev, Idle;
      sent, this.owned := [], owned;
    }

    ghost function Abs(): Side
      reads this, dev, dev.queue
    {
      Side(dev.id, dev.Abs(), pc, sent, owned)
    }

    ghost function With(twin: Port): Pair
      reads this, dev, dev.queue, twin, twin.dev, twin.dev.queue
    {
      Pair(Abs(), twin.Abs())
    }

    /** Two looped-back ports whose lists share no packet. */
    ghost predicate Valid(twin: Port)
      reads this, dev, dev.queue, dev.pool, twin, twin.dev, twin.dev.queue, twin.dev.pool
    {
      && this != twin && dev != twin.dev && dev.Valid() && twin.dev.Valid()
      && Places(With(twin)) && Unique(With(twin)) && Unique(Swap(With(twin)))
    }

    method Remember(twin: Port, skb: Skb)
      requires Valid(twin) && pc.Idle?
      modifies this, dev
      ensures With(twin) == Begin(old(With(twin)), skb)
      ensures Valid(twin)
    {
      dev.Remember(skb);
      pc := Loaded(skb);
      sent := sent + [skb];
      assert With(twin) == Begin(old(With(twin)), skb);
      BeginKeepsStructure(old(With(twin)), skb);
    }

    /** snull_tx up to the call for a buffer: pad, rewrite the header, remember the skb. */
    method Start(twin: Port, id: nat, data: array<byte>, other: Sum)
      requires Valid(twin) && pc.Idle?
      modifies this, dev, data
      ensures With(twin) == Begin(old(With(twin)), Load(id, old(data[..]), other))
      ensures Valid(twin)
    {
      var skb := PrepareSkb(id, data, other);
      assert With(twin) == old(With(twin));
      Remember(twin, skb);
    }

    method TakeBuffer(twin: Port)
      requires Valid(twin) && pc.Loaded? && dev.pool != []
      modifies this, dev
      ensures With(twin) == Take(old(With(twin)))
      ensures Valid(twin)
    {
      var pkt := dev.GetTxBuffer();
      pc := Taken(pkt, pc.cur);
      assert With(twin) == Move(old(With(twin)), 0, true);
      KeepsStructure(old(With(twin)), 0, true);
    }

    /** Copy the frame into the packet and push it on the twin's queue. */
    method PushPacket(twin: Port)
      requires Valid(twin) && pc.Taken?
      modifies this, twin.dev, pc.hand
      ensures With(twin) == Push(old(With(twin)))
      ensures Valid(twin)
    {
      hide Linked, NoDup, Places, Unique;
      HandIsLoose(twin);
      var pkt, skb := pc.hand, pc.cur;
      pkt.data := skb.frame;
      twin.dev.Enqueue(pkt);
      pc := Queued(skb);
      assert With(twin) == Move(old(With(twin)), 0, true);
      KeepsStructure(old(With(twin)), 0, true);
    }

    method RaiseReceive(twin: Port)
      requires Valid(twin) && pc.Queued?
      modifies this, twin.dev
      ensures With(twin) == RaiseRx(old(With(twin)))
      ensures Valid(twin)
    {
      hide Linked, NoDup, Places, Unique;
      if twin.dev.rxIntEnabled {
        twin.dev.SetRxPending();
        pc := Raised(pc.cur);
      } else {
        pc := Looped(pc.cur);
      }
      assert With(twin) == Move(old(With(twin)), 0, true);
      KeepsStructure(old(With(twin)), 0, true);
    }

    method InterruptTwin(twin: Port, ok: bool)
      requires Valid(twin) && pc.Raised?
      modifies this, twin.dev
      ensures With(twin) == TwinInterrupt(old(With(twin)), ok)
      ensures Valid(twin)
    {
      hide Linked, NoDup, Places, Unique;
      var pkt := twin.dev.RegularInterrupt(ok);
      pc := if pkt != null then TwinServed(pkt, pc.cur) else Looped(pc.cur);
      assert With(twin) == Move(old(With(twin)), 0, ok);
      KeepsStructure(old(With(twin)), 0, ok);
    }

    method ReleaseOwn(twin: Port)
      requires Valid(twin) && pc.TwinServed?
      modifies this, dev, pc.hand
      ensures With(twin) == TwinRelease(old(With(twin)))
      ensures Valid(twin)
    {
      hide Linked, NoDup, Places, Unique;
      HandIsLoose(twin);
      dev.PutBack(pc.hand);
      pc := Looped(pc.cur);
      assert With(twin) == Move(old(With(twin)), 0, true);
      KeepsStructure(old(With(twin)), 0, true);
    }

    method RaiseTransmit(twin: Port, lockup: nat)
      requires Valid(twin) && pc.Looped?
      modifies this, dev
      ensures With(twin) == RaiseTx(old(With(twin)), lockup)
      ensures Valid(twin)
    {
      hide Linked, NoDup, Places, Unique;
      var stall := Stalls(lockup, dev.stats.txPackets);
      dev.SetTxPending(|pc.cur.frame|, stall);
      pc := if stall then Idle else TxRaised(pc.cur);
      assert With(twin) == Move(old(With(twin)), lockup, true);
      KeepsStructure(old(With(twin)), lockup, true);
    }

    method InterruptSelf(twin: Port, ok: bool)
      requires Valid(twin) && pc.TxRaised?
      modifies this, dev
      ensures With(twin) == OwnInterrupt(old(With(twin)), ok)
      ensures Valid(twin)
    {
      hide Linked, NoDup, Places, Unique;
      var pkt := dev.RegularInterrupt(ok);
      pc := if pkt != null then OwnServed(pkt) else Idle;
      assert With(twin) == Move(old(With(twin)), 0, ok);
      KeepsStructure(old(With(twin)), 0, ok);
    }

    method ReleaseTwin(twin: Port)
      requires Valid(twin) && pc.OwnServed?
      modifies this, twin.dev, pc.hand
      ensures With(twin) == OwnRelease(old(With(twin)))
      ensures Valid(twin)
    {
      hide Linked, NoDup, Places, Unique;
      HandIsLoose(twin);
      twin.dev.PutBack(pc.hand);
      pc := Idle;
      assert With(twin) == Move(old(With(twin)), 0, true);
      KeepsStructure(old(With(twin)), 0, true);
    }

    /** The watchdog's transmit timeout. */
    method TxTimeout(twin: Port)
      requires Valid(twin) && pc.Idle?
      modifies dev
      ensures With(twin) == Recover(old(With(twin)))
      ensures Valid(twin)
    {
      dev.TxTimeout();
      assert With(twin) == Recover(old(With(twin)));
      RecoverKeepsStructure(old(With(twin)));
    }

    /** A packet in this thread's hand is on none of the lists, and whose it is. */
    lemma HandIsLoose(twin: Port)
      requires Valid(twin) && (pc.Taken? || pc.TwinServed? || pc.OwnServed?)
      ensures pc.hand !in dev.pool && pc.hand !in dev.queue && pc.hand !in twin.dev.pool && pc.hand !in twin.dev.queue
      ensures dev.id != twin.dev.id && pc.hand.dev == if pc.OwnServed? then twin.dev.id else dev.id
    {
      var p := if pc.OwnServed? then Swap(With(twin)) else With(twin);
      var q := Swap(p);
      assert Account(p, pc.hand) == 1 by { assert pc.hand in Listed(p); }
      ListCounts(p.me.dev.pool, p.twin.dev.rxq, pc.hand);
      forall k | 0 <= k < |q.me.dev.pool|
        ensures q.me.dev.pool[k] != pc.hand
      {
      }
      forall k | 0 <= k < |q.twin.dev.rxq|
        ensures q.twin.dev.rxq[k].pkt != pc.hand
      {
      }
      QueueMembers(dev.queue, pc.hand);
      QueueMembers(twin.dev.queue, pc.hand);
    }
  }

  method PrepareSkb(id: nat, data: array<byte>, other: Sum) returns (skb: Skb)
    modifies data
    ensures skb == Load(id, old(data[..]), other)
  {
    var original := data[..];
    var frame := PrepareFrame(data, other);
    skb := Skb(id, original, frame[..]);
  }

  lemma ListCounts(pool: seq<Packet>, q: seq<Entry>, pkt: Packet)
    ensures InPool(pool, pkt) == 0 ==> pkt !in pool
    ensures InQueue(q, pkt) == 0 ==> forall k :: 0 <= k < |q| ==> q[k].pkt != pkt
  {
    InPoolCounts(pool, pkt);
    InQueueCounts(q, pkt);
    if k :| 0 <= k < |q| && q[k].pkt == pkt {
      assert QueuePackets(q)[k] == pkt;
    }
  }

  lemma QueueMembers(queue: seq<Packet>, pkt: Packet)
    ensures pkt in queue ==> exists k :: 0 <= k < |queue| && EntriesOf(queue)[k].pkt == pkt
  {
    if pkt in queue {
      var k :| 0 <= k < |queue| && queue[k] == pkt;
      assert EntriesOf(queue)[k].pkt == pkt;
    }
  }

  lemma KeepsStructure(p: Pair, lockup: nat, ok: bool)
    requires Places(p) && !p.me.pc.Idle? && (p.me.pc.Loaded? ==> p.me.dev.pool != [])
    requires Unique(p) && Unique(Swap(p))
    ensures var q := Move(p, lockup, ok); Places(q) && Unique(q) && Unique(Swap(q))
  {
    MoveKeepsPlaces(p, lockup, ok);
    MoveKeepsUnique(p, lockup, ok);
  }

  lemma BeginKeepsStructure(p: Pair, skb: Skb)
    requires p.me.pc.Idle? && Places(p) && Unique(p) && Unique(Swap(p))
    ensures var q := Begin(p, skb); Places(q) && Unique(q) && Unique(Swap(q))
  {
    SameAccountsKeepUnique(p, Begin(p, skb));
    SameAccountsKeepUnique(Swap(p), Swap(Begin(p, skb)));
  }

  lemma RecoverKeepsStructure(p: Pair)
    requires Places(p) && Unique(p) && Unique(Swap(p))
    ensures var q := Recover(p); Places(q) && Unique(q) && Unique(Swap(q))
  {
    SameAccountsKeepUnique(p, Recover(p));
    SameAccountsKeepUnique(Swap(p), Swap(Recover(p)));
  }

  lemma InitUnique(s: State, t: Id)
    requires Init(s)
    ensures Unique(s.View(t))
  {
    var p := s.View(t);
    forall pkt | pkt in Listed(p)
      ensures Account(p, pkt) == 1
    {
      InPoolCounts(p.me.dev.pool, pkt);
      assert multiset(p.me.owned)[pkt] == 1;
    }
  }

  /** Both devices up, with pools as large as asked for or as memory allowed: an initial state. */
  method OpenPair(ghost lockup: nat, poolSize: int, allocatable0: nat, allocatable1: nat) returns (port0: Port, port1: Port)
    requires poolSize > 0 && allocatable0 > 0 && allocatable1 > 0
    ensures fresh(port0) && fresh(port1) && fresh(port0.dev) && fresh(port1.dev)
    ensures port0.Valid(port1) && Init(State(lockup, port0.Abs(), port1.Abs()))
    ensures |port0.owned| == if poolSize <= allocatable0 then poolSize else allocatable0
    ensures |port1.owned| == if poolSize <= allocatable1 then poolSize else allocatable1
  {
    var d0, o0 := OpenDevice(0, poolSize, allocatable0);
    var d1, o1 := OpenDevice(1, poolSize, allocatable1);
    port0 := new Port(d0, o0);
    port1 := new Port(d1, o1);
    InitPlaces(State(lockup, port0.Abs(), port1.Abs()));
    InitUnique(State(lockup, port0.Abs(), port1.Abs()), 0);
    InitUnique(State(lockup, port0.Abs(), port1.Abs()), 1);
  }
}
