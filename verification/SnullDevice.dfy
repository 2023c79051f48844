/** One snull device on the heap: the pool and the receive queue are intrusive lists threaded
    through the packets' next fields. */
module SnullDevice {
  import opened Common
  import opened SnullTypes
  import opened SnullRegular

  /** head starts the null-terminated chain through exactly the packets of s. */
  ghost predicate Linked(head: Packet?, s: seq<Packet>)
    reads s
  {
    && head == (if s == [] then null else s[0])
    && forall k {:trigger s[k].next} :: 0 <= k < |s| ==> s[k].next == if k + 1 < |s| then s[k + 1] else null
  }

  lemma LinkedTail(head: Packet?, s: seq<Packet>)
    requires Linked(head, s) && s != []
    ensures head != null && Linked(head.next, s[1..])
  {
    assert s[0].next == if 1 < |s| then s[1] else null;
    forall k | 0 <= k < |s[1..]|
      ensures s[1..][k].next == if k + 1 < |s[1..]| then s[1..][k + 1] else null
    {
      assert s[1..][k] == s[k + 1];
    }
  }

  lemma LinkedPush(head: Packet?, s: seq<Packet>, pkt: Packet)
    requires Linked(head, s) && pkt.next == head
    ensures Linked(pkt, [pkt] + s)
  {
    var t := [pkt] + s;
    forall k | 0 <= k < |t|
      ensures t[k].next == if k + 1 < |t| then t[k + 1] else null
    {
      if k > 0 {
        assert t[k] == s[k - 1];
      }
    }
  }

  ghost predicate NoDup(s: seq<Packet>) {
    forall j, k :: 0 <= j < k < |s| ==> s[j] != s[k]
  }

  ghost function EntriesOf(s: seq<Packet>): (r: seq<Entry>)
    reads s
    ensures |r| == |s|
  {
    seq(|s|, k requires 0 <= k < |s| reads s => Entry(s[k], s[k].data))
  }

  class Device {
    const id: Id
    var ppool: Packet?
    var rxQueue: Packet?
    var rxPending: bool        // SNULL_RX_INTR in status
    var txPending: bool        // SNULL_TX_INTR in status
    var rxIntEnabled: bool
    var running: bool          // the kernel's transmit queue is not stopped
    var txPacketLen: nat
    var skb: Option<Skb>
    var stats: Stats

    ghost var pool: seq<Packet>
    ghost var queue: seq<Packet>
    ghost var handled: seq<Handled>
    ghost var freed: seq<Option<Skb>>

    ghost predicate Valid()
      reads this, pool, queue
    {
      && Linked(ppool, pool) && Linked(rxQueue, queue)
      && NoDup(pool) && NoDup(queue)
      && (forall pkt :: pkt in pool ==> pkt !in queue)
    }

    ghost function Abs(): Dev
      reads this, queue
    {
      Dev(pool, EntriesOf(queue), rxPending, txPending, rxIntEnabled, running, txPacketLen, skb, stats, handled, freed)
    }

    constructor (id: Id)
      ensures this.id == id && Valid()
      ensures Abs() == Opened([]).(running := false)
    {
      this.id := id;
      ppool, rxQueue := null, null;
      rxPending, txPending, rxIntEnabled, running := false, false, true, false;
      txPacketLen, skb, stats := 0, None, NO_STATS;
      pool, queue, handled, freed := [], [], [], [];
    }

    /** Fill the pool; memory lasts for the first allocatable packets. */
    method SetupPool(poolSize: int, allocatable: nat)
      requires Valid() && pool == []
      modifies this`ppool, this`pool
      ensures Valid()
      ensures Abs() == old(Abs()).(pool := pool)
      ensures |pool| == if poolSize <= 0 then 0 else if poolSize <= allocatable then poolSize else allocatable
      ensures forall pkt :: pkt in pool ==> pkt.dev == id && fresh(pkt)
    {
      ppool := null;
      var i := 0;
      while i < poolSize
        invariant 0 <= i && (poolSize > 0 ==> i <= poolSize) && (poolSize <= 0 ==> i == 0)
        invariant i <= allocatable && |pool| == i
        invariant Valid() && queue == old(queue)
        invariant forall pkt :: pkt in pool ==> pkt.dev == id && fresh(pkt)
        invariant forall pkt :: pkt in queue ==> unchanged(pkt)
      {
        if i == allocatable {
          return;
        }
        var pkt := AddPacket();
        i := i + 1;
      }
    }

    /** Allocate a packet and put it on the pool. */
    method AddPacket() returns (pkt: Packet)
      requires Valid()
      modifies this`ppool, this`pool
      ensures Valid() && queue == old(queue)
      ensures pool == [pkt] + old(pool) && pkt.dev == id && fresh(pkt)
    {
      pkt := new Packet(id);
      pkt.next := ppool;
      LinkedPush(ppool, pool, pkt);
      ppool := pkt;
      pool := [pkt] + pool;
    }

    /** Free every packet of the pool, and nothing else. */
    method TeardownPool() returns (killed: seq<Packet>)
      requires Valid()
      modifies this`ppool, this`pool
      ensures ppool == null && pool == [] && Valid()
      ensures killed == old(pool)
    {
      killed := [];
      while ppool != null
        invariant Valid() && queue == old(queue)
        invariant killed + pool == old(pool)
        decreases |pool|
      {
        var pkt := PopPacket();
        killed := killed + [pkt];
      }
      assert killed + [] == killed;
    }

    method PopPacket() returns (pkt: Packet)
      requires Valid() && pool != []
      modifies this`ppool, this`pool
      ensures Valid() && queue == old(queue) && old(pool) == [pkt] + pool
    {
      LinkedTail(ppool, pool);
      pkt := ppool;
      ppool := pkt.next;
      pool := pool[1..];
    }

    /** Pop the pool; stop the queue when that was the last packet. The head is dereferenced unchecked. */
    method GetTxBuffer() returns (pkt: Packet)
      requires Valid() && pool != []
      modifies this
      ensures Valid() && pkt == old(pool[0]) && queue == old(queue)
      ensures Abs() == TakeBuffer(old(Abs()))
    {
      pkt := PopPacket();
      if ppool == null {
        running := false;
      }
    }

    /** Pop the pool and copy a frame into the packet. */
    method GetFilledBuffer(frame: seq<byte>) returns (pkt: Packet)
      requires Valid() && pool != [] && pool[0] !in queue
      modifies this, pool[..1]
      ensures Valid() && pkt == old(pool[0]) && pkt.data == frame
      ensures queue == old(queue) && pool == old(pool[1..])
      ensures Abs() == TakeBuffer(old(Abs()))
    {
      pkt := GetTxBuffer();
      pkt.data := frame;
      assert EntriesOf(queue) == old(EntriesOf(queue));
    }

    /** Push on the pool; wake a stopped queue when the pool was empty. */
    method PutBack(pkt: Packet)
      requires Valid() && pkt !in pool && pkt !in queue
      modifies this, pkt`next
      ensures Valid() && queue == old(queue)
      ensures Abs() == ReleaseBuffer(old(Abs()), pkt)
    {
      pkt.next := ppool;
      LinkedPush(ppool, pool, pkt);
      ppool := pkt;
      pool := [pkt] + pool;
      if !running && pkt.next == null {
        running := true;
      }
    }

    method Enqueue(pkt: Packet)
      requires Valid() && pkt !in pool && pkt !in queue
      modifies this`rxQueue, this`queue, pkt`next
      ensures Valid() && queue == [pkt] + old(queue)
      ensures Abs() == EnqueueBuf(old(Abs()), Entry(pkt, pkt.data))
    {
      pkt.next := rxQueue;
      LinkedPush(rxQueue, queue, pkt);
      rxQueue := pkt;
      queue := [pkt] + queue;
      assert EntriesOf(queue) == [Entry(pkt, pkt.data)] + old(EntriesOf(queue));
    }

    method Dequeue() returns (pkt: Packet?)
      requires Valid()
      modifies this`rxQueue, this`queue
      ensures Valid()
      ensures old(queue) == [] ==> pkt == null && queue == [] && Abs() == old(Abs())
      ensures old(queue) != [] ==> pkt == old(queue[0]) && queue == old(queue[1..]) && Abs() == DequeueBuf(old(Abs()))
    {
      pkt := rxQueue;
      if pkt != null {
        LinkedTail(rxQueue, queue);
        rxQueue := pkt.next;
        queue := queue[1..];
        assert EntriesOf(queue) == old(EntriesOf(queue))[1..];
      }
    }

    /** Count a frame and hand it to the kernel, or drop it. */
    method Rx(frame: seq<byte>, ok: bool)
      requires Valid()
      modifies this`stats, this`handled
      ensures Valid() && Abs() == Receive(old(Abs()), frame, ok)
    {
      if !ok {
        stats := stats.(rxDropped := stats.rxDropped + 1);
      } else {
        stats := stats.(rxPackets := stats.rxPackets + 1, rxBytes := stats.rxBytes + |frame|);
      }
      handled := handled + [Handled(frame, ok)];
    }

    method DequeueAndReceive(ok: bool) returns (pkt: Packet)
      requires Valid() && queue != []
      modifies this`rxQueue, this`queue, this`stats, this`handled
      ensures Valid() && pkt == old(queue[0]) && queue == old(queue[1..])
      ensures Abs() == Receive(DequeueBuf(old(Abs())), pkt.data, ok)
    {
      pkt := Dequeue();
      Rx(pkt.data, ok);
    }

    /** The transmit half of both interrupt handlers. */
    method TxDone()
      requires Valid()
      modifies this`stats, this`freed
      ensures Valid() && Abs() == FinishSend(old(Abs()))
    {
      stats := stats.(txPackets := stats.txPackets + 1, txBytes := stats.txBytes + txPacketLen);
      freed := freed + [skb];
    }

    /** The transmit half of the polling interrupt handler. */
    method TxDoneOnce()
      requires Valid()
      modifies this`stats, this`freed, this`skb
      ensures Valid() && Abs() == FinishOnce(old(Abs()))
    {
      if skb.Some? {
        TxDone();
        skb := None;
      } else {
        stats := stats.(txPackets := stats.txPackets + 1, txBytes := stats.txBytes + txPacketLen);
      }
    }

    /** Read and clear the status word. */
    method ReadStatus() returns (rx: bool, tx: bool)
      requires Valid()
      modifies this`rxPending, this`txPending
      ensures rx == old(rxPending) && tx == old(txPending)
      ensures Valid() && Abs() == old(Abs()).(rxPending := false, txPending := false)
    {
      rx, tx := rxPending, txPending;
      rxPending, txPending := false, false;
    }

    method RxInts(enable: bool)
      requires Valid()
      modifies this`rxIntEnabled
      ensures Valid() && Abs() == old(Abs()).(rxInt := enable)
    {
      rxIntEnabled := enable;
    }

    /** Remember the socket buffer until the transmit interrupt frees it. */
    method Remember(x: Skb)
      requires Valid()
      modifies this`skb
      ensures Valid() && Abs() == old(Abs()).(skb := Some(x))
    {
      skb := Some(x);
    }

    method SetRxPending()
      requires Valid()
      modifies this`rxPending
      ensures Valid() && Abs() == old(Abs()).(rxPending := true)
    {
      rxPending := true;
    }

    /** Set the transmit bit; stop the queue if the interrupt is to be lost. */
    method SetTxPending(len: nat, stall: bool)
      requires Valid()
      modifies this`txPacketLen, this`txPending, this`running
      ensures Valid()
      ensures Abs() == old(Abs()).(txLen := len, txPending := true, running := old(running) && !stall)
    {
      txPacketLen := len;
      txPending := true;
      if stall {
        running := false;
      }
    }

    /** The locked part of the regular interrupt handler; the packet is released outside the lock. */
    method RegularInterrupt(ok: bool) returns (pkt: Packet?)
      requires Valid()
      modifies this
      ensures Valid() && pool == old(pool)
      ensures Abs() == Interrupt(old(Abs()), ok).0
      ensures pkt == (match Interrupt(old(Abs()), ok).1 case Some(p) => p case None => null)
      ensures queue == (if old(rxPending) && old(queue) != [] then old(queue[1..]) else old(queue))
    {
      hide Linked, NoDup;
      var rx, tx := ReadStatus();
      pkt := null;
      if rx {
        pkt := Dequeue();
        if pkt != null {
          Rx(pkt.data, ok);
        }
      }
      if tx {
        TxDone();
      }
    }

    /** snull_tx_timeout: overwrite the status with the transmit bit, serve it, restart the queue. */
    method TxTimeout()
      requires Valid()
      modifies this
      ensures Valid() && pool == old(pool) && queue == old(queue)
      ensures Abs() == RecoverDev(old(Abs()))
    {
      hide Linked, NoDup, Interrupt;
      rxPending, txPending := false, true;
      assert Abs() == old(Abs()).(rxPending := false, txPending := true);
      var pkt := RegularInterrupt(true);
      assert Abs() == Interrupt(old(Abs()).(rxPending := false, txPending := true), true).0;
      stats := stats.(txErrors := stats.txErrors + 1);
      running := true;
    }
  }

  ghost function Members(s: seq<Packet>): set<Packet> {
    set pkt | pkt in s
  }

  lemma MembersGrow(s: seq<Packet>)
    requires NoDup(s) && s != []
    ensures NoDup(s[1..]) && s[0] !in Members(s[1..]) && Members(s) == {s[0]} + Members(s[1..])
    ensures multiset(s) == multiset{s[0]} + multiset(s[1..])
  {
    assert s == [s[0]] + s[1..];
    assert forall k :: 0 <= k < |s[1..]| ==> s[1..][k] == s[k + 1];
  }

  lemma {:induction false} PoolIsSet(s: seq<Packet>)
    requires NoDup(s)
    ensures multiset(s) == multiset(Members(s))
    ensures |Members(s)| == |s|
  {
    if s == [] {
    } else {
      MembersGrow(s);
      hide Members, NoDup;
      PoolIsSet(s[1..]);
    }
  }

  /** Allocate a device, fill its pool as far as memory lasts and start its queue. */
  method OpenDevice(id: Id, poolSize: int, allocatable: nat) returns (d: Device, ghost owned: set<Packet>)
    ensures fresh(d) && d.id == id && d.Valid() && d.queue == []
    ensures d.Abs() == Opened(d.pool)
    ensures |d.pool| == |owned| == if poolSize <= 0 then 0 else if poolSize <= allocatable then poolSize else allocatable
    ensures multiset(d.pool) == multiset(owned)
    ensures forall pkt :: pkt in owned ==> pkt.dev == id && fresh(pkt)
  {
    d := new Device(id);
    d.SetupPool(poolSize, allocatable);
    d.running := true;
    owned := Members(d.pool);
    PoolIsSet(d.pool);
  }
}
