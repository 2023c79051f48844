/** Packets, socket buffers and the per-device record of snull, with the effect of each
    short routine on that record as a function. */
module SnullTypes {
  import opened Common
  import opened IpHeader

  /** The two devices; each loops its frames back to the other. */
  type Id = i: nat | i < 2

  function Twin(i: Id): Id {
    1 - i
  }

  /** A packet buffer. Its owner is set once, when it is allocated for a device's pool;
      next links it into whichever list holds it. */
  class Packet {
    const dev: Id
    var next: Packet?
    var data: seq<byte>

    constructor (dev: Id)
      ensures this.dev == dev
    {
      this.dev := dev;
      next := null;
      data := [];
    }
  }

  /** A socket buffer the kernel asked to send, and the frame it puts on the wire. */
  datatype Skb = Skb(id: nat, data: seq<byte>, frame: seq<byte>)

  function Load(id: nat, data: seq<byte>, other: Sum): Skb
  {
    Skb(id, data, Wire(data, other))
  }

  /** A packet waiting on a receive queue, with the frame it carries. */
  datatype Entry = Entry(pkt: Packet, frame: seq<byte>)

  /** A received frame: handed to the kernel, or dropped for want of memory. */
  datatype Handled = Handled(frame: seq<byte>, delivered: bool)

  datatype Stats = Stats(rxPackets: nat, rxBytes: nat, rxDropped: nat,
                         txPackets: nat, txBytes: nat, txErrors: nat)

  const NO_STATS := Stats(0, 0, 0, 0, 0, 0)

  datatype Dev = Dev(pool: seq<Packet>, rxq: seq<Entry>,
                     rxPending: bool, txPending: bool, rxInt: bool,
                     running: bool, txLen: nat, skb: Option<Skb>, stats: Stats,
                     // traces: frames handed to the kernel or dropped, and buffers freed
                     handled: seq<Handled>, freed: seq<Option<Skb>>)

  /** Just opened: everything zeroed, receive interrupts on, the transmit queue started. */
  function Opened(pool: seq<Packet>): Dev {
    Dev(pool, [], false, false, true, true, 0, None, NO_STATS, [], [])
  }

  function TakeBuffer(d: Dev): Dev
    requires d.pool != []
  {
    d.(pool := d.pool[1..], running := d.running && |d.pool| > 1)
  }

  function ReleaseBuffer(d: Dev, pkt: Packet): Dev {
    d.(pool := [pkt] + d.pool, running := d.running || d.pool == [])
  }

  function EnqueueBuf(d: Dev, e: Entry): Dev {
    d.(rxq := [e] + d.rxq)
  }

  function DequeueBuf(d: Dev): Dev
    requires d.rxq != []
  {
    d.(rxq := d.rxq[1..])
  }

  /** A frame goes up to the kernel if a socket buffer can be allocated for it. */
  function Receive(d: Dev, frame: seq<byte>, ok: bool): Dev {
    var st := d.stats;
    d.(handled := d.handled + [Handled(frame, ok)],
       stats := if ok then st.(rxPackets := st.rxPackets + 1, rxBytes := st.rxBytes + |frame|)
                else st.(rxDropped := st.rxDropped + 1))
  }

  /** The last transmission is over: count it and free its socket buffer. */
  function FinishSend(d: Dev): Dev {
    var st := d.stats;
    d.(freed := d.freed + [d.skb],
       stats := st.(txPackets := st.txPackets + 1, txBytes := st.txBytes + d.txLen))
  }

  /** The same in polling mode: the skb is forgotten once freed. */
  function FinishOnce(d: Dev): Dev {
    if d.skb.Some? then FinishSend(d).(skb := None)
    else d.(stats := d.stats.(txPackets := d.stats.txPackets + 1, txBytes := d.stats.txBytes + d.txLen))
  }

  // ---------------------------------------------------------------- totals

  /** How often pkt stands in a pool, and on a receive queue. */
  function InPool(s: seq<Packet>, pkt: Packet): nat {
    if s == [] then 0 else InPool(s[1..], pkt) + if s[0] == pkt then 1 else 0
  }

  function InQueue(q: seq<Entry>, pkt: Packet): nat {
    if q == [] then 0 else InQueue(q[1..], pkt) + if q[0].pkt == pkt then 1 else 0
  }

  function DeliveredCount(h: seq<Handled>): nat {
    if h == [] then 0 else DeliveredCount(h[..|h| - 1]) + if h[|h| - 1].delivered then 1 else 0
  }

  function DeliveredBytes(h: seq<Handled>): nat {
    if h == [] then 0 else DeliveredBytes(h[..|h| - 1]) + if h[|h| - 1].delivered then |h[|h| - 1].frame| else 0
  }

  function FrameBytes(s: seq<Skb>): nat {
    if s == [] then 0 else FrameBytes(s[..|s| - 1]) + |s[|s| - 1].frame|
  }

  /** The counters of a device that has handled h and finished sending s. */
  predicate StatsMatch(st: Stats, h: seq<Handled>, s: seq<Skb>) {
    && st.rxPackets == DeliveredCount(h)
    && st.rxBytes == DeliveredBytes(h)
    && st.rxPackets + st.rxDropped == |h|
    && st.txPackets == |s|
    && st.txBytes == FrameBytes(s)
  }

  lemma ReceiveKeepsMatch(d: Dev, frame: seq<byte>, ok: bool, s: seq<Skb>)
    requires StatsMatch(d.stats, d.handled, s)
    ensures StatsMatch(Receive(d, frame, ok).stats, Receive(d, frame, ok).handled, s)
  {
    assert (d.handled + [Handled(frame, ok)])[..|d.handled|] == d.handled;
  }

  lemma FinishKeepsMatch(d: Dev, s: seq<Skb>, x: Skb)
    requires StatsMatch(d.stats, d.handled, s) && d.txLen == |x.frame|
    ensures StatsMatch(FinishSend(d).stats, FinishSend(d).handled, s + [x])
  {
    AppendSkb(s, x);
  }

  lemma AppendSkb(s: seq<Skb>, x: Skb)
    ensures FrameBytes(s + [x]) == FrameBytes(s) + |x.frame|
  {
    assert (s + [x])[..|s|] == s;
  }

  lemma PushEntry(q: seq<Entry>, e: Entry, pkt: Packet)
    ensures InQueue([e] + q, pkt) == InQueue(q, pkt) + if e.pkt == pkt then 1 else 0
  {
    assert ([e] + q)[1..] == q;
  }

  lemma PushPool(s: seq<Packet>, x: Packet, pkt: Packet)
    ensures InPool([x] + s, pkt) == InPool(s, pkt) + if x == pkt then 1 else 0
  {
    assert ([x] + s)[1..] == s;
  }

  lemma {:induction false} InPoolCounts(s: seq<Packet>, pkt: Packet)
    ensures InPool(s, pkt) == multiset(s)[pkt]
  {
    if s == [] {
    } else {
      InPoolCounts(s[1..], pkt);
      assert s == [s[0]] + s[1..];
    }
  }
}
