/** snull with one interrupt per packet: the two transmitters as a state machine whose steps
    are the locked sections, interleaved in any order. */
module SnullRegular {
  import opened IpHeader
  import opened Common
  import opened SnullTypes

  /** Where a transmitter stands. Each constructor names what has just been done. */
  datatype Pc =
    | Idle
    | Loaded(cur: Skb)                      // skb remembered, header rewritten
    | Taken(hand: Packet, cur: Skb)         // buffer taken from the own pool
    | Queued(cur: Skb)                      // packet pushed on the twin's receive queue
    | Raised(cur: Skb)                      // receive bit set at the twin
    | TwinServed(hand: Packet, cur: Skb)    // twin's interrupt popped a packet, not yet released
    | Looped(cur: Skb)                      // nothing left to do at the twin
    | TxRaised(cur: Skb)                    // transmit bit set at the sender
    | OwnServed(hand: Packet)               // own interrupt popped a packet, not yet released

  /** One device and its transmitter, with the socket buffers it was given so far and the
      packets allocated for it. */
  datatype Side = Side(id: Id, dev: Dev, pc: Pc, sent: seq<Skb>, owned: set<Packet>)

  /** Both devices, seen from the transmitter that moves. */
  datatype Pair = Pair(me: Side, twin: Side)

  datatype State = State(lockup: nat, side0: Side, side1: Side) {
    function View(t: Id): Pair {
      if t == 0 then Pair(side0, side1) else Pair(side1, side0)
    }

    function Put(t: Id, p: Pair): State {
      if t == 0 then State(lockup, p.me, p.twin) else State(lockup, p.twin, p.me)
    }
  }

  datatype Event =
    | Start(t: Id, id: nat, data: seq<byte>, other: Sum)  // the kernel calls the transmit routine
    | Step(t: Id, ok: bool)                   // transmitter t goes on; ok: an skb can be allocated
    | Timeout(t: Id)                          // the watchdog finds the queue stopped

  // ---------------------------------------------------------------- the locked sections

  /** The locked part of the interrupt handler: consume the whole status word. */
  function Interrupt(d: Dev, ok: bool): (Dev, Option<Packet>) {
    var clear := d.(rxPending := false, txPending := false);
    var take := d.rxPending && d.rxq != [];
    var received := if take then Receive(DequeueBuf(clear), d.rxq[0].frame, ok) else clear;
    (if d.txPending then FinishSend(received) else received,
     if take then Some(d.rxq[0].pkt) else None)
  }

  /** Give a packet back to the device its dev field names. */
  function Release(p: Pair, pkt: Packet): Pair {
    if pkt.dev == p.me.id then
      p.(me := p.me.(dev := ReleaseBuffer(p.me.dev, pkt)))
    else
      p.(twin := p.twin.(dev := ReleaseBuffer(p.twin.dev, pkt)))
  }

  // ---------------------------------------------------------------- the steps of a transmission

  function Begin(p: Pair, skb: Skb): Pair {
    p.(me := p.me.(dev := p.me.dev.(skb := Some(skb)), sent := p.me.sent + [skb], pc := Loaded(skb)))
  }

  function Take(p: Pair): Pair
    requires p.me.pc.Loaded? && p.me.dev.pool != []
  {
    p.(me := p.me.(dev := TakeBuffer(p.me.dev), pc := Taken(p.me.dev.pool[0], p.me.pc.cur)))
  }

  function Push(p: Pair): Pair
    requires p.me.pc.Taken?
  {
    var Taken(pkt, skb) := p.me.pc;
    Pair(p.me.(pc := Queued(skb)), p.twin.(dev := EnqueueBuf(p.twin.dev, Entry(pkt, skb.frame))))
  }

  function RaiseRx(p: Pair): Pair
    requires p.me.pc.Queued?
  {
    if p.twin.dev.rxInt then
      Pair(p.me.(pc := Raised(p.me.pc.cur)), p.twin.(dev := p.twin.dev.(rxPending := true)))
    else
      p.(me := p.me.(pc := Looped(p.me.pc.cur)))
  }

  function TwinInterrupt(p: Pair, ok: bool): Pair
    requires p.me.pc.Raised?
  {
    var (served, hand) := Interrupt(p.twin.dev, ok);
    var skb := p.me.pc.cur;
    Pair(p.me.(pc := if hand.Some? then TwinServed(hand.value, skb) else Looped(skb)), p.twin.(dev := served))
  }

  function TwinRelease(p: Pair): Pair
    requires p.me.pc.TwinServed?
  {
    var q := Release(p, p.me.pc.hand);
    q.(me := q.me.(pc := Looped(p.me.pc.cur)))
  }

  /** The simulated lockup hits every lockup-th transmission. */
  predicate Stalls(lockup: nat, txPackets: nat) {
    lockup > 0 && (txPackets + 1) % lockup == 0
  }

  /** The sender's turn: unless a lockup is due, its own interrupt follows. */
  function RaiseTx(p: Pair, lockup: nat): Pair
    requires p.me.pc.Looped?
  {
    var d := p.me.dev.(txLen := |p.me.pc.cur.frame|, txPending := true);
    if Stalls(lockup, p.me.dev.stats.txPackets) then
      p.(me := p.me.(dev := d.(running := false), pc := Idle))
    else
      p.(me := p.me.(dev := d, pc := TxRaised(p.me.pc.cur)))
  }

  function OwnInterrupt(p: Pair, ok: bool): Pair
    requires p.me.pc.TxRaised?
  {
    var (served, hand) := Interrupt(p.me.dev, ok);
    p.(me := p.me.(dev := served, pc := if hand.Some? then OwnServed(hand.value) else Idle))
  }

  function OwnRelease(p: Pair): Pair
    requires p.me.pc.OwnServed?
  {
    var q := Release(p, p.me.pc.hand);
    q.(me := q.me.(pc := Idle))
  }

  /** The watchdog forces the missing transmit interrupt, counts an error and restarts the queue. */
  function RecoverDev(d: Dev): Dev {
    var served := Interrupt(d.(rxPending := false, txPending := true), true).0;
    served.(stats := served.stats.(txErrors := served.stats.txErrors + 1), running := true)
  }

  function Recover(p: Pair): Pair {
    p.(me := p.me.(dev := RecoverDev(p.me.dev)))
  }

  // ---------------------------------------------------------------- the machine

  predicate Enabled(s: State, e: Event) {
    var me := s.View(e.t).me;
    match e
    case Start(_, _, data, _) => me.pc.Idle? && me.dev.running && Transmittable(data)
    case Step(_, _) => !me.pc.Idle? && (me.pc.Loaded? ==> me.dev.pool != [])
    case Timeout(_) => s.lockup > 0 && me.pc.Idle? && !me.dev.running
  }

  function Move(p: Pair, lockup: nat, ok: bool): Pair
    requires !p.me.pc.Idle? && (p.me.pc.Loaded? ==> p.me.dev.pool != [])
  {
    match p.me.pc
    case Loaded(_) => Take(p)
    case Taken(_, _) => Push(p)
    case Queued(_) => RaiseRx(p)
    case Raised(_) => TwinInterrupt(p, ok)
    case TwinServed(_, _) => TwinRelease(p)
    case Looped(_) => RaiseTx(p, lockup)
    case TxRaised(_) => OwnInterrupt(p, ok)
    case OwnServed(_) => OwnRelease(p)
  }

  function Next(s: State, e: Event): State
    requires Enabled(s, e)
  {
    var p := s.View(e.t);
    s.Put(e.t,
      match e
      case Start(_, id, data, other) => Begin(p, Load(id, data, other))
      case Step(_, ok) => Move(p, s.lockup, ok)
      case Timeout(_) => Recover(p))
  }

  predicate Fresh(x: Side) {
    && x.dev == Opened(x.dev.pool) && x.dev.pool != []
    && x.pc == Idle && x.sent == []
    && multiset(x.dev.pool) == multiset(x.owned)
    && forall p :: p in x.owned ==> p.dev == x.id
  }

  /** Both devices open, each with a non-empty pool of distinct packets of its own. */
  predicate Init(s: State) {
    s.side0.id == 0 && s.side1.id == 1 && Fresh(s.side0) && Fresh(s.side1)
  }

  /** s' is reached from s by the events of run, each enabled when its turn comes. */
  predicate Reaches(s: State, run: seq<Event>, s': State)
    decreases run
  {
    if run == [] then s == s' else Enabled(s, run[0]) && Reaches(Next(s, run[0]), run[1..], s')
  }
}
