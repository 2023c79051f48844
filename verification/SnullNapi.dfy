/** snull in polling mode: a receive interrupt only schedules a poll, which then drains the
    queue within a budget. A transmission and a poll are each one step. */
module SnullNapi {
  import opened IpHeader
  import opened Common
  import opened SnullTypes
  import opened SnullRegular
  import opened SnullRegularProof

  /** A device, whether a poll is scheduled for it, and whether its lock was left held. */
  datatype NSide = NSide(base: Side, scheduled: bool, lockHeld: bool)

  datatype NPair = NPair(me: NSide, twin: NSide) {
    function Base(): Pair {
      Pair(me.base, twin.base)
    }
  }

  function NSwap(p: NPair): NPair {
    NPair(p.twin, p.me)
  }

  /** The interrupt handler: a receive bit disables receive interrupts and schedules a poll. */
  function NapiInterrupt(x: NSide): NSide {
    var d := x.base.dev.(rxPending := false, txPending := false);
    var noticed := if x.base.dev.rxPending then d.(rxInt := false) else d;
    var done := if x.base.dev.txPending then FinishOnce(noticed) else noticed;
    x.(base := x.base.(dev := done), scheduled := x.scheduled || x.base.dev.rxPending)
  }

  /** The packet is on the twin's queue; interrupt the twin if it listens. */
  function NotifyTwin(x: NSide): NSide {
    if x.base.dev.rxInt then
      NapiInterrupt(x.(base := x.base.(dev := x.base.dev.(rxPending := true))))
    else
      x
  }

  function NotifySelf(x: NSide, len: nat): NSide {
    NapiInterrupt(x.(base := x.base.(dev := x.base.dev.(txLen := len, txPending := true))))
  }

  /** A transmission up to the point where the packet lies on the twin's queue. */
  function Pushed(p: NPair, skb: Skb): NPair
    requires p.me.base.dev.pool != []
  {
    var pushed := Push(Take(Begin(p.Base(), skb)));
    NPair(p.me.(base := pushed.me.(pc := Idle)), p.twin.(base := pushed.twin))
  }

  /** A whole transmission. When the pool is empty the routine returns with the lock held. */
  function Transmit(p: NPair, skb: Skb): NPair {
    if p.me.base.dev.pool == [] then
      p.(me := p.me.(base := Begin(p.Base(), skb).me.(pc := Idle), lockHeld := true))
    else
      var q := Pushed(p, skb);
      NPair(NotifySelf(q.me, |skb.frame|), NotifyTwin(q.twin))
  }

  /** One round of the poll loop. */
  function PollOne(p: NPair, ok: bool): NPair
    requires p.me.base.dev.rxq != []
  {
    var d := p.me.base.dev;
    var taken := p.Base().(me := p.me.base.(dev := Receive(DequeueBuf(d), d.rxq[0].frame, ok)));
    var released := Release(taken, d.rxq[0].pkt);
    NPair(p.me.(base := released.me), p.twin.(base := released.twin))
  }

  /** The poll loop from its n-th round on; round k fails to allocate when k is in fails. */
  function PollLoop(p: NPair, n: nat, budget: nat, fails: set<nat>): (NPair, nat)
    decreases budget - n
  {
    if n < budget && p.me.base.dev.rxq != [] then PollLoop(PollOne(p, n !in fails), n + 1, budget, fails) else (p, n)
  }

  /** The poll is over: with budget left, stop polling and listen for interrupts again. */
  function Complete(x: NSide): NSide {
    x.(base := x.base.(dev := x.base.dev.(rxInt := true)), scheduled := false)
  }

  function Poll(p: NPair, budget: nat, fails: set<nat>): NPair {
    var (q, n) := PollLoop(p, 0, budget, fails);
    if n < budget then q.(me := Complete(q.me)) else q
  }

  // ---------------------------------------------------------------- the machine

  datatype NState = NState(side0: NSide, side1: NSide) {
    function View(t: Id): NPair {
      if t == 0 then NPair(side0, side1) else NPair(side1, side0)
    }

    function Put(t: Id, p: NPair): NState {
      if t == 0 then NState(p.me, p.twin) else NState(p.twin, p.me)
    }
  }

  datatype NEvent =
    | Send(t: Id, id: nat, data: seq<byte>, other: Sum)
    | DoPoll(t: Id, budget: nat, fails: set<nat>)

  predicate NEnabled(s: NState, e: NEvent) {
    var me := s.View(e.t).me;
    match e
    case Send(_, _, data, _) => me.base.dev.running && !me.lockHeld && Transmittable(data)
    case DoPoll(_, budget, _) => me.scheduled && budget > 0
  }

  function NNext(s: NState, e: NEvent): NState
    requires NEnabled(s, e)
  {
    var p := s.View(e.t);
    s.Put(e.t,
      match e
      case Send(_, id, data, other) => Transmit(p, Load(id, data, other))
      case DoPoll(_, budget, fails) => Poll(p, budget, fails))
  }

  predicate NInit(s: NState) {
    && Init(State(0, s.side0.base, s.side1.base))
    && !s.side0.scheduled && !s.side1.scheduled && !s.side0.lockHeld && !s.side1.lockHeld
  }

  predicate NReaches(s: NState, run: seq<NEvent>, s': NState)
    decreases run
  {
    if run == [] then s == s' else NEnabled(s, run[0]) && NReaches(NNext(s, run[0]), run[1..], s')
  }

  // ---------------------------------------------------------------- what every step keeps

  /** Interrupts are off exactly while a poll is scheduled, packets only wait under a poll, and no skb is
      remembered between transmissions. */
  predicate ListenInv(x: NSide) {
    && (x.base.dev.rxInt <==> !x.scheduled)
    && (x.base.dev.rxq != [] ==> x.scheduled)
    && !x.base.dev.rxPending && !x.base.dev.txPending
    && x.base.pc == Idle && !x.lockHeld && x.base.dev.skb == None
  }

  /** The transmit queue runs exactly while the pool can serve it. */
  predicate PoolInv(x: NSide) {
    x.base.dev.running <==> x.base.dev.pool != []
  }

  predicate SentInv(x: NSide) {
    && |x.base.dev.freed| == |x.base.sent|
    && (forall k :: 0 <= k < |x.base.sent| ==> x.base.dev.freed[k] == Some(x.base.sent[k]))
    && StatsMatch(x.base.dev.stats, x.base.dev.handled, x.base.sent)
  }

  predicate BalanceInv(p: NPair) {
    |p.twin.base.dev.handled| + |p.twin.base.dev.rxq| == |p.me.base.sent|
  }

  predicate LongFrames(x: NSide) {
    && (forall k :: 0 <= k < |x.base.dev.rxq| ==> |x.base.dev.rxq[k].frame| >= ETH_ZLEN)
    && (forall k :: 0 <= k < |x.base.dev.handled| ==> |x.base.dev.handled[k].frame| >= ETH_ZLEN)
  }

  predicate NInv(p: NPair) {
    && Places(p.Base())
    && ListenInv(p.me) && ListenInv(p.twin)
    && PoolInv(p.me) && PoolInv(p.twin)
    && SentInv(p.me) && SentInv(p.twin)
    && BalanceInv(p) && BalanceInv(NSwap(p))
    && LongFrames(p.me) && LongFrames(p.twin)
  }

  /** What a transmission amounts to: the pool's head, carrying the frame, moves to the top of the
      twin's queue, the twin is left polling, and the skb is counted and freed. */
  lemma TransmitEffect(p: NPair, skb: Skb)
    requires ListenInv(p.me) && ListenInv(p.twin) && p.me.base.dev.pool != []
    ensures var q, d, e := Transmit(p, skb), p.me.base.dev, p.twin.base.dev;
      && q.me == p.me.(base := p.me.base.(sent := p.me.base.sent + [skb],
           dev := FinishSend(TakeBuffer(d).(skb := Some(skb), txLen := |skb.frame|)).(skb := None)))
      && q.twin == p.twin.(scheduled := true, base := p.twin.base.(
           dev := EnqueueBuf(e, Entry(d.pool[0], skb.frame)).(rxInt := false)))
  {
  }

  lemma TransmitKeepsInv(p: NPair, skb: Skb)
    requires NInv(p) && p.me.base.dev.running && |skb.frame| >= ETH_ZLEN
    ensures NInv(Transmit(p, skb))
  {
    TransmitEffect(p, skb);
    TransmitKeepsSent(p, skb);
    TransmitKeepsPlaces(p, skb);
    hide Transmit, Places, StatsMatch;
  }

  lemma TransmitKeepsPlaces(p: NPair, skb: Skb)
    requires NInv(p) && p.me.base.dev.running
    ensures Places(Transmit(p, skb).Base())
  {
    TransmitEffect(p, skb);
  }

  lemma TransmitKeepsSent(p: NPair, skb: Skb)
    requires NInv(p) && p.me.base.dev.running
    ensures SentInv(Transmit(p, skb).me)
  {
    TransmitEffect(p, skb);
    FinishKeepsMatch(TakeBuffer(p.me.base.dev).(skb := Some(skb), txLen := |skb.frame|), p.me.base.sent, skb);
  }

  lemma PollOneEffect(p: NPair, ok: bool)
    requires Places(p.Base()) && p.me.base.dev.rxq != []
    ensures var q, d := PollOne(p, ok), p.me.base.dev;
      && q.me == p.me.(base := p.me.base.(dev := Receive(DequeueBuf(d), d.rxq[0].frame, ok)))
      && q.twin == p.twin.(base := p.twin.base.(dev := ReleaseBuffer(p.twin.base.dev, d.rxq[0].pkt)))
      && Places(q.Base())
  {
  }

  lemma PollOneKeepsInv(p: NPair, ok: bool)
    requires NInv(p) && p.me.base.dev.rxq != []
    ensures NInv(PollOne(p, ok))
  {
    var d := p.me.base.dev;
    PollOneEffect(p, ok);
    ReceiveKeepsMatch(DequeueBuf(d), d.rxq[0].frame, ok, p.me.base.sent);
    hide PollOne, Places, StatsMatch;
  }
}
