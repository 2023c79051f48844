/** What every step of the two transmitters keeps when no lockup is simulated, and what
    follows for whole runs. */
module SnullRegularProof {
  import opened Common
  import opened SnullTypes
  import opened SnullRegular

  function Current(pc: Pc): Option<Skb> {
    match pc
    case Idle => None
    case OwnServed(_) => None
    case _ => Some(pc.cur)
  }

  /** The current frame has not been handled by the twin. */
  predicate AwaitsTwin(p: Pair) {
    p.me.pc.Loaded? || p.me.pc.Taken? || p.me.pc.Queued? || (p.me.pc.Raised? && p.twin.dev.rxPending)
  }

  /** The current skb has not been freed. */
  predicate AwaitsFree(x: Side) {
    Current(x.pc).Some? && (x.pc.TxRaised? ==> x.dev.txPending)
  }

  /** Every packet is where its dev field allows it: in its owner's pool, on the twin's queue,
      or in a hand. */
  predicate OwnersInv(p: Pair) {
    && (forall k :: 0 <= k < |p.me.dev.pool| ==> p.me.dev.pool[k].dev == p.me.id)
    && (forall k :: 0 <= k < |p.twin.dev.rxq| ==> p.twin.dev.rxq[k].pkt.dev == p.me.id)
    && (p.me.pc.Taken? || p.me.pc.TwinServed? ==> p.me.pc.hand.dev == p.me.id)
    && (p.me.pc.OwnServed? ==> p.me.pc.hand.dev == p.twin.id)
  }

  /** The twin's receive queue: at most the one packet pushed and popped by nobody yet. */
  predicate QueueInv(p: Pair) {
    var d := p.twin.dev;
    if p.me.pc.Queued? || (p.me.pc.Raised? && d.rxPending) then
      |d.rxq| == 1 && d.rxq[0].frame == p.me.pc.cur.frame && d.rxPending == p.me.pc.Raised?
    else
      d.rxq == [] && !d.rxPending
  }

  predicate FlagInv(x: Side) {
    && x.dev.rxInt
    && (x.dev.running <==> x.dev.pool != [])
    && (x.pc.Loaded? ==> x.dev.pool != [])
    && (x.dev.txPending ==> x.pc.TxRaised? && x.dev.txLen == |x.pc.cur.frame|)
  }

  predicate RxHistory(p: Pair) {
    && |p.me.sent| == |p.twin.dev.handled| + (if AwaitsTwin(p) then 1 else 0)
    && forall k :: 0 <= k < |p.twin.dev.handled| ==> p.twin.dev.handled[k].frame == p.me.sent[k].frame
  }

  predicate TxHistory(x: Side) {
    && (Current(x.pc).Some? ==> x.sent != [] && x.dev.skb == Current(x.pc) == Some(x.sent[|x.sent| - 1]))
    && |x.sent| == |x.dev.freed| + (if AwaitsFree(x) then 1 else 0)
    && forall k :: 0 <= k < |x.dev.freed| ==> x.dev.freed[k] == Some(x.sent[k])
  }

  predicate StatsInv(x: Side) {
    && |x.dev.freed| <= |x.sent|
    && StatsMatch(x.dev.stats, x.dev.handled, x.sent[..|x.dev.freed|])
    && x.dev.stats.txErrors == 0
  }

  function Swap(p: Pair): Pair {
    Pair(p.twin, p.me)
  }

  predicate Places(p: Pair) {
    p.me.id != p.twin.id && OwnersInv(p) && OwnersInv(Swap(p))
  }

  predicate Protocol(p: Pair) {
    QueueInv(p) && QueueInv(Swap(p)) && FlagInv(p.me) && FlagInv(p.twin)
  }

  predicate Histories(p: Pair) {
    RxHistory(p) && RxHistory(Swap(p)) && TxHistory(p.me) && TxHistory(p.twin)
  }

  predicate Totals(p: Pair) {
    StatsInv(p.me) && StatsInv(p.twin)
  }

  predicate Inv(p: Pair) {
    Places(p) && Protocol(p) && Histories(p) && Totals(p)
  }

  // ---------------------------------------------------------------- one step at a time

  lemma BeginKeepsProtocol(p: Pair, skb: Skb)
    requires Protocol(p) && Histories(p) && p.me.pc.Idle? && p.me.dev.running
    ensures Protocol(Begin(p, skb)) && Histories(Begin(p, skb))
  {
  }

  lemma TakeKeepsProtocol(p: Pair)
    requires Protocol(p) && Histories(p) && p.me.pc.Loaded?
    ensures Protocol(Take(p)) && Histories(Take(p))
  {
  }

  lemma PushKeepsProtocol(p: Pair)
    requires Protocol(p) && Histories(p) && p.me.pc.Taken?
    ensures Protocol(Push(p)) && Histories(Push(p))
  {
  }

  lemma RaiseRxKeepsProtocol(p: Pair)
    requires Protocol(p) && Histories(p) && p.me.pc.Queued?
    ensures Protocol(RaiseRx(p)) && Histories(RaiseRx(p))
  {
  }

  lemma TwinReleaseKeepsProtocol(p: Pair)
    requires Places(p) && Protocol(p) && Histories(p) && p.me.pc.TwinServed?
    ensures Protocol(TwinRelease(p)) && Histories(TwinRelease(p))
  {
  }

  lemma RaiseTxKeepsProtocol(p: Pair)
    requires Protocol(p) && Histories(p) && p.me.pc.Looped?
    ensures Protocol(RaiseTx(p, 0)) && Histories(RaiseTx(p, 0))
  {
  }

  lemma OwnReleaseKeepsProtocol(p: Pair)
    requires Places(p) && Protocol(p) && Histories(p) && p.me.pc.OwnServed?
    ensures Protocol(OwnRelease(p)) && Histories(OwnRelease(p))
  {
  }

  lemma TwinInterruptKeepsFlags(p: Pair, ok: bool)
    requires Protocol(p) && p.me.pc.Raised?
    ensures Protocol(TwinInterrupt(p, ok))
  {
  }

  lemma TwinInterruptKeepsRx(p: Pair, ok: bool)
    requires Protocol(p) && Histories(p) && p.me.pc.Raised?
    ensures RxHistory(TwinInterrupt(p, ok))
  {
  }

  lemma TwinInterruptKeepsHistories(p: Pair, ok: bool)
    requires Protocol(p) && Histories(p) && p.me.pc.Raised?
    ensures Histories(TwinInterrupt(p, ok))
  {
    TwinInterruptKeepsRx(p, ok);
  }

  lemma OwnInterruptKeepsFlags(p: Pair, ok: bool)
    requires Protocol(p) && p.me.pc.TxRaised?
    ensures Protocol(OwnInterrupt(p, ok))
  {
  }

  lemma OwnInterruptKeepsRx(p: Pair, ok: bool)
    requires Protocol(p) && Histories(p) && p.me.pc.TxRaised?
    ensures RxHistory(OwnInterrupt(p, ok)) && RxHistory(Swap(OwnInterrupt(p, ok)))
  {
  }

  lemma OwnInterruptKeepsHistories(p: Pair, ok: bool)
    requires Protocol(p) && Histories(p) && p.me.pc.TxRaised?
    ensures Histories(OwnInterrupt(p, ok))
  {
    OwnInterruptKeepsRx(p, ok);
  }

  /** The counters follow the traces through an interrupt, whichever bits it consumes. */
  lemma InterruptKeepsStats(x: Side, y: Side, ok: bool)
    requires TxHistory(x) && FlagInv(x) && StatsInv(x)
    requires y.sent == x.sent && y.dev == Interrupt(x.dev, ok).0
    ensures StatsInv(y)
  {
    var done := x.sent[..|x.dev.freed|];
    var clear := x.dev.(rxPending := false, txPending := false);
    var received := clear;
    if x.dev.rxPending && x.dev.rxq != [] {
      received := Receive(DequeueBuf(clear), x.dev.rxq[0].frame, ok);
      ReceiveKeepsMatch(DequeueBuf(clear), x.dev.rxq[0].frame, ok, done);
    }
    if x.dev.txPending {
      FinishKeepsMatch(received, done, x.pc.cur);
      assert y.sent[..|y.dev.freed|] == done + [x.pc.cur];
    }
  }

  lemma BeginKeepsTotals(p: Pair, skb: Skb)
    requires Totals(p)
    ensures Totals(Begin(p, skb))
  {
    assert (p.me.sent + [skb])[..|p.me.dev.freed|] == p.me.sent[..|p.me.dev.freed|];
  }

  // ---------------------------------------------------------------- any step, any run

  lemma TakeKeepsPlaces(p: Pair)
    requires Places(p) && p.me.pc.Loaded? && p.me.dev.pool != []
    ensures Places(Take(p))
  {
  }

  lemma PushKeepsPlaces(p: Pair)
    requires Places(p) && p.me.pc.Taken?
    ensures Places(Push(p))
  {
  }

  lemma TwinInterruptKeepsPlaces(p: Pair, ok: bool)
    requires Places(p) && p.me.pc.Raised?
    ensures Places(TwinInterrupt(p, ok))
  {
  }

  lemma OwnInterruptKeepsPlaces(p: Pair, ok: bool)
    requires Places(p) && p.me.pc.TxRaised?
    ensures Places(OwnInterrupt(p, ok))
  {
  }

  lemma TwinReleaseKeepsPlaces(p: Pair)
    requires Places(p) && p.me.pc.TwinServed?
    ensures Places(TwinRelease(p))
  {
  }

  lemma OwnReleaseKeepsPlaces(p: Pair)
    requires Places(p) && p.me.pc.OwnServed?
    ensures Places(OwnRelease(p))
  {
  }

  lemma MoveKeepsPlaces(p: Pair, lockup: nat, ok: bool)
    requires Places(p) && !p.me.pc.Idle? && (p.me.pc.Loaded? ==> p.me.dev.pool != [])
    ensures Places(Move(p, lockup, ok))
  {
    match p.me.pc
    case Loaded(_) => TakeKeepsPlaces(p);
    case Taken(_, _) => PushKeepsPlaces(p);
    case Raised(_) => TwinInterruptKeepsPlaces(p, ok);
    case TwinServed(_, _) => TwinReleaseKeepsPlaces(p);
    case TxRaised(_) => OwnInterruptKeepsPlaces(p, ok);
    case OwnServed(_) => OwnReleaseKeepsPlaces(p);
    case _ =>
  }

  lemma MoveKeepsProtocol(p: Pair, ok: bool)
    requires Inv(p) && !p.me.pc.Idle?
    ensures Protocol(Move(p, 0, ok)) && Histories(Move(p, 0, ok))
  {
    match p.me.pc
    case Loaded(_) => TakeKeepsProtocol(p);
    case Taken(_, _) => PushKeepsProtocol(p);
    case Queued(_) => RaiseRxKeepsProtocol(p);
    case Raised(_) => TwinInterruptKeepsFlags(p, ok); TwinInterruptKeepsHistories(p, ok);
    case TwinServed(_, _) => TwinReleaseKeepsProtocol(p);
    case Looped(_) => RaiseTxKeepsProtocol(p);
    case TxRaised(_) => OwnInterruptKeepsFlags(p, ok); OwnInterruptKeepsHistories(p, ok);
    case OwnServed(_) => OwnReleaseKeepsProtocol(p);
  }

  lemma MoveKeepsTotals(p: Pair, ok: bool)
    requires Inv(p) && !p.me.pc.Idle?
    ensures Totals(Move(p, 0, ok))
  {
    match p.me.pc
    case Raised(_) => InterruptKeepsStats(p.twin, Move(p, 0, ok).twin, ok);
    case TxRaised(_) => InterruptKeepsStats(p.me, Move(p, 0, ok).me, ok);
    case _ =>
  }

  lemma InvSwap(p: Pair)
    requires Inv(p)
    ensures Inv(Swap(p))
  {
  }

  predicate Good(s: State) {
    s.lockup == 0 && Inv(s.View(0))
  }

  lemma GoodView(s: State, t: Id)
    requires Good(s)
    ensures Inv(s.View(t))
  {
    InvSwap(s.View(0));
  }

  lemma InitIsGood(s: State)
    requires Init(s) && s.lockup == 0
    ensures Good(s)
  {
    forall x: Side, k | x in {s.side0, s.side1} && 0 <= k < |x.dev.pool|
      ensures x.dev.pool[k].dev == x.id
    {
      assert x.dev.pool[k] in multiset(x.owned);
    }
  }

  lemma BeginKeepsInv(p: Pair, skb: Skb)
    requires Inv(p) && p.me.pc.Idle? && p.me.dev.running
    ensures Inv(Begin(p, skb))
  {
    BeginKeepsProtocol(p, skb);
    BeginKeepsTotals(p, skb);
  }

  lemma MoveKeepsInv(p: Pair, ok: bool)
    requires Inv(p) && !p.me.pc.Idle?
    ensures Inv(Move(p, 0, ok))
  {
    MoveKeepsPlaces(p, 0, ok);
    MoveKeepsProtocol(p, ok);
    MoveKeepsTotals(p, ok);
  }

  lemma NextKeepsGood(s: State, e: Event)
    requires Good(s) && Enabled(s, e)
    ensures Good(Next(s, e))
  {
    var p := s.View(e.t);
    var q := Next(s, e).View(e.t);
    InvSwap(s.View(0));
    match e {
      case Start(_, id, data, other) => BeginKeepsInv(p, Load(id, data, other));
      case Step(_, ok) => MoveKeepsInv(p, ok);
      case Timeout(_) =>
    }
    InvSwap(q);
  }

  lemma {:induction false} RunKeepsGood(s: State, run: seq<Event>, s': State)
    requires Good(s) && Reaches(s, run, s')
    ensures Good(s')
    decreases run
  {
    if run == [] {
    } else {
      NextKeepsGood(s, run[0]);
      RunKeepsGood(Next(s, run[0]), run[1..], s');
    }
  }
}
