/** The simulated transmitter lockup, with one device sending: every lockup-th transmission
    stalls the queue until the watchdog forces the missing interrupt. */
module SnullLockup {
  import opened Arithmetic
  import opened Common
  import opened SnullTypes
  import opened SnullRegular
  import opened SnullRegularProof
  import opened SnullRegularTheorems

  /** Stopped with its transmit bit set and nobody to consume it. */
  predicate Stalled(x: Side) {
    x.pc.Idle? && x.dev.txPending
  }

  /** The silent device only receives. */
  predicate Silent(x: Side) {
    x.pc.Idle? && !x.dev.txPending && x.dev.rxInt
  }

  /** The packet in flight, if any, is the only one missing from the sender's pool. */
  predicate SenderFlow(p: Pair) {
    && p.me.dev.rxq == [] && !p.me.dev.rxPending && !p.me.pc.OwnServed?
    && QueueInv(p) && (p.me.pc.Raised? ==> p.twin.dev.rxPending)
    && (p.me.dev.pool != [] || p.me.pc.Taken? || p.me.pc.Queued? || p.me.pc.Raised? || p.me.pc.TwinServed?)
    && (p.me.dev.running <==> p.me.dev.pool != [] && !Stalled(p.me))
  }

  predicate SenderHistory(x: Side) {
    var pending := if Current(x.pc).Some? || Stalled(x) then 1 else 0;
    && |x.sent| == |x.dev.freed| + pending
    && (pending == 1 ==> x.dev.skb == Some(x.sent[|x.dev.freed|]))
    && (Current(x.pc).Some? ==> x.pc.cur == x.sent[|x.dev.freed|])
    && (pending == 1 && x.dev.txPending ==> x.dev.txLen == |x.sent[|x.dev.freed|].frame|)
    && forall k :: 0 <= k < |x.dev.freed| ==> x.dev.freed[k] == Some(x.sent[k])
  }

  /** Every lockup-th transmission, and no other, ends in a stall and costs one error. */
  predicate SenderCounts(x: Side, lockup: nat)
    requires lockup > 0
  {
    && |x.dev.freed| <= |x.sent|
    && (x.dev.txPending <==> x.pc.TxRaised? || Stalled(x))
    && x.dev.stats.txPackets == |x.dev.freed|
    && x.dev.stats.txBytes == FrameBytes(x.sent[..|x.dev.freed|])
    && x.dev.stats.txErrors == |x.dev.freed| / lockup
    && (x.dev.txPending ==> (Stalled(x) <==> (|x.dev.freed| + 1) % lockup == 0))
  }

  predicate LockInv(p: Pair, lockup: nat) {
    lockup > 0 && Places(p) && Silent(p.twin) && SenderFlow(p) && SenderHistory(p.me) && SenderCounts(p.me, lockup)
  }

  lemma MoveKeepsFlow(p: Pair, lockup: nat, ok: bool)
    requires LockInv(p, lockup) && !p.me.pc.Idle?
    ensures Silent(Move(p, lockup, ok).twin) && SenderFlow(Move(p, lockup, ok))
  {
    hide SenderHistory, SenderCounts;
  }

  lemma MoveKeepsHistory(p: Pair, lockup: nat, ok: bool)
    requires LockInv(p, lockup) && !p.me.pc.Idle?
    ensures SenderHistory(Move(p, lockup, ok).me)
  {
    hide Silent, Places, QueueInv;
  }

  /** Consuming the transmit bit counts and frees the one pending skb. */
  lemma ConsumeCounts(x: Side, ok: bool, lockup: nat)
    requires lockup > 0 && SenderHistory(x) && SenderCounts(x, lockup) && x.dev.rxq == [] && x.dev.txPending
    ensures var served := Interrupt(x.dev, ok).0;
      && served.freed == x.dev.freed + [Some(x.sent[|x.dev.freed|])]
      && served.stats.txPackets == |served.freed|
      && served.stats.txBytes == FrameBytes(x.sent[..|served.freed|])
      && served.stats.txErrors == x.dev.stats.txErrors
      && x.dev.stats.txErrors + (if Stalled(x) then 1 else 0) == |served.freed| / lockup
  {
    var n := |x.dev.freed|;
    NextQuotient(n, lockup);
    assert x.sent[..n + 1] == x.sent[..n] + [x.sent[n]];
    AppendSkb(x.sent[..n], x.sent[n]);
  }

  lemma MoveKeepsCounts(p: Pair, lockup: nat, ok: bool)
    requires LockInv(p, lockup) && !p.me.pc.Idle?
    ensures SenderCounts(Move(p, lockup, ok).me, lockup)
  {
    if p.me.pc.TxRaised? {
      ConsumeCounts(p.me, ok, lockup);
    }
  }

  lemma RecoverKeepsInv(p: Pair, lockup: nat)
    requires LockInv(p, lockup) && p.me.pc.Idle? && !p.me.dev.running
    ensures LockInv(Recover(p), lockup) && !Stalled(Recover(p).me)
  {
    ConsumeCounts(p.me, true, lockup);
  }

  lemma BeginKeepsLockInv(p: Pair, lockup: nat, skb: Skb)
    requires LockInv(p, lockup) && p.me.pc.Idle? && p.me.dev.running
    ensures LockInv(Begin(p, skb), lockup)
  {
    assert (p.me.sent + [skb])[..|p.me.dev.freed|] == p.me.sent[..|p.me.dev.freed|];
  }

  lemma StepKeepsLockInv(s: State, e: Event)
    requires LockInv(s.View(e.t), s.lockup) && Enabled(s, e)
    ensures LockInv(Next(s, e).View(e.t), s.lockup)
  {
    var p := s.View(e.t);
    match e
    case Start(_, id, data, other) => BeginKeepsLockInv(p, s.lockup, Load(id, data, other));
    case Timeout(_) => RecoverKeepsInv(p, s.lockup);
    case Step(_, ok) =>
      MoveKeepsPlaces(p, s.lockup, ok);
      MoveKeepsFlow(p, s.lockup, ok);
      MoveKeepsHistory(p, s.lockup, ok);
      MoveKeepsCounts(p, s.lockup, ok);
  }

  lemma {:induction false} RunKeepsLockInv(s: State, run: seq<Event>, s': State, t: Id)
    requires LockInv(s.View(t), s.lockup) && Reaches(s, run, s')
    requires forall e :: e in run ==> e.t == t
    ensures LockInv(s'.View(t), s'.lockup) && s'.lockup == s.lockup
    decreases run
  {
    if run == [] {
    } else {
      StepKeepsLockInv(s, run[0]);
      RunKeepsLockInv(Next(s, run[0]), run[1..], s', t);
    }
  }

  lemma InitLockInv(s: State, t: Id)
    requires Init(s) && s.lockup > 0
    ensures LockInv(s.View(t), s.lockup)
  {
    InitPlaces(s);
  }

  /** One device sending: whenever its queue runs again, every transmission so far is counted
      once and freed once, and the errors are one in lockup; while it is stalled exactly the last
      one is missing. */
  lemma LockupAccounting(s0: State, run: seq<Event>, s: State, t: Id)
    requires Init(s0) && s0.lockup > 0 && Reaches(s0, run, s)
    requires forall e :: e in run ==> e.t == t
    requires s.View(t).me.pc.Idle?
    ensures var asked, me, lockup := Requests(run, t), s.View(t).me, s0.lockup;
      && me.dev.stats.txPackets == |me.dev.freed| == |asked| - (if me.dev.running then 0 else 1)
      && (forall k :: 0 <= k < |me.dev.freed| ==> me.dev.freed[k] == Some(asked[k]))
      && me.dev.stats.txErrors == me.dev.stats.txPackets / lockup
      && (!me.dev.running ==> |asked| % lockup == 0)
  {
    assert s.View(t).me.sent == Requests(run, t) by { SentIsRequests(s0, run, s, t); }
    assert LockInv(s.View(t), s0.lockup) by {
      InitLockInv(s0, t);
      RunKeepsLockInv(s0, run, s, t);
    }
  }
}
