/** Packets in polling mode: each stays in its owner's pool or on the twin's queue. */
module SnullNapiPackets {
  import opened SnullTypes
  import opened SnullRegular
  import opened SnullRegularProof
  import opened SnullRegularTheorems
  import opened SnullNapi
  import opened SnullNapiTheorems

  lemma TransmitKeepsOwnAccount(p: NPair, skb: Skb, pkt: Packet)
    requires p.me.base.pc.Idle? && p.twin.base.pc.Idle?
    ensures Account(Transmit(p, skb).Base(), pkt) == Account(p.Base(), pkt)
  {
    if p.me.base.dev.pool != [] {
      PushEntry(p.twin.base.dev.rxq, Entry(p.me.base.dev.pool[0], skb.frame), pkt);
    }
  }

  lemma TransmitKeepsTwinAccount(p: NPair, skb: Skb, pkt: Packet)
    requires p.me.base.pc.Idle? && p.twin.base.pc.Idle?
    ensures Account(Swap(Transmit(p, skb).Base()), pkt) == Account(Swap(p.Base()), pkt)
  {
    var q := Transmit(p, skb);
    assert q.twin.base.dev.pool == p.twin.base.dev.pool && q.twin.base.pc.Idle?;
    assert q.me.base.dev.rxq == p.me.base.dev.rxq && q.me.base.pc.Idle?;
  }

  lemma PollOneKeepsAccounts(p: NPair, ok: bool, pkt: Packet)
    requires Places(p.Base()) && p.me.base.dev.rxq != []
    ensures Account(PollOne(p, ok).Base(), pkt) == Account(p.Base(), pkt)
    ensures Account(Swap(PollOne(p, ok).Base()), pkt) == Account(Swap(p.Base()), pkt)
  {
    PollOneEffect(p, ok);
    PushPool(p.twin.base.dev.pool, p.me.base.dev.rxq[0].pkt, pkt);
  }

  lemma {:induction false} PollLoopKeepsAccounts(p: NPair, n: nat, budget: nat, fails: set<nat>, pkt: Packet)
    requires Places(p.Base())
    ensures var q := PollLoop(p, n, budget, fails).0;
      && Account(q.Base(), pkt) == Account(p.Base(), pkt)
      && Account(Swap(q.Base()), pkt) == Account(Swap(p.Base()), pkt)
    decreases budget - n
  {
    if n >= budget || p.me.base.dev.rxq == [] {
    } else {
      PollOneEffect(p, n !in fails);
      PollOneKeepsAccounts(p, n !in fails, pkt);
      PollLoopKeepsAccounts(PollOne(p, n !in fails), n + 1, budget, fails, pkt);
    }
  }

  lemma NNextKeepsAccounts(s: NState, e: NEvent, t: Id, pkt: Packet)
    requires NInv(s.View(0)) && NEnabled(s, e)
    ensures Account(NNext(s, e).View(t).Base(), pkt) == Account(s.View(t).Base(), pkt)
  {
    var p := s.View(e.t);
    ViewPut(s, e.t, t, NNext(s, e).View(e.t));
    match e
    case Send(_, id, data, other) =>
      TransmitKeepsOwnAccount(p, Load(id, data, other), pkt);
      TransmitKeepsTwinAccount(p, Load(id, data, other), pkt);
    case DoPoll(_, budget, fails) => PollLoopKeepsAccounts(p, 0, budget, fails, pkt);
  }

  lemma {:induction false} NRunKeepsAccounts(s: NState, run: seq<NEvent>, s': NState, t: Id, pkt: Packet)
    requires NInv(s.View(0)) && NReaches(s, run, s')
    ensures Account(s'.View(t).Base(), pkt) == Account(s.View(t).Base(), pkt)
    decreases run
  {
    if run == [] {
    } else {
      NNextKeepsInv(s, run[0]);
      NNextKeepsAccounts(s, run[0], t, pkt);
      NRunKeepsAccounts(NNext(s, run[0]), run[1..], s', t, pkt);
    }
  }

  lemma NInitAccount(s: NState, t: Id, pkt: Packet)
    requires NInit(s)
    ensures Account(s.View(t).Base(), pkt) == multiset(s.View(t).me.base.owned)[pkt]
  {
    InitAccount(State(0, s.side0.base, s.side1.base), t, pkt);
  }

  lemma NAccountIsOwnership(s0: NState, run: seq<NEvent>, s: NState, t: Id, pkt: Packet)
    requires NInit(s0) && NReaches(s0, run, s)
    ensures Account(s.View(t).Base(), pkt) == multiset(s0.View(t).me.base.owned)[pkt]
  {
    hide Account, NInv;
    NInitAccount(s0, t, pkt);
    NInitInv(s0);
    NRunKeepsAccounts(s0, run, s, t, pkt);
  }

  lemma IdleHands(s0: NState, run: seq<NEvent>, s: NState, t: Id)
    requires NInit(s0) && NReaches(s0, run, s)
    ensures Hands(s.View(t).Base()) == multiset{}
  {
    NRunInv(s0, run, s, t);
  }

  /** In every reachable state a device's packets are split, without loss or duplicates, between
      its pool and the twin's receive queue. */
  lemma NPacketsArePartitioned(s0: NState, run: seq<NEvent>, s: NState, t: Id)
    requires NInit(s0) && NReaches(s0, run, s)
    ensures var p := s.View(t).Base();
      multiset(p.me.dev.pool) + multiset(QueuePackets(p.twin.dev.rxq)) == multiset(s0.View(t).me.base.owned)
  {
    var p := s.View(t).Base();
    var now := multiset(p.me.dev.pool) + multiset(QueuePackets(p.twin.dev.rxq));
    IdleHands(s0, run, s, t);
    forall pkt: Packet
      ensures now[pkt] == multiset(s0.View(t).me.base.owned)[pkt]
    {
      hide *;
      AccountIsCount(p, pkt);
      NAccountIsOwnership(s0, run, s, t, pkt);
    }
  }

  /** What the lists on the heap rely on. */
  predicate Structure(p: NPair) {
    && p.me.base.pc.Idle? && p.twin.base.pc.Idle?
    && Places(p.Base()) && Unique(p.Base()) && Unique(Swap(p.Base()))
  }

  lemma PollOneKeepsStructure(p: NPair, ok: bool)
    requires Structure(p) && p.me.base.dev.rxq != []
    ensures Structure(PollOne(p, ok))
  {
    PollOneEffect(p, ok);
    var q := PollOne(p, ok);
    forall pkt
      ensures Account(q.Base(), pkt) == Account(p.Base(), pkt)
      ensures Account(Swap(q.Base()), pkt) == Account(Swap(p.Base()), pkt)
    {
      PollOneKeepsAccounts(p, ok, pkt);
    }
    SameAccountsKeepUnique(p.Base(), q.Base());
    SameAccountsKeepUnique(Swap(p.Base()), Swap(q.Base()));
  }

  lemma NotifyKeepsLists(x: NSide, len: nat)
    ensures var y := NotifySelf(x, len).base;
      y.id == x.base.id && y.pc == x.base.pc && y.dev.pool == x.base.dev.pool && y.dev.rxq == x.base.dev.rxq
    ensures var y := NotifyTwin(x).base;
      y.id == x.base.id && y.pc == x.base.pc && y.dev.pool == x.base.dev.pool && y.dev.rxq == x.base.dev.rxq
  {
  }

  lemma PushedPlaces(p: NPair, skb: Skb)
    requires Structure(p) && p.me.base.dev.pool != []
    ensures Places(Pushed(p, skb).Base())
    ensures Pushed(p, skb).me.base.pc.Idle? && Pushed(p, skb).twin.base.pc.Idle?
  {
    hide Unique;
  }

  lemma TransmitPlaces(p: NPair, skb: Skb)
    requires Structure(p)
    ensures Places(Transmit(p, skb).Base())
    ensures Transmit(p, skb).me.base.pc.Idle? && Transmit(p, skb).twin.base.pc.Idle?
  {
    hide Unique;
    if p.me.base.dev.pool != [] {
      PushedPlaces(p, skb);
      hide Pushed, NotifySelf, NotifyTwin;
      NotifyKeepsLists(Pushed(p, skb).me, |skb.frame|);
      NotifyKeepsLists(Pushed(p, skb).twin, 0);
    }
  }

  lemma TransmitKeepsStructure(p: NPair, skb: Skb)
    requires Structure(p)
    ensures Structure(Transmit(p, skb))
  {
    var q := Transmit(p, skb);
    TransmitPlaces(p, skb);
    forall pkt
      ensures Account(q.Base(), pkt) == Account(p.Base(), pkt)
      ensures Account(Swap(q.Base()), pkt) == Account(Swap(p.Base()), pkt)
    {
      TransmitKeepsOwnAccount(p, skb, pkt);
      TransmitKeepsTwinAccount(p, skb, pkt);
    }
    SameAccountsKeepUnique(p.Base(), q.Base());
    SameAccountsKeepUnique(Swap(p.Base()), Swap(q.Base()));
  }
}
