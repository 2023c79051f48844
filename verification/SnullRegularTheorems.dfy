/** What holds after every run of the two interleaved transmitters. */
module SnullRegularTheorems {
  import opened IpHeader
  import opened Common
  import opened SnullTypes
  import opened SnullRegular
  import opened SnullRegularProof

  /** The socket buffers the kernel handed to transmitter t in the course of a run. */
  function Requests(run: seq<Event>, t: Id): seq<Skb> {
    if run == [] then [] else Request(run[0], t) + Requests(run[1..], t)
  }

  function Request(e: Event, t: Id): seq<Skb> {
    if e.Start? && e.t == t then [Load(e.id, e.data, e.other)] else []
  }

  lemma SentGrows(s: State, e: Event, t: Id)
    requires Enabled(s, e)
    ensures Next(s, e).View(t).me.sent == s.View(t).me.sent + Request(e, t)
  {
  }

  lemma {:induction false} SentIsRequests(s: State, run: seq<Event>, s': State, t: Id)
    requires Reaches(s, run, s')
    ensures s'.View(t).me.sent == s.View(t).me.sent + Requests(run, t)
    decreases run
  {
    if run == [] {
    } else {
      SentIsRequests(Next(s, run[0]), run[1..], s', t);
      SentGrows(s, run[0], t);
      Associate(s.View(t).me.sent, Request(run[0], t), Requests(run[1..], t));
    }
  }

  lemma RunInv(s0: State, run: seq<Event>, s: State, t: Id)
    requires Init(s0) && s0.lockup == 0 && Reaches(s0, run, s)
    ensures Inv(s.View(t))
  {
    InitIsGood(s0);
    RunKeepsGood(s0, run, s);
    GoodView(s, t);
  }

  /** Although the receive queue is a stack, each frame is handled by the twin exactly once and in
      sending order, as the queue never holds more than one packet and is empty between transmissions. */
  lemma FramesArriveOnceInOrder(s0: State, run: seq<Event>, s: State, t: Id)
    requires Init(s0) && s0.lockup == 0 && Reaches(s0, run, s)
    ensures var asked, handled, queue := Requests(run, t), s.View(t).twin.dev.handled, s.View(t).twin.dev.rxq;
      && |queue| <= 1
      && |asked| - 1 <= |handled| <= |asked|
      && (forall k :: 0 <= k < |handled| ==> handled[k].frame == asked[k].frame)
      && (s.View(t).me.pc.Idle? ==> queue == [] && |handled| == |asked|)
  {
    assert s.View(t).me.sent == Requests(run, t) by { SentIsRequests(s0, run, s, t); }
    assert QueueInv(s.View(t)) && RxHistory(s.View(t)) by { RunInv(s0, run, s, t); }
  }

  lemma {:induction false} RequestIsLoaded(run: seq<Event>, t: Id, k: nat)
    requires k < |Requests(run, t)|
    ensures var x := Requests(run, t)[k];
      && (HeaderFits(x.frame) <==> HeaderFits(Pad(x.data)))
      && (HeaderFits(x.frame) ==> ChecksumVerifies(x.frame))
  {
    var first := Request(run[0], t);
    if k < |first| {
      RewriteVerifies(Pad(run[0].data), run[0].other);
    } else {
      RequestIsLoaded(run[1..], t, k - |first|);
    }
  }

  /** Every frame a device handles that was sent with a whole IP header carries a header checksum
      that verifies. */
  lemma HandledFramesVerify(s0: State, run: seq<Event>, s: State, t: Id, k: nat)
    requires Init(s0) && s0.lockup == 0 && Reaches(s0, run, s)
    requires k < |s.View(t).me.dev.handled|
    ensures k < |Requests(run, Twin(t))|
    ensures var frame, data := s.View(t).me.dev.handled[k].frame, Requests(run, Twin(t))[k].data;
      HeaderFits(Pad(data)) ==> HeaderFits(frame) && ChecksumVerifies(frame)
  {
    FramesArriveOnceInOrder(s0, run, s, Twin(t));
    RequestIsLoaded(run, Twin(t), k);
  }

  /** Whichever thread's interrupt consumes the transmit bit, every skb is freed exactly once, in
      order and before the next transmission replaces it. */
  lemma SkbsFreedOnce(s0: State, run: seq<Event>, s: State, t: Id)
    requires Init(s0) && s0.lockup == 0 && Reaches(s0, run, s)
    ensures var asked, freed := Requests(run, t), s.View(t).me.dev.freed;
      && |asked| - 1 <= |freed| <= |asked|
      && (forall k :: 0 <= k < |freed| ==> freed[k] == Some(asked[k]))
      && (s.View(t).me.pc.Idle? ==> |freed| == |asked|)
  {
    assert s.View(t).me.sent == Requests(run, t) by { SentIsRequests(s0, run, s, t); }
    assert TxHistory(s.View(t).me) by { RunInv(s0, run, s, t); }
  }

  /** Each finished transmission is counted once, with the length of its own frame. */
  lemma TransmissionsCountedOnce(s0: State, run: seq<Event>, s: State, t: Id)
    requires Init(s0) && s0.lockup == 0 && Reaches(s0, run, s)
    ensures var asked, freed, st := Requests(run, t), s.View(t).me.dev.freed, s.View(t).me.dev.stats;
      && |freed| <= |asked|
      && st.txPackets == |freed| && st.txBytes == FrameBytes(asked[..|freed|]) && st.txErrors == 0
  {
    assert s.View(t).me.sent == Requests(run, t) by { SentIsRequests(s0, run, s, t); }
    assert StatsInv(s.View(t).me) by { RunInv(s0, run, s, t); }
  }

  /** What a device counts as received balances what its twin has sent. */
  lemma CountersBalance(s0: State, run: seq<Event>, s: State, t: Id)
    requires Init(s0) && s0.lockup == 0 && Reaches(s0, run, s)
    requires s.View(t).me.pc.Idle?
    ensures var me, twin := s.View(t).me, s.View(t).twin;
      && twin.dev.stats.rxPackets + twin.dev.stats.rxDropped == me.dev.stats.txPackets
      && twin.dev.stats.rxPackets == DeliveredCount(twin.dev.handled)
      && twin.dev.stats.rxBytes == DeliveredBytes(twin.dev.handled)
  {
    RunInv(s0, run, s, t);
  }

  // ---------------------------------------------------------------- the queue never blocks for good

  predicate Quiet(s: State) {
    s.side0.pc.Idle? && s.side1.pc.Idle?
  }

  function StepsLeft(pc: Pc): nat {
    match pc
    case Idle => 0
    case OwnServed(_) => 1
    case TxRaised(_) => 2
    case Looped(_) => 3
    case TwinServed(_, _) => 4
    case Raised(_) => 5
    case Queued(_) => 6
    case Taken(_, _) => 7
    case Loaded(_) => 8
  }

  lemma MoveDescends(p: Pair, ok: bool)
    requires !p.me.pc.Idle? && (p.me.pc.Loaded? ==> p.me.dev.pool != [])
    ensures StepsLeft(Move(p, 0, ok).me.pc) < StepsLeft(p.me.pc)
    ensures Move(p, 0, ok).twin.pc == p.twin.pc
  {
  }

  /** A transmitter that has begun is never blocked: the pool it takes from is not empty
      (the pool's head is dereferenced unchecked), and each step brings it closer to its end. */
  lemma StepsAlwaysProgress(s: State, t: Id, ok: bool)
    requires Good(s) && !s.View(t).me.pc.Idle?
    ensures Enabled(s, Step(t, ok))
    ensures StepsLeft(Next(s, Step(t, ok)).View(t).me.pc) < StepsLeft(s.View(t).me.pc)
    ensures Next(s, Step(t, ok)).View(t).twin.pc == s.View(t).twin.pc
  {
    GoodView(s, t);
    assert FlagInv(s.View(t).me);
    MoveDescends(s.View(t), ok);
  }

  /** From every reachable state the transmitters can finish, within eight steps each. */
  lemma {:induction false} TransmittersFinish(s: State) returns (run: seq<Event>, s': State)
    requires Good(s)
    ensures Reaches(s, run, s') && Quiet(s') && Good(s')
    ensures |run| <= StepsLeft(s.side0.pc) + StepsLeft(s.side1.pc)
    ensures forall e :: e in run ==> e.Step?
    decreases StepsLeft(s.side0.pc) + StepsLeft(s.side1.pc)
  {
    hide Good;
    if Quiet(s) {
      return [], s;
    }
    var t: Id := if !s.side0.pc.Idle? then 0 else 1;
    var e := Step(t, true);
    StepsAlwaysProgress(s, t, true);
    NextKeepsGood(s, e);
    var rest, end := TransmittersFinish(Next(s, e));
    assert ([e] + rest)[1..] == rest;
    return [e] + rest, end;
  }

  // ---------------------------------------------------------------- no packet is lost

  function Holds(pc: Pc, own: bool, pkt: Packet): nat {
    if (if own then pc.Taken? || pc.TwinServed? else pc.OwnServed?) && pc.hand == pkt then 1 else 0
  }

  /** In how many places among those of me packet pkt is found. */
  function Account(p: Pair, pkt: Packet): nat {
    InPool(p.me.dev.pool, pkt) + InQueue(p.twin.dev.rxq, pkt) + Holds(p.me.pc, true, pkt) + Holds(p.twin.pc, false, pkt)
  }

  lemma InterruptAccount(d: Dev, ok: bool, pkt: Packet)
    ensures var (served, hand) := Interrupt(d, ok);
      && InQueue(d.rxq, pkt) == InQueue(served.rxq, pkt) + (if hand == Some(pkt) then 1 else 0)
      && served.pool == d.pool
  {
  }

  lemma MoveKeepsOwnAccount(p: Pair, lockup: nat, ok: bool, pkt: Packet)
    requires Places(p) && !p.me.pc.Idle? && (p.me.pc.Loaded? ==> p.me.dev.pool != [])
    ensures Account(Move(p, lockup, ok), pkt) == Account(p, pkt)
  {
    hide Interrupt;
    match p.me.pc
    case Taken(x, skb) => PushEntry(p.twin.dev.rxq, Entry(x, skb.frame), pkt);
    case Raised(_) => InterruptAccount(p.twin.dev, ok, pkt);
    case TwinServed(x, _) => PushPool(p.me.dev.pool, x, pkt);
    case TxRaised(_) => InterruptAccount(p.me.dev, ok, pkt);
    case _ =>
  }

  lemma MoveKeepsTwinAccount(p: Pair, lockup: nat, ok: bool, pkt: Packet)
    requires Places(p) && !p.me.pc.Idle? && (p.me.pc.Loaded? ==> p.me.dev.pool != [])
    ensures Account(Swap(Move(p, lockup, ok)), pkt) == Account(Swap(p), pkt)
  {
    hide Interrupt;
    match p.me.pc
    case Raised(_) => InterruptAccount(p.twin.dev, ok, pkt);
    case TxRaised(_) => InterruptAccount(p.me.dev, ok, pkt);
    case OwnServed(x) => PushPool(p.twin.dev.pool, x, pkt);
    case _ =>
  }

  lemma StepKeepsAccounts(s: State, e: Event, pkt: Packet, t: Id)
    requires Places(s.View(0)) && Enabled(s, e)
    ensures Places(Next(s, e).View(0))
    ensures Account(Next(s, e).View(t), pkt) == Account(s.View(t), pkt)
  {
    hide Move;
    if e.Step? {
      MoveKeepsOwnAccount(s.View(e.t), s.lockup, e.ok, pkt);
      MoveKeepsTwinAccount(s.View(e.t), s.lockup, e.ok, pkt);
      MoveKeepsPlaces(s.View(e.t), s.lockup, e.ok);
    }
  }

  lemma {:induction false} RunKeepsAccounts(s: State, run: seq<Event>, s': State, pkt: Packet, t: Id)
    requires Places(s.View(0)) && Reaches(s, run, s')
    ensures Places(s'.View(0)) && Account(s'.View(t), pkt) == Account(s.View(t), pkt)
    decreases run
  {
    if run == [] {
    } else {
      StepKeepsAccounts(s, run[0], pkt, t);
      RunKeepsAccounts(Next(s, run[0]), run[1..], s', pkt, t);
    }
  }

  function QueuePackets(q: seq<Entry>): seq<Packet> {
    seq(|q|, k requires 0 <= k < |q| => q[k].pkt)
  }

  lemma {:induction false} InQueueCounts(q: seq<Entry>, pkt: Packet)
    ensures InQueue(q, pkt) == multiset(QueuePackets(q))[pkt]
  {
    if q == [] {
    } else {
      InQueueCounts(q[1..], pkt);
      assert QueuePackets(q) == [q[0].pkt] + QueuePackets(q[1..]);
    }
  }

  function Hands(p: Pair): multiset<Packet> {
    (if p.me.pc.Taken? || p.me.pc.TwinServed? then multiset{p.me.pc.hand} else multiset{})
    + (if p.twin.pc.OwnServed? then multiset{p.twin.pc.hand} else multiset{})
  }

  lemma AccountIsCount(p: Pair, pkt: Packet)
    ensures Account(p, pkt) == (multiset(p.me.dev.pool) + multiset(QueuePackets(p.twin.dev.rxq)) + Hands(p))[pkt]
  {
    InPoolCounts(p.me.dev.pool, pkt);
    InQueueCounts(p.twin.dev.rxq, pkt);
  }

  lemma InitPlaces(s: State)
    requires Init(s)
    ensures Places(s.View(0))
  {
    forall x: Side, k | x in {s.side0, s.side1} && 0 <= k < |x.dev.pool|
      ensures x.dev.pool[k].dev == x.id
    {
      assert x.dev.pool[k] in multiset(x.owned);
    }
  }

  lemma InitAccount(s: State, t: Id, pkt: Packet)
    requires Init(s)
    ensures Account(s.View(t), pkt) == multiset(s.View(t).me.owned)[pkt]
  {
    var p := s.View(t);
    InPoolCounts(p.me.dev.pool, pkt);
    assert p.twin.dev.rxq == [] && p.me.pc.Idle? && p.twin.pc.Idle?;
  }

  lemma AccountIsOwnership(s0: State, run: seq<Event>, s: State, t: Id, pkt: Packet)
    requires Init(s0) && Reaches(s0, run, s)
    ensures Account(s.View(t), pkt) == multiset(s0.View(t).me.owned)[pkt]
  {
    hide Account;
    InitAccount(s0, t, pkt);
    InitPlaces(s0);
    RunKeepsAccounts(s0, run, s, pkt, t);
  }

  /** In every reachable state, with or without simulated lockups, the packets allocated for a
      device are partitioned without duplicates among its pool, the twin's queue and the hands. */
  lemma PacketsArePartitioned(s0: State, run: seq<Event>, s: State, t: Id)
    requires Init(s0) && Reaches(s0, run, s)
    ensures var p := s.View(t);
      && multiset(p.me.dev.pool) + multiset(QueuePackets(p.twin.dev.rxq)) + Hands(p) == multiset(s0.View(t).me.owned)
      && (Quiet(s) && p.twin.dev.rxq == [] ==> multiset(p.me.dev.pool) == multiset(s0.View(t).me.owned))
  {
    var p, owned := s.View(t), multiset(s0.View(t).me.owned);
    var now := multiset(p.me.dev.pool) + multiset(QueuePackets(p.twin.dev.rxq)) + Hands(p);
    forall pkt: Packet
      ensures now[pkt] == owned[pkt]
    {
      hide *;
      AccountIsCount(p, pkt);
      AccountIsOwnership(s0, run, s, t, pkt);
    }
  }

  /** Without lockups, once both transmitters are idle every packet is back in its owner's pool:
      tearing the pools down frees exactly what setting them up allocated. Both queues run again. */
  lemma QuietMeansPoolsComplete(s0: State, run: seq<Event>, s: State, t: Id)
    requires Init(s0) && s0.lockup == 0 && Reaches(s0, run, s) && Quiet(s)
    ensures multiset(s.View(t).me.dev.pool) == multiset(s0.View(t).me.owned)
    ensures s.View(t).me.dev.running
  {
    RunInv(s0, run, s, t);
    PacketsArePartitioned(s0, run, s, t);
    assert s0.View(t).me.dev.pool[0] in multiset(s0.View(t).me.owned);
  }

  // ---------------------------------------------------------------- packets are never shared

  /** The places of me's packets, listed. */
  function Listed(p: Pair): seq<Packet> {
    p.me.dev.pool + QueuePackets(p.twin.dev.rxq)
    + (if p.me.pc.Taken? || p.me.pc.TwinServed? then [p.me.pc.hand] else [])
    + (if p.twin.pc.OwnServed? then [p.twin.pc.hand] else [])
  }

  /** No packet is in two places. */
  predicate Unique(p: Pair) {
    forall pkt :: pkt in Listed(p) ==> Account(p, pkt) == 1
  }

  lemma ListedIsCounted(p: Pair, pkt: Packet)
    ensures pkt in Listed(p) <==> Account(p, pkt) > 0
  {
    InPoolCounts(p.me.dev.pool, pkt);
    InQueueCounts(p.twin.dev.rxq, pkt);
  }

  lemma SameAccountsKeepUnique(p: Pair, q: Pair)
    requires Unique(p)
    requires forall pkt :: Account(q, pkt) == Account(p, pkt)
    ensures Unique(q)
  {
    forall pkt | pkt in Listed(q)
      ensures Account(q, pkt) == 1
    {
      ListedIsCounted(q, pkt);
      ListedIsCounted(p, pkt);
    }
  }

  lemma MoveKeepsUnique(p: Pair, lockup: nat, ok: bool)
    requires Places(p) && !p.me.pc.Idle? && (p.me.pc.Loaded? ==> p.me.dev.pool != [])
    requires Unique(p) && Unique(Swap(p))
    ensures Unique(Move(p, lockup, ok)) && Unique(Swap(Move(p, lockup, ok)))
  {
    var q := Move(p, lockup, ok);
    forall pkt
      ensures Account(q, pkt) == Account(p, pkt) && Account(Swap(q), pkt) == Account(Swap(p), pkt)
    {
      MoveKeepsOwnAccount(p, lockup, ok, pkt);
      MoveKeepsTwinAccount(p, lockup, ok, pkt);
    }
    SameAccountsKeepUnique(p, q);
    SameAccountsKeepUnique(Swap(p), Swap(q));
  }
}
