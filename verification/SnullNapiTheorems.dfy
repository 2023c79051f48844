/** What holds after every run in polling mode, and how a backlog is drained. */
module SnullNapiTheorems {
  import opened Common
  import opened IpHeader
  import opened SnullTypes
  import opened SnullRegular
  import opened SnullRegularProof
  import opened SnullRegularTheorems
  import opened SnullNapi

  // ---------------------------------------------------------------- one poll

  function Outcomes(q: seq<Entry>, n: nat, fails: set<nat>): (r: seq<Handled>)
    ensures |r| == |q|
  {
    if q == [] then [] else [Handled(q[0].frame, n !in fails)] + Outcomes(q[1..], n + 1, fails)
  }

  /** Rounds the loop makes from round n on. */
  function Rounds(p: NPair, n: nat, budget: nat): nat
    requires n <= budget
  {
    var waiting := |p.me.base.dev.rxq|;
    if waiting <= budget - n then waiting else budget - n
  }

  /** The loop takes packets from the top of the queue, in that order, and stops at the budget
      or the end of the queue whether or not allocations fail. */
  lemma {:induction false} PollLoopTakes(p: NPair, n: nat, budget: nat, fails: set<nat>)
    requires Places(p.Base()) && n <= budget
    ensures var (q, m) := PollLoop(p, n, budget, fails);
      var k := Rounds(p, n, budget);
      && m == n + k
      && Places(q.Base())
      && q.me.base.dev.rxq == p.me.base.dev.rxq[k..]
      && q.me.base.dev.handled == p.me.base.dev.handled + Outcomes(p.me.base.dev.rxq[..k], n, fails)
      && q.me.scheduled == p.me.scheduled && q.me.base.dev.rxInt == p.me.base.dev.rxInt
    decreases budget - n
  {
    hide PollOne, Places, ReleaseBuffer;
    var d := p.me.base.dev;
    if n < budget && d.rxq != [] {
      var next := PollOne(p, n !in fails);
      PollOneEffect(p, n !in fails);
      PollLoopTakes(next, n + 1, budget, fails);
      var k := Rounds(p, n, budget);
      assert d.rxq[..k][1..] == next.me.base.dev.rxq[..k - 1];
      Associate(d.handled, [Handled(d.rxq[0].frame, n !in fails)], Outcomes(d.rxq[..k][1..], n + 1, fails));
    } else {
      assert Rounds(p, n, budget) == 0 && d.rxq[..0] == [] && d.rxq[0..] == d.rxq;
    }
  }

  lemma {:induction false} PollLoopKeepsInv(p: NPair, n: nat, budget: nat, fails: set<nat>)
    requires NInv(p)
    ensures NInv(PollLoop(p, n, budget, fails).0)
    decreases budget - n
  {
    if n >= budget || p.me.base.dev.rxq == [] {
    } else {
      PollOneKeepsInv(p, n !in fails);
      PollLoopKeepsInv(PollOne(p, n !in fails), n + 1, budget, fails);
    }
  }

  lemma CompleteKeepsInv(p: NPair)
    requires NInv(p) && p.me.base.dev.rxq == []
    ensures NInv(p.(me := Complete(p.me)))
  {
  }

  lemma PollKeepsInv(p: NPair, budget: nat, fails: set<nat>)
    requires NInv(p)
    ensures NInv(Poll(p, budget, fails))
  {
    PollLoopKeepsInv(p, 0, budget, fails);
    PollLoopTakes(p, 0, budget, fails);
    var (q, n) := PollLoop(p, 0, budget, fails);
    if n < budget {
      CompleteKeepsInv(q);
    }
  }

  // ---------------------------------------------------------------- every run

  lemma NInvSwap(p: NPair)
    requires NInv(p)
    ensures NInv(NSwap(p))
  {
  }

  lemma NNextKeepsInv(s: NState, e: NEvent)
    requires NInv(s.View(0)) && NEnabled(s, e)
    ensures NInv(NNext(s, e).View(0))
  {
    var p := s.View(e.t);
    NInvSwap(s.View(0));
    match e {
      case Send(_, id, data, other) => TransmitKeepsInv(p, Load(id, data, other));
      case DoPoll(_, budget, fails) => PollKeepsInv(p, budget, fails);
    }
    NInvSwap(NNext(s, e).View(e.t));
  }

  lemma {:induction false} NRunKeepsInv(s: NState, run: seq<NEvent>, s': NState)
    requires NInv(s.View(0)) && NReaches(s, run, s')
    ensures NInv(s'.View(0))
    decreases run
  {
    if run == [] {
    } else {
      NNextKeepsInv(s, run[0]);
      NRunKeepsInv(NNext(s, run[0]), run[1..], s');
    }
  }

  lemma NInitInv(s: NState)
    requires NInit(s)
    ensures NInv(s.View(0))
  {
    InitPlaces(State(0, s.side0.base, s.side1.base));
  }

  lemma NView(s: NState, t: Id)
    requires NInv(s.View(0))
    ensures NInv(s.View(t))
  {
    NInvSwap(s.View(0));
  }

  lemma NRunInv(s0: NState, run: seq<NEvent>, s: NState, t: Id)
    requires NInit(s0) && NReaches(s0, run, s)
    ensures NInv(s.View(t))
  {
    NInitInv(s0);
    NRunKeepsInv(s0, run, s);
    NView(s, t);
  }

  /** Interrupts are disabled exactly while a poll is scheduled; packets never wait without a
      scheduled poll; a running queue has a packet to take, so no run ever leaves a lock held. */
  lemma PollingProtocol(s0: NState, run: seq<NEvent>, s: NState, t: Id)
    requires NInit(s0) && NReaches(s0, run, s)
    ensures var x := s.View(t).me;
      && (x.scheduled <==> !x.base.dev.rxInt)
      && (x.base.dev.rxq != [] ==> x.scheduled)
      && (x.base.dev.running <==> x.base.dev.pool != [])
      && !x.lockHeld
  {
    NRunInv(s0, run, s, t);
  }

  /** A device has received or dropped all its twin has sent, except what waits in the queue; each
      delivered frame has at least the minimal length. */
  lemma CountersBalance(s0: NState, run: seq<NEvent>, s: NState, t: Id)
    requires NInit(s0) && NReaches(s0, run, s)
    ensures var me, twin := s.View(t).me.base.dev, s.View(t).twin.base.dev;
      && twin.stats.rxPackets + twin.stats.rxDropped + |twin.rxq| == me.stats.txPackets
      && twin.stats.rxBytes == DeliveredBytes(twin.handled)
      && (forall k :: 0 <= k < |twin.handled| ==> |twin.handled[k].frame| >= ETH_ZLEN)
      && twin.stats.rxBytes >= ETH_ZLEN * twin.stats.rxPackets
      && me.stats.txBytes == FrameBytes(s.View(t).me.base.sent)
      && |me.freed| == me.stats.txPackets
  {
    NRunInv(s0, run, s, t);
    LongDeliveries(s.View(t).twin.base.dev.handled);
  }

  lemma {:induction false} LongDeliveries(h: seq<Handled>)
    requires forall k :: 0 <= k < |h| ==> |h[k].frame| >= ETH_ZLEN
    ensures DeliveredBytes(h) >= ETH_ZLEN * DeliveredCount(h)
  {
    if h == [] {
    } else {
      LongDeliveries(h[..|h| - 1]);
    }
  }

  // ---------------------------------------------------------------- exactly once

  function CountHandled(h: seq<Handled>, f: seq<byte>): nat {
    if h == [] then 0 else CountHandled(h[..|h| - 1], f) + if h[|h| - 1].frame == f then 1 else 0
  }

  function CountSent(s: seq<Skb>, f: seq<byte>): nat {
    if s == [] then 0 else CountSent(s[..|s| - 1], f) + if s[|s| - 1].frame == f then 1 else 0
  }

  function CountWaiting(q: seq<Entry>, f: seq<byte>): nat {
    if q == [] then 0 else CountWaiting(q[1..], f) + if q[0].frame == f then 1 else 0
  }

  /** Sent frames equal to f that the twin has neither handled nor queued; negative if too many. */
  function Missing(p: NPair, f: seq<byte>): int {
    CountSent(p.me.base.sent, f) - CountHandled(p.twin.base.dev.handled, f) - CountWaiting(p.twin.base.dev.rxq, f)
  }

  lemma TransmitMissesNone(p: NPair, skb: Skb, f: seq<byte>)
    requires ListenInv(p.me) && ListenInv(p.twin) && PoolInv(p.me) && p.me.base.dev.running
    ensures Missing(Transmit(p, skb), f) == Missing(p, f)
    ensures Missing(NSwap(Transmit(p, skb)), f) == Missing(NSwap(p), f)
  {
    TransmitEffect(p, skb);
    assert (p.me.base.sent + [skb])[..|p.me.base.sent|] == p.me.base.sent;
    var e := Entry(p.me.base.dev.pool[0], skb.frame);
    assert ([e] + p.twin.base.dev.rxq)[1..] == p.twin.base.dev.rxq;
  }

  lemma {:induction false} PollLoopMissesNone(p: NPair, n: nat, budget: nat, fails: set<nat>, f: seq<byte>)
    requires Places(p.Base())
    ensures Missing(PollLoop(p, n, budget, fails).0, f) == Missing(p, f)
    ensures Missing(NSwap(PollLoop(p, n, budget, fails).0), f) == Missing(NSwap(p), f)
    decreases budget - n
  {
    hide PollOne, Places;
    var d := p.me.base.dev;
    if n >= budget || d.rxq == [] {
    } else {
      PollOneEffect(p, n !in fails);
      assert (d.handled + [Handled(d.rxq[0].frame, n !in fails)])[..|d.handled|] == d.handled;
      PollLoopMissesNone(PollOne(p, n !in fails), n + 1, budget, fails, f);
    }
  }

  lemma PollMissesNone(p: NPair, budget: nat, fails: set<nat>, f: seq<byte>)
    requires Places(p.Base())
    ensures Missing(Poll(p, budget, fails), f) == Missing(p, f)
    ensures Missing(NSwap(Poll(p, budget, fails)), f) == Missing(NSwap(p), f)
  {
    PollLoopMissesNone(p, 0, budget, fails, f);
  }

  lemma ViewPut(s: NState, t: Id, u: Id, q: NPair)
    ensures s.Put(t, q).View(u) == if u == t then q else NSwap(q)
    ensures s.View(u) == if u == t then s.View(t) else NSwap(s.View(t))
  {
  }

  lemma NNextMissesNone(s: NState, e: NEvent, t: Id, f: seq<byte>)
    requires NInv(s.View(0)) && NEnabled(s, e)
    ensures Missing(NNext(s, e).View(t), f) == Missing(s.View(t), f)
  {
    hide Missing, Transmit;
    ViewPut(s, e.t, t, NNext(s, e).View(e.t));
    match e
    case Send(_, id, data, other) => TransmitMissesNone(s.View(e.t), Load(id, data, other), f);
    case DoPoll(_, budget, fails) => PollMissesNone(s.View(e.t), budget, fails, f);
  }

  lemma {:induction false} NRunMissesNone(s: NState, run: seq<NEvent>, s': NState, t: Id, f: seq<byte>)
    requires NInv(s.View(0)) && NReaches(s, run, s')
    ensures Missing(s'.View(t), f) == Missing(s.View(t), f)
    decreases run
  {
    if run == [] {
    } else {
      NNextKeepsInv(s, run[0]);
      NNextMissesNone(s, run[0], t, f);
      NRunMissesNone(NNext(s, run[0]), run[1..], s', t, f);
    }
  }

  /** Every frame is handled as often as it was sent, apart from the copies still waiting. */
  lemma FramesArriveOnce(s0: NState, run: seq<NEvent>, s: NState, t: Id, f: seq<byte>)
    requires NInit(s0) && NReaches(s0, run, s)
    ensures CountSent(s.View(t).me.base.sent, f)
         == CountHandled(s.View(t).twin.base.dev.handled, f) + CountWaiting(s.View(t).twin.base.dev.rxq, f)
  {
    NInitInv(s0);
    NRunMissesNone(s0, run, s, t, f);
  }

  // ---------------------------------------------------------------- what the run asked for

  function NRequest(e: NEvent, t: Id): seq<Skb> {
    if e.Send? && e.t == t then [Load(e.id, e.data, e.other)] else []
  }

  function NRequests(run: seq<NEvent>, t: Id): seq<Skb> {
    if run == [] then [] else NRequest(run[0], t) + NRequests(run[1..], t)
  }

  lemma {:induction false} PollLoopKeepsSent(p: NPair, n: nat, budget: nat, fails: set<nat>)
    ensures var q := PollLoop(p, n, budget, fails).0;
      q.me.base.sent == p.me.base.sent && q.twin.base.sent == p.twin.base.sent
    decreases budget - n
  {
    if n >= budget || p.me.base.dev.rxq == [] {
    } else {
      PollLoopKeepsSent(PollOne(p, n !in fails), n + 1, budget, fails);
    }
  }

  lemma TransmitSent(p: NPair, skb: Skb)
    ensures Transmit(p, skb).me.base.sent == p.me.base.sent + [skb]
    ensures Transmit(p, skb).twin.base.sent == p.twin.base.sent
  {
  }

  lemma NSentGrows(s: NState, e: NEvent, t: Id)
    requires NEnabled(s, e)
    ensures NNext(s, e).View(t).me.base.sent == s.View(t).me.base.sent + NRequest(e, t)
  {
    var p := s.View(e.t);
    ViewPut(s, e.t, t, NNext(s, e).View(e.t));
    match e
    case Send(_, id, data, other) => TransmitSent(p, Load(id, data, other));
    case DoPoll(_, budget, fails) => PollLoopKeepsSent(p, 0, budget, fails);
  }

  /** The history of sent buffers is exactly what the kernel asked for in the run. */
  lemma {:induction false} NSentIsRequests(s: NState, run: seq<NEvent>, s': NState, t: Id)
    requires NReaches(s, run, s')
    ensures s'.View(t).me.base.sent == s.View(t).me.base.sent + NRequests(run, t)
    decreases run
  {
    if run == [] {
    } else {
      NSentIsRequests(NNext(s, run[0]), run[1..], s', t);
      NSentGrows(s, run[0], t);
      Associate(s.View(t).me.base.sent, NRequest(run[0], t), NRequests(run[1..], t));
    }
  }
}
