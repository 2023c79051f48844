/** What becomes of received frames, with or without simulated lockups: each is delivered or dropped
    as the allocation of a socket buffer goes at the step that serves it, and counted so. */
module SnullReception {
  import opened Common
  import opened SnullTypes
  import opened SnullRegular

  /** The event runs the interrupt handler of t while its receive bit is set and a packet is queued. */
  predicate Serves(s: State, e: Event, t: Id) {
    var d := s.View(t).me.dev;
    && e.Step? && d.rxPending && d.rxq != []
    && (if e.t == t then s.View(t).me.pc.TxRaised? else s.View(e.t).me.pc.Raised?)
  }

  /** How the allocations of the serving steps of a run went, in order. */
  function Outcomes(s: State, run: seq<Event>, t: Id): seq<bool>
    decreases run
  {
    if run == [] || !Enabled(s, run[0]) then [] else
      (if Serves(s, run[0], t) then [run[0].ok] else []) + Outcomes(Next(s, run[0]), run[1..], t)
  }

  function Flags(h: seq<Handled>): (r: seq<bool>)
    ensures |r| == |h|
    ensures forall k :: 0 <= k < |h| ==> r[k] == h[k].delivered
  {
    seq(|h|, k requires 0 <= k < |h| => h[k].delivered)
  }

  function Count(flags: seq<bool>, b: bool): nat
    decreases flags
  {
    if flags == [] then 0 else (if flags[0] == b then 1 else 0) + Count(flags[1..], b)
  }

  lemma {:induction false} CountJoins(x: seq<bool>, y: seq<bool>, b: bool)
    ensures Count(x + y, b) == Count(x, b) + Count(y, b)
    decreases x
  {
    if x == [] {
      assert x + y == y;
    } else {
      CountJoins(x[1..], y, b);
      assert (x + y)[1..] == x[1..] + y;
    }
  }

  /** The receive counters say what the trace of frames says. */
  predicate RxCounted(d: Dev) {
    && d.stats.rxPackets == Count(Flags(d.handled), true)
    && d.stats.rxDropped == Count(Flags(d.handled), false)
    && d.stats.rxBytes == DeliveredBytes(d.handled)
  }

  /** The frame at the head of the queue is handled, with the given outcome. */
  function Served(d: Dev, ok: bool): seq<Handled>
    requires d.rxq != []
  {
    [Handled(d.rxq[0].frame, ok)]
  }

  lemma InterruptReceives(d: Dev, ok: bool)
    ensures var r, some := Interrupt(d, ok).0, d.rxPending && d.rxq != [];
      && r.handled == d.handled + (if some then Served(d, ok) else [])
      && r.stats.rxPackets == d.stats.rxPackets + (if some && ok then 1 else 0)
      && r.stats.rxDropped == d.stats.rxDropped + (if some && !ok then 1 else 0)
      && r.stats.rxBytes == d.stats.rxBytes + (if some && ok then |d.rxq[0].frame| else 0)
  {
  }

  /** The same trace and receive counters. */
  predicate SameRx(d: Dev, r: Dev) {
    && r.handled == d.handled && r.stats.rxPackets == d.stats.rxPackets
    && r.stats.rxDropped == d.stats.rxDropped && r.stats.rxBytes == d.stats.rxBytes
  }

  lemma ReleaseReceivesNothing(p: Pair, pkt: Packet)
    ensures var q := Release(p, pkt); SameRx(p.me.dev, q.me.dev) && SameRx(p.twin.dev, q.twin.dev)
  {
  }

  lemma MoveReceives(p: Pair, lockup: nat, ok: bool)
    requires !p.me.pc.Idle? && (p.me.pc.Loaded? ==> p.me.dev.pool != [])
    ensures var q := Move(p, lockup, ok);
      && (if p.me.pc.TxRaised? then q.me.dev == Interrupt(p.me.dev, ok).0 else SameRx(p.me.dev, q.me.dev))
      && (if p.me.pc.Raised? then q.twin.dev == Interrupt(p.twin.dev, ok).0 else SameRx(p.twin.dev, q.twin.dev))
  {
    hide Interrupt, Release;
    match p.me.pc
    case TwinServed(pkt, _) => ReleaseReceivesNothing(p, pkt);
    case OwnServed(pkt) => ReleaseReceivesNothing(p, pkt);
    case _ =>
  }

  lemma RecoverReceivesNothing(p: Pair)
    ensures SameRx(p.me.dev, Recover(p).me.dev) && Recover(p).twin == p.twin
  {
  }

  /** A step handles the head of the queue, with its own outcome, iff it serves; otherwise nothing. */
  lemma StepReceives(s: State, e: Event, t: Id)
    requires Enabled(s, e)
    ensures var d, r := s.View(t).me.dev, Next(s, e).View(t).me.dev;
      if Serves(s, e, t) then r == Interrupt(d, e.ok).0 else SameRx(d, r)
  {
    var p := s.View(e.t);
    match e
    case Start(_, _, _, _) =>
    case Timeout(_) =>
      RecoverReceivesNothing(p);
      hide Recover;
    case Step(_, ok) =>
      MoveReceives(p, s.lockup, ok);
      hide Move;
      InterruptReceives(s.View(t).me.dev, ok);
  }

  lemma AppendCounted(d: Dev, r: Dev, ok: bool)
    requires RxCounted(d) && d.rxPending && d.rxq != [] && r == Interrupt(d, ok).0
    ensures RxCounted(r) && Flags(r.handled) == Flags(d.handled) + [ok]
  {
    InterruptReceives(d, ok);
    hide Interrupt;
    assert Flags(r.handled) == Flags(d.handled) + [ok];
    CountJoins(Flags(d.handled), [ok], true);
    CountJoins(Flags(d.handled), [ok], false);
    OneFlag(ok);
    assert r.handled[..|d.handled|] == d.handled;
  }

  lemma OneFlag(ok: bool)
    ensures Count([ok], true) == (if ok then 1 else 0) && Count([ok], false) == (if ok then 0 else 1)
  {
    assert [ok][1..] == [];
  }

  lemma StepCounts(s: State, e: Event, t: Id)
    requires Enabled(s, e) && RxCounted(s.View(t).me.dev)
    ensures var d, r := s.View(t).me.dev, Next(s, e).View(t).me.dev;
      && RxCounted(r)
      && Flags(r.handled) == Flags(d.handled) + if Serves(s, e, t) then [e.ok] else []
  {
    StepReceives(s, e, t);
    hide Next, Enabled;
    if Serves(s, e, t) {
      AppendCounted(s.View(t).me.dev, Next(s, e).View(t).me.dev, e.ok);
    }
  }

  lemma {:induction false} RunReceives(s: State, run: seq<Event>, s': State, t: Id)
    requires Reaches(s, run, s') && RxCounted(s.View(t).me.dev)
    ensures RxCounted(s'.View(t).me.dev)
    ensures Flags(s'.View(t).me.dev.handled) == Flags(s.View(t).me.dev.handled) + Outcomes(s, run, t)
    decreases run
  {
    hide Next, Enabled, RxCounted, Flags;
    if run == [] {
    } else {
      var next, now := Next(s, run[0]), if Serves(s, run[0], t) then [run[0].ok] else [];
      StepCounts(s, run[0], t);
      RunReceives(next, run[1..], s', t);
      Associate(Flags(s.View(t).me.dev.handled), now, Outcomes(next, run[1..], t));
    }
  }

  /** In every run, lockups or not: the k-th frame a device handles is delivered iff the allocation
      at the k-th serving step of the run succeeded, and the counters count just that. */
  lemma ReceptionsFollowAllocations(s0: State, run: seq<Event>, s: State, t: Id)
    requires Init(s0) && Reaches(s0, run, s)
    ensures var d, oks := s.View(t).me.dev, Outcomes(s0, run, t);
      && |d.handled| == |oks|
      && (forall k :: 0 <= k < |oks| ==> d.handled[k].delivered == oks[k])
      && d.stats.rxPackets == Count(oks, true) && d.stats.rxDropped == Count(oks, false)
      && d.stats.rxBytes == DeliveredBytes(d.handled)
  {
    assert Fresh(s0.View(t).me);
    assert Flags([]) == [];
    RunReceives(s0, run, s, t);
    assert [] + Outcomes(s0, run, t) == Outcomes(s0, run, t);
  }
}
