/** Polling mode, event by event: what becomes of received frames and of socket buffers in a run, and
    draining as a run of the machine. */
module SnullNapiReception {
  import opened Common
  import opened SnullTypes
  import opened SnullRegular
  import opened SnullRegularProof
  import opened SnullReception
  import opened SnullNapi
  import opened SnullNapiTheorems
  import opened SnullNapiDrain

  // ---------------------------------------------------------------- receptions

  /** How the allocations of one poll go: round i fails when i is in fails. */
  function PollFlags(rounds: nat, fails: set<nat>): (r: seq<bool>)
    ensures |r| == rounds
  {
    seq(rounds, i => i !in fails)
  }

  /** How many rounds a poll of d makes. */
  function PollRounds(d: Dev, budget: nat): nat {
    if |d.rxq| <= budget then |d.rxq| else budget
  }

  /** How the allocations of the polls of t in a run go, in order. */
  function NOutcomes(s: NState, run: seq<NEvent>, t: Id): seq<bool>
    decreases run
  {
    if run == [] || !NEnabled(s, run[0]) then [] else
      var e := run[0];
      (if e.DoPoll? && e.t == t then PollFlags(PollRounds(s.View(t).me.base.dev, e.budget), e.fails) else [])
      + NOutcomes(NNext(s, e), run[1..], t)
  }

  lemma {:induction false} OutcomeAt(q: seq<Entry>, n: nat, fails: set<nat>, i: nat)
    requires i < |q|
    ensures SnullNapiTheorems.Outcomes(q, n, fails)[i] == Handled(q[i].frame, n + i !in fails)
  {
    if i > 0 {
      OutcomeAt(q[1..], n + 1, fails, i - 1);
    }
  }

  lemma OutcomeFlags(q: seq<Entry>, fails: set<nat>)
    ensures Flags(SnullNapiTheorems.Outcomes(q, 0, fails)) == PollFlags(|q|, fails)
  {
    forall i | 0 <= i < |q|
      ensures Flags(SnullNapiTheorems.Outcomes(q, 0, fails))[i] == PollFlags(|q|, fails)[i]
    {
      OutcomeAt(q, 0, fails, i);
    }
  }

  lemma FlagsJoin(a: seq<Handled>, b: seq<Handled>)
    ensures Flags(a + b) == Flags(a) + Flags(b)
  {
  }

  lemma PollFlagged(p: NPair, budget: nat, fails: set<nat>)
    requires Places(p.Base())
    ensures var d := p.me.base.dev;
      Flags(Poll(p, budget, fails).me.base.dev.handled) == Flags(d.handled) + PollFlags(PollRounds(d, budget), fails)
  {
    var d := p.me.base.dev;
    var k := PollRounds(d, budget);
    PollLoopTakes(p, 0, budget, fails);
    OutcomeFlags(d.rxq[..k], fails);
    FlagsJoin(d.handled, SnullNapiTheorems.Outcomes(d.rxq[..k], 0, fails));
  }

  lemma {:induction false} PollSparesTwinTrace(p: NPair, n: nat, budget: nat, fails: set<nat>)
    requires Places(p.Base())
    ensures PollLoop(p, n, budget, fails).0.twin.base.dev.handled == p.twin.base.dev.handled
    decreases budget - n
  {
    if n >= budget || p.me.base.dev.rxq == [] {
    } else {
      PollOneEffect(p, n !in fails);
      hide PollOne, Places;
      PollSparesTwinTrace(PollOne(p, n !in fails), n + 1, budget, fails);
    }
  }

  lemma PollHandles(p: NPair, budget: nat, fails: set<nat>)
    requires NInv(p)
    ensures var q, d := Poll(p, budget, fails), p.me.base.dev;
      && q.twin.base.dev.handled == p.twin.base.dev.handled
      && Flags(q.me.base.dev.handled) == Flags(d.handled) + PollFlags(PollRounds(d, budget), fails)
  {
    PollSparesTwinTrace(p, 0, budget, fails);
    PollFlagged(p, budget, fails);
  }

  lemma TransmitHandlesNothing(p: NPair, skb: Skb)
    requires NInv(p) && p.me.base.dev.running
    ensures var q := Transmit(p, skb);
      && q.me.base.dev.handled == p.me.base.dev.handled && q.twin.base.dev.handled == p.twin.base.dev.handled
  {
    TransmitEffect(p, skb);
  }

  lemma EventView(s: NState, e: NEvent)
    requires NEnabled(s, e)
    ensures var p, q := s.View(e.t), NNext(s, e).View(e.t);
      if e.Send? then q == Transmit(p, Load(e.id, e.data, e.other)) && p.me.base.dev.running
      else q == Poll(p, e.budget, e.fails)
  {
    hide Transmit, Poll, Load;
  }

  lemma EventHandles(s: NState, e: NEvent)
    requires NInv(s.View(0)) && NEnabled(s, e)
    ensures var p, q := s.View(e.t), NNext(s, e).View(e.t);
      && q.twin.base.dev.handled == p.twin.base.dev.handled
      && Flags(q.me.base.dev.handled) == Flags(p.me.base.dev.handled)
           + if e.DoPoll? then PollFlags(PollRounds(p.me.base.dev, e.budget), e.fails) else []
  {
    EventView(s, e);
    NView(s, e.t);
    hide Flags, PollFlags, PollRounds, Transmit, Poll, NInv, Load, NNext, NEnabled;
    var p := s.View(e.t);
    if e.Send? {
      TransmitHandlesNothing(p, Load(e.id, e.data, e.other));
    } else {
      PollHandles(p, e.budget, e.fails);
    }
  }

  lemma StepFlags(s: NState, e: NEvent, t: Id)
    requires NInv(s.View(0)) && NEnabled(s, e)
    ensures var d := s.View(t).me.base.dev;
      Flags(NNext(s, e).View(t).me.base.dev.handled) == Flags(d.handled)
        + if e.DoPoll? && e.t == t then PollFlags(PollRounds(d, e.budget), e.fails) else []
  {
    EventHandles(s, e);
    ViewPut(s, e.t, t, NNext(s, e).View(e.t));
    hide Flags, PollFlags, PollRounds, NNext, NEnabled, NInv;
    ViewPut(NNext(s, e), e.t, t, NNext(s, e).View(e.t));
  }

  lemma {:induction false} NRunFlags(s: NState, run: seq<NEvent>, s': NState, t: Id)
    requires NInv(s.View(0)) && NReaches(s, run, s')
    ensures Flags(s'.View(t).me.base.dev.handled) == Flags(s.View(t).me.base.dev.handled) + NOutcomes(s, run, t)
    decreases run
  {
    hide NInv, NNext, NEnabled, Flags;
    if run == [] {
    } else {
      var e, next := run[0], NNext(s, run[0]);
      var d := s.View(t).me.base.dev;
      StepFlags(s, e, t);
      NNextKeepsInv(s, e);
      NRunFlags(next, run[1..], s', t);
      Associate(Flags(d.handled),
                if e.DoPoll? && e.t == t then PollFlags(PollRounds(d, e.budget), e.fails) else [],
                NOutcomes(next, run[1..], t));
    }
  }

  lemma {:induction false} DeliveredIsCount(h: seq<Handled>)
    ensures DeliveredCount(h) == Count(Flags(h), true)
    ensures DeliveredCount(h) + Count(Flags(h), false) == |h|
  {
    if h == [] {
    } else {
      var n := |h| - 1;
      DeliveredIsCount(h[..n]);
      assert Flags(h) == Flags(h[..n]) + [h[n].delivered];
      CountJoins(Flags(h[..n]), [h[n].delivered], true);
      CountJoins(Flags(h[..n]), [h[n].delivered], false);
      OneFlag(h[n].delivered);
    }
  }

  lemma RunFollows(s0: NState, run: seq<NEvent>, s: NState, t: Id)
    requires NInit(s0) && NReaches(s0, run, s)
    ensures Flags(s.View(t).me.base.dev.handled) == NOutcomes(s0, run, t)
  {
    StartHandledNothing(s0, t);
    NInitInv(s0);
    hide NInit, NInv, NReaches, Flags, NOutcomes;
    NRunFlags(s0, run, s, t);
    assert [] + NOutcomes(s0, run, t) == NOutcomes(s0, run, t);
  }

  /** In every run: the frames a device handles are delivered or dropped as the allocations of its
      polls go, round by round, and the receive counters count just that. */
  lemma PollsFollowAllocations(s0: NState, run: seq<NEvent>, s: NState, t: Id)
    requires NInit(s0) && NReaches(s0, run, s)
    ensures var d, oks := s.View(t).me.base.dev, NOutcomes(s0, run, t);
      && |d.handled| == |oks|
      && (forall k :: 0 <= k < |oks| ==> d.handled[k].delivered == oks[k])
      && d.stats.rxPackets == Count(oks, true) && d.stats.rxDropped == Count(oks, false)
      && d.stats.rxBytes == DeliveredBytes(d.handled)
  {
    var d := s.View(t).me.base.dev;
    RunFollows(s0, run, s, t);
    CountersMatch(s0, run, s, t);
    DeliveredIsCount(d.handled);
    hide Flags, Count, NOutcomes, DeliveredCount, DeliveredBytes, NInit, NReaches;
    assert Flags(d.handled) == NOutcomes(s0, run, t);
  }

  lemma CountersMatch(s0: NState, run: seq<NEvent>, s: NState, t: Id)
    requires NInit(s0) && NReaches(s0, run, s)
    ensures var d := s.View(t).me.base.dev;
      && d.stats.rxPackets == DeliveredCount(d.handled)
      && d.stats.rxPackets + d.stats.rxDropped == |d.handled|
      && d.stats.rxBytes == DeliveredBytes(d.handled)
  {
    NRunInv(s0, run, s, t);
  }

  lemma StartHandledNothing(s0: NState, t: Id)
    requires NInit(s0)
    ensures Flags(s0.View(t).me.base.dev.handled) == [] && s0.View(t).me.base.sent == []
  {
    assert Fresh(s0.View(t).me.base);
  }

  /** In every run, after every transmission: each skb asked for has been freed once, in order, and
      forgotten, and its frame counted. */
  lemma NSkbsFreedOnce(s0: NState, run: seq<NEvent>, s: NState, t: Id)
    requires NInit(s0) && NReaches(s0, run, s)
    ensures var asked, d := NRequests(run, t), s.View(t).me.base.dev;
      && |d.freed| == |asked| && (forall k :: 0 <= k < |asked| ==> d.freed[k] == Some(asked[k]))
      && d.stats.txPackets == |asked| && d.stats.txBytes == FrameBytes(asked) && d.skb == None
  {
    StartHandledNothing(s0, t);
    NSentIsRequests(s0, run, s, t);
    assert [] + NRequests(run, t) == NRequests(run, t);
    NRunInv(s0, run, s, t);
  }

  // ---------------------------------------------------------------- draining as a run

  function DoPolls(t: Id, budget: nat, fails: seq<set<nat>>): (run: seq<NEvent>)
    ensures |run| == |fails|
    decreases fails
  {
    if fails == [] then [] else [DoPoll(t, budget, fails[0])] + DoPolls(t, budget, fails[1..])
  }

  lemma OnePollRun(s: NState, t: Id, budget: nat, fails: set<nat>)
    requires s.View(t).me.scheduled && budget > 0
    ensures NEnabled(s, DoPoll(t, budget, fails))
    ensures NNext(s, DoPoll(t, budget, fails)).View(t) == Poll(s.View(t), budget, fails)
  {
    ViewPut(s, t, t, Poll(s.View(t), budget, fails));
  }

  lemma {:induction false} PollsAreARun(s: NState, t: Id, budget: nat, fails: seq<set<nat>>) returns (end: NState)
    requires budget > 0
    requires forall j :: 0 <= j < |fails| ==> Polls(s.View(t), budget, fails[..j]).me.scheduled
    ensures NReaches(s, DoPolls(t, budget, fails), end) && end.View(t) == Polls(s.View(t), budget, fails)
    decreases fails
  {
    hide Poll, NNext, NEnabled;
    if fails == [] {
      end := s;
    } else {
      assert fails[..0] == [];
      OnePollRun(s, t, budget, fails[0]);
      var next := NNext(s, DoPoll(t, budget, fails[0]));
      forall j | 0 <= j < |fails[1..]|
        ensures Polls(next.View(t), budget, fails[1..][..j]).me.scheduled
      {
        assert fails[..j + 1][1..] == fails[1..][..j] && fails[..j + 1][0] == fails[0];
        assert Polls(s.View(t), budget, fails[..j + 1]).me.scheduled;
      }
      end := PollsAreARun(next, t, budget, fails[1..]);
    }
  }

  /** From every reachable state with n packets waiting at a polling device, the run of n / budget + 1
      polls is possible; it handles all of them, newest first, and leaves the device listening. */
  lemma DrainingRun(s0: NState, run: seq<NEvent>, s: NState, t: Id, budget: nat, fails: seq<set<nat>>)
    returns (end: NState)
    requires NInit(s0) && NReaches(s0, run, s) && s.View(t).me.scheduled && budget > 0
    requires |fails| == |s.View(t).me.base.dev.rxq| / budget + 1
    ensures NReaches(s, DoPolls(t, budget, fails), end)
    ensures var d, r := s.View(t).me.base.dev, end.View(t).me.base.dev;
      && r.rxq == [] && r.rxInt && !end.View(t).me.scheduled
      && Received(r.handled) == Received(d.handled) + Frames(d.rxq)
  {
    var p := s.View(t);
    ReachableIsCalm(s0, run, s, t);
    DrainTakesExactly(p, budget, fails);
    end := PollsAreARun(s, t, budget, fails);
  }
}
