/** How a backlog builds up and is drained in polling mode. */
module SnullNapiDrain {
  import opened Common
  import opened Arithmetic
  import opened SnullTypes
  import opened SnullRegularProof
  import opened SnullNapi
  import opened SnullNapiTheorems

  /** Consecutive polls of one device, the k-th failing to allocate in the rounds of fails[k]. */
  function Polls(p: NPair, budget: nat, fails: seq<set<nat>>): NPair
    decreases fails
  {
    if fails == [] then p else Polls(Poll(p, budget, fails[0]), budget, fails[1..])
  }

  function Waiting(p: NPair): seq<seq<byte>> {
    Frames(p.me.base.dev.rxq)
  }

  function Frames(q: seq<Entry>): (r: seq<seq<byte>>)
    ensures |r| == |q|
  {
    seq(|q|, k requires 0 <= k < |q| => q[k].frame)
  }

  function Received(h: seq<Handled>): (r: seq<seq<byte>>)
    ensures |r| == |h|
  {
    seq(|h|, k requires 0 <= k < |h| => h[k].frame)
  }

  /** A device with a poll scheduled; every reachable state has its packets in their places. */
  predicate Ready(p: NPair) {
    Places(p.Base()) && p.me.scheduled
  }

  lemma {:induction false} OutcomesFrames(q: seq<Entry>, n: nat, fails: set<nat>)
    ensures Received(Outcomes(q, n, fails)) == Frames(q)
  {
    if q == [] {
    } else {
      OutcomesFrames(q[1..], n + 1, fails);
      assert Received(Outcomes(q, n, fails)) == [q[0].frame] + Received(Outcomes(q[1..], n + 1, fails));
      assert Frames(q) == [q[0].frame] + Frames(q[1..]);
    }
  }

  lemma ReceivedAppend(a: seq<Handled>, b: seq<Handled>)
    ensures Received(a + b) == Received(a) + Received(b)
  {
  }

  /** One poll handles the newest frames first, as many as the budget allows, and polling goes on
      exactly if the whole budget was used. */
  lemma PollTakesNewest(p: NPair, budget: nat, fails: set<nat>)
    requires Ready(p) && budget > 0
    ensures var q := Poll(p, budget, fails);
      var k := if |Waiting(p)| <= budget then |Waiting(p)| else budget;
      && Waiting(q) == Waiting(p)[k..]
      && Received(q.me.base.dev.handled) == Received(p.me.base.dev.handled) + Waiting(p)[..k]
      && Places(q.Base())
      && (q.me.scheduled <==> |Waiting(p)| >= budget)
      && (|Waiting(p)| < budget ==> q.me.base.dev.rxInt)
  {
    PollLoopTakes(p, 0, budget, fails);
    var rxq := p.me.base.dev.rxq;
    var k := Rounds(p, 0, budget);
    OutcomesFrames(rxq[..k], 0, fails);
    ReceivedAppend(p.me.base.dev.handled, Outcomes(rxq[..k], 0, fails));
    assert Frames(rxq[..k]) == Frames(rxq)[..k];
    assert Frames(rxq[k..]) == Frames(rxq)[k..];
  }

  /** n budgets. */
  function Times(n: nat, budget: nat): nat {
    if n == 0 then 0 else budget + Times(n - 1, budget)
  }

  lemma {:induction false} TimesIs(n: nat, budget: nat)
    ensures Times(n, budget) == n * budget
  {
    if n == 0 {
    } else {
      TimesIs(n - 1, budget);
    }
  }

  lemma TimesFits(n: nat, budget: nat, waiting: nat)
    requires budget > 0 && n <= waiting / budget
    ensures Times(n, budget) <= waiting
  {
    TimesIs(n, budget);
    assert waiting == waiting / budget * budget + waiting % budget;
    MulGap(budget, n - waiting / budget - 1);
  }

  /** As long as full budgets fit, every poll takes one and polling goes on. */
  lemma {:induction false} FullPolls(p: NPair, budget: nat, fails: seq<set<nat>>)
    requires Ready(p) && budget > 0
    requires Times(|fails|, budget) <= |Waiting(p)|
    ensures var q, k := Polls(p, budget, fails), Times(|fails|, budget);
      && Ready(q)
      && Waiting(q) == Waiting(p)[k..]
      && Received(q.me.base.dev.handled) == Received(p.me.base.dev.handled) + Waiting(p)[..k]
    decreases fails
  {
    hide Poll, Ready, Waiting, Received;
    if fails == [] {
      assert Waiting(p)[0..] == Waiting(p);
    } else {
      var p1, rest := Poll(p, budget, fails[0]), Times(|fails[1..]|, budget);
      FullPoll(p, budget, fails[0]);
      FullPolls(p1, budget, fails[1..]);
      JoinTakes(Received(p.me.base.dev.handled), Waiting(p), budget, rest);
    }
  }

  lemma FullPoll(p: NPair, budget: nat, fails: set<nat>)
    requires Ready(p) && 0 < budget <= |Waiting(p)|
    ensures var q := Poll(p, budget, fails);
      && Ready(q)
      && Waiting(q) == Waiting(p)[budget..]
      && Received(q.me.base.dev.handled) == Received(p.me.base.dev.handled) + Waiting(p)[..budget]
  {
    PollTakesNewest(p, budget, fails);
  }

  lemma JoinTakes(h: seq<seq<byte>>, s: seq<seq<byte>>, a: nat, b: nat)
    requires a + b <= |s|
    ensures (h + s[..a]) + s[a..][..b] == h + s[..a + b]
    ensures s[a..][b..] == s[a + b..]
  {
    SliceTwice(s, a, b);
    Associate(h, s[..a], s[a..][..b]);
  }

  lemma SliceTwice(s: seq<seq<byte>>, a: nat, b: nat)
    requires a + b <= |s|
    ensures s[a..][b..] == s[a + b..]
    ensures s[..a] + s[a..][..b] == s[..a + b]
  {
  }

  lemma {:induction false} PollsAppend(p: NPair, budget: nat, fails: seq<set<nat>>, last: set<nat>)
    ensures Polls(p, budget, fails + [last]) == Poll(Polls(p, budget, fails), budget, last)
    decreases fails
  {
    if fails == [] {
      assert Polls(Poll(p, budget, last), budget, []) == Poll(p, budget, last);
    } else {
      PollsAppend(Poll(p, budget, fails[0]), budget, fails[1..], last);
      assert (fails + [last])[1..] == fails[1..] + [last];
    }
  }

  /** With n packets waiting and nothing new, draining takes exactly n / budget + 1 polls, however
      allocations fail: after fewer the device still polls; after that many the queue is empty,
      interrupts are on again and the frames have been handled newest first. */
  lemma DrainTakesExactly(p: NPair, budget: nat, fails: seq<set<nat>>)
    requires Ready(p) && budget > 0
    requires |fails| == |Waiting(p)| / budget + 1
    ensures forall j :: 0 <= j < |fails| ==> Polls(p, budget, fails[..j]).me.scheduled
    ensures var q := Polls(p, budget, fails);
      && Waiting(q) == [] && !q.me.scheduled && q.me.base.dev.rxInt
      && Received(q.me.base.dev.handled) == Received(p.me.base.dev.handled) + Waiting(p)
  {
    forall j | 0 <= j < |fails|
      ensures Polls(p, budget, fails[..j]).me.scheduled
    {
      TimesFits(j, budget, |Waiting(p)|);
      FullPolls(p, budget, fails[..j]);
    }
    var m := |fails| - 1;
    PollsAppend(p, budget, fails[..m], fails[m]);
    assert fails[..m] + [fails[m]] == fails;
    LastPoll(p, budget, fails[..m], fails[m]);
  }

  lemma LastPoll(p: NPair, budget: nat, full: seq<set<nat>>, last: set<nat>)
    requires Ready(p) && budget > 0
    requires |full| == |Waiting(p)| / budget
    ensures var q := Poll(Polls(p, budget, full), budget, last);
      && Waiting(q) == [] && !q.me.scheduled && q.me.base.dev.rxInt
      && Received(q.me.base.dev.handled) == Received(p.me.base.dev.handled) + Waiting(p)
  {
    hide Poll, Ready, Waiting, Received;
    var q, n, k := Polls(p, budget, full), |Waiting(p)|, Times(|full|, budget);
    TimesFits(|full|, budget, n);
    TimesIs(|full|, budget);
    assert n == n / budget * budget + n % budget;
    FullPolls(p, budget, full);
    PollTakesNewest(q, budget, last);
    SliceTwice(Waiting(p), k, n - k);
    assert Waiting(p)[..n] == Waiting(p) && Waiting(q)[..n - k] == Waiting(q);
    Associate(Received(p.me.base.dev.handled), Waiting(p)[..k], Waiting(q));
  }

  // ---------------------------------------------------------------- a burst arrives reversed

  function Sends(p: NPair, skbs: seq<Skb>): NPair
    decreases skbs
  {
    if skbs == [] then p else Sends(Transmit(p, skbs[0]), skbs[1..])
  }

  function Reversed(s: seq<Skb>): (r: seq<seq<byte>>)
    ensures |r| == |s|
  {
    if s == [] then [] else Reversed(s[1..]) + [s[0].frame]
  }

  /** Between steps of either device. */
  predicate Calm(p: NPair) {
    Places(p.Base()) && ListenInv(p.me) && ListenInv(p.twin)
  }

  lemma PushOnce(p: NPair, skb: Skb)
    requires Calm(p) && p.me.base.dev.pool != []
    ensures var q := Transmit(p, skb);
      && Calm(q) && q.twin.scheduled
      && |q.me.base.dev.pool| == |p.me.base.dev.pool| - 1
      && Waiting(NSwap(q)) == [skb.frame] + Waiting(NSwap(p))
      && q.twin.base.dev.handled == p.twin.base.dev.handled
  {
    TransmitEffect(p, skb);
    var e := Entry(p.me.base.dev.pool[0], skb.frame);
    assert Frames([e] + p.twin.base.dev.rxq) == [skb.frame] + Frames(p.twin.base.dev.rxq);
  }

  /** Packets pushed while nobody polls lie on the twin's queue in reverse order. */
  lemma {:induction false} BurstIsStacked(p: NPair, skbs: seq<Skb>)
    requires Calm(p) && |skbs| <= |p.me.base.dev.pool|
    ensures var q := Sends(p, skbs);
      && Calm(q)
      && Waiting(NSwap(q)) == Reversed(skbs) + Waiting(NSwap(p))
      && q.twin.base.dev.handled == p.twin.base.dev.handled
      && (skbs != [] ==> q.twin.scheduled)
    decreases skbs
  {
    if skbs == [] {
      assert Reversed(skbs) + Waiting(NSwap(p)) == Waiting(NSwap(p));
    } else {
      PushOnce(p, skbs[0]);
      BurstIsStacked(Transmit(p, skbs[0]), skbs[1..]);
      Associate(Reversed(skbs[1..]), [skbs[0].frame], Waiting(NSwap(p)));
    }
  }

  /** So a burst sent into an empty queue and then drained arrives in reverse order, each frame once. */
  lemma BurstArrivesReversed(p: NPair, skbs: seq<Skb>, budget: nat, fails: seq<set<nat>>)
    requires Calm(p) && 0 < |skbs| <= |p.me.base.dev.pool| && budget > 0
    requires p.twin.base.dev.rxq == [] && |fails| == |skbs| / budget + 1
    ensures var q := Polls(NSwap(Sends(p, skbs)), budget, fails);
      && Waiting(q) == []
      && Received(q.me.base.dev.handled) == Received(p.twin.base.dev.handled) + Reversed(skbs)
  {
    BurstIsStacked(p, skbs);
    assert Reversed(skbs) + Waiting(NSwap(p)) == Reversed(skbs);
    DrainTakesExactly(NSwap(Sends(p, skbs)), budget, fails);
  }

  /** Every reachable state is calm, and ready for draining where a poll is scheduled. */
  lemma ReachableIsCalm(s0: NState, run: seq<NEvent>, s: NState, t: Id)
    requires NInit(s0) && NReaches(s0, run, s)
    ensures Calm(s.View(t)) && (s.View(t).me.scheduled ==> Ready(s.View(t)))
  {
    NRunInv(s0, run, s, t);
  }
}
