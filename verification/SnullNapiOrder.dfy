/** When polling mode keeps the sending order: exactly when nothing waits at the twin as a frame is sent. */
module SnullNapiOrder {
  import opened Common
  import opened IpHeader
  import opened SnullTypes
  import opened SnullRegular
  import opened SnullRegularProof
  import opened SnullNapi
  import opened SnullNapiTheorems
  import opened SnullNapiDrain

  /** The order in which the twin has handled, and will handle if nothing more is sent, my frames. */
  function Arrival(p: NPair): seq<seq<byte>> {
    Received(p.twin.base.dev.handled) + Frames(p.twin.base.dev.rxq)
  }

  function FramesOf(s: seq<Skb>): (r: seq<seq<byte>>)
    ensures |r| == |s|
    ensures forall k :: 0 <= k < |s| ==> r[k] == s[k].frame
  {
    seq(|s|, k requires 0 <= k < |s| => s[k].frame)
  }

  function Sent(p: NPair): seq<seq<byte>> {
    FramesOf(p.me.base.sent)
  }

  predicate Distinct(s: seq<seq<byte>>) {
    forall j, k :: 0 <= j < k < |s| ==> s[j] != s[k]
  }

  /** The run can be made from s, and whenever t sends in it, nothing waits at the twin. */
  predicate Spaced(s: NState, run: seq<NEvent>, t: Id)
    decreases run
  {
    run == [] ||
    (&& NEnabled(s, run[0])
     && (run[0].Send? && run[0].t == t ==> s.View(t).twin.base.dev.rxq == [])
     && Spaced(NNext(s, run[0]), run[1..], t))
  }

  // ---------------------------------------------------------------- one step

  /** A frame arrives behind what has been handled and before all that waits. */
  lemma SendArrival(p: NPair, skb: Skb)
    requires ListenInv(p.me) && ListenInv(p.twin) && p.me.base.dev.pool != []
    ensures var q := Transmit(p, skb);
      && Sent(q) == Sent(p) + [skb.frame]
      && Arrival(q) == Received(p.twin.base.dev.handled) + [skb.frame] + Frames(p.twin.base.dev.rxq)
      && |q.twin.base.dev.rxq| == |p.twin.base.dev.rxq| + 1
      && Arrival(NSwap(q)) == Arrival(NSwap(p)) && Sent(NSwap(q)) == Sent(NSwap(p))
      && q.me.base.dev.rxq == p.me.base.dev.rxq
  {
    TransmitEffect(p, skb);
    var q, waiting := Transmit(p, skb), p.twin.base.dev.rxq;
    var e := Entry(p.me.base.dev.pool[0], skb.frame);
    assert Frames([e] + waiting) == [skb.frame] + Frames(waiting);
    Associate(Received(p.twin.base.dev.handled), [skb.frame], Frames(waiting));
    assert Sent(q) == Sent(p) + [skb.frame];
  }

  lemma {:induction false} PollLoopSparesTwin(p: NPair, n: nat, budget: nat, fails: set<nat>)
    requires Places(p.Base())
    ensures var q := PollLoop(p, n, budget, fails).0;
      q.twin.base.dev.rxq == p.twin.base.dev.rxq && q.twin.base.dev.handled == p.twin.base.dev.handled
    decreases budget - n
  {
    if n >= budget || p.me.base.dev.rxq == [] {
    } else {
      PollOneEffect(p, n !in fails);
      PollLoopSparesTwin(PollOne(p, n !in fails), n + 1, budget, fails);
    }
  }

  /** A poll turns waiting frames into handled ones without changing the order. */
  lemma PollArrival(p: NPair, budget: nat, fails: set<nat>)
    requires Ready(p) && budget > 0
    ensures var q := Poll(p, budget, fails);
      && Arrival(NSwap(q)) == Arrival(NSwap(p)) && Arrival(q) == Arrival(p)
      && |q.me.base.dev.rxq| <= |p.me.base.dev.rxq| && q.twin.base.dev.rxq == p.twin.base.dev.rxq
      && Sent(NSwap(q)) == Sent(NSwap(p)) && Sent(q) == Sent(p)
  {
    PollTakesNewest(p, budget, fails);
    PollLoopSparesTwin(p, 0, budget, fails);
    PollLoopKeepsSent(p, 0, budget, fails);
    var k := if |Waiting(p)| <= budget then |Waiting(p)| else budget;
    assert Waiting(p) == Waiting(p)[..k] + Waiting(p)[k..];
    Associate(Received(p.me.base.dev.handled), Waiting(p)[..k], Waiting(p)[k..]);
  }

  function Frame(e: NEvent): seq<byte>
    requires e.Send?
  {
    Wire(e.data, e.other)
  }

  predicate SendsFrom(e: NEvent, t: Id) {
    e.Send? && e.t == t
  }

  /** Only a send of t changes the order of its frames, by putting one before all that wait. */
  lemma StepOrder(s: NState, e: NEvent, t: Id)
    requires NInv(s.View(0)) && NEnabled(s, e)
    ensures var p, q := s.View(t), NNext(s, e).View(t);
      if SendsFrom(e, t) then
        && Sent(q) == Sent(p) + [Frame(e)]
        && Arrival(q) == Received(p.twin.base.dev.handled) + [Frame(e)] + Frames(p.twin.base.dev.rxq)
        && |q.twin.base.dev.rxq| == |p.twin.base.dev.rxq| + 1
      else
        Sent(q) == Sent(p) && Arrival(q) == Arrival(p) && |q.twin.base.dev.rxq| <= |p.twin.base.dev.rxq|
  {
    NView(s, e.t);
    ViewPut(s, e.t, t, NNext(s, e).View(e.t));
    match e
    case Send(_, id, data, other) => SendArrival(s.View(e.t), Load(id, data, other));
    case DoPoll(_, budget, fails) => PollArrival(s.View(e.t), budget, fails);
  }

  // ---------------------------------------------------------------- spaced runs keep the order

  lemma {:induction false} SpacedKeepsOrder(s: NState, run: seq<NEvent>, s': NState, t: Id)
    requires NInv(s.View(0)) && NReaches(s, run, s') && Spaced(s, run, t)
    requires Arrival(s.View(t)) == Sent(s.View(t)) && |s.View(t).twin.base.dev.rxq| <= 1
    ensures Arrival(s'.View(t)) == Sent(s'.View(t)) && |s'.View(t).twin.base.dev.rxq| <= 1
    decreases run
  {
    hide NInv;
    if run == [] {
    } else {
      StepOrder(s, run[0], t);
      NNextKeepsInv(s, run[0]);
      SpacedKeepsOrder(NNext(s, run[0]), run[1..], s', t);
    }
  }

  // ---------------------------------------------------------------- other runs do not

  /** Some f stands before some g. */
  predicate Before(a: seq<seq<byte>>, f: seq<byte>, g: seq<byte>) {
    exists i, j :: 0 <= i < j < |a| && a[i] == f && a[j] == g
  }

  lemma InsertKeepsBefore(a: seq<seq<byte>>, x: seq<byte>, b: seq<seq<byte>>, f: seq<byte>, g: seq<byte>)
    requires Before(a + b, f, g)
    ensures Before(a + [x] + b, f, g)
  {
    var i, j :| 0 <= i < j < |a + b| && (a + b)[i] == f && (a + b)[j] == g;
    var i', j' := if i < |a| then i else i + 1, if j < |a| then j else j + 1;
    var c := a + [x] + b;
    assert c[i'] == f && c[j'] == g;
  }

  lemma AppendKeepsBefore(a: seq<seq<byte>>, x: seq<byte>, f: seq<byte>, g: seq<byte>)
    requires Before(a, f, g)
    ensures Before(a + [x], f, g)
  {
    assert a + [] == a && a + [x] + [] == a + [x];
    InsertKeepsBefore(a, x, [], f, g);
  }

  /** f was sent after g but comes before it. */
  predicate Overtakes(p: NPair, f: seq<byte>, g: seq<byte>) {
    Before(Arrival(p), f, g) && Before(Sent(p), g, f)
  }

  lemma StepKeepsInversion(s: NState, e: NEvent, t: Id, f: seq<byte>, g: seq<byte>)
    requires NInv(s.View(0)) && NEnabled(s, e) && Overtakes(s.View(t), f, g)
    ensures Overtakes(NNext(s, e).View(t), f, g)
  {
    StepOrder(s, e, t);
    if SendsFrom(e, t) {
      var p := s.View(t);
      InsertKeepsBefore(Received(p.twin.base.dev.handled), Frame(e), Frames(p.twin.base.dev.rxq), f, g);
      AppendKeepsBefore(Sent(p), Frame(e), g, f);
    }
  }

  lemma {:induction false} InversionStays(s: NState, run: seq<NEvent>, s': NState, t: Id, f: seq<byte>, g: seq<byte>)
    requires NInv(s.View(0)) && NReaches(s, run, s') && Overtakes(s.View(t), f, g)
    ensures Overtakes(s'.View(t), f, g)
    decreases run
  {
    hide NInv;
    if run == [] {
    } else {
      StepKeepsInversion(s, run[0], t, f, g);
      NNextKeepsInv(s, run[0]);
      InversionStays(NNext(s, run[0]), run[1..], s', t, f, g);
    }
  }

  /** Every frame on its way or handled has been sent. */
  predicate Known(p: NPair) {
    forall f :: f in Arrival(p) ==> f in Sent(p)
  }

  lemma StepKeepsKnown(s: NState, e: NEvent, t: Id)
    requires NInv(s.View(0)) && NEnabled(s, e) && Known(s.View(t))
    ensures Known(NNext(s, e).View(t))
  {
    StepOrder(s, e, t);
    if SendsFrom(e, t) {
      var p := s.View(t);
      InsertedIsKnown(Received(p.twin.base.dev.handled), Frame(e), Frames(p.twin.base.dev.rxq), Sent(p));
    }
  }

  lemma InsertedIsKnown(h: seq<seq<byte>>, f: seq<byte>, waiting: seq<seq<byte>>, sent: seq<seq<byte>>)
    requires forall x :: x in h + waiting ==> x in sent
    ensures forall x :: x in h + [f] + waiting ==> x in sent + [f]
  {
    forall x | x in h + [f] + waiting
      ensures x in sent + [f]
    {
      assert x == f || x in h + waiting;
    }
  }

  /** Sending while the twin has frames waiting overtakes the one on top. */
  lemma SendOvertakes(s: NState, e: NEvent, t: Id) returns (f: seq<byte>, g: seq<byte>)
    requires NInv(s.View(0)) && NEnabled(s, e) && Known(s.View(t))
    requires SendsFrom(e, t) && s.View(t).twin.base.dev.rxq != []
    ensures Overtakes(NNext(s, e).View(t), f, g)
  {
    StepOrder(s, e, t);
    var p := s.View(t);
    var waiting := Frames(p.twin.base.dev.rxq);
    f, g := Frame(e), waiting[0];
    InsertedComesBefore(Received(p.twin.base.dev.handled), f, waiting, Sent(p));
  }

  lemma InsertedComesBefore(h: seq<seq<byte>>, f: seq<byte>, waiting: seq<seq<byte>>, sent: seq<seq<byte>>)
    requires waiting != [] && forall x :: x in h + waiting ==> x in sent
    ensures Before(h + [f] + waiting, f, waiting[0]) && Before(sent + [f], waiting[0], f)
  {
    var a := h + [f] + waiting;
    assert a[|h|] == f && a[|h| + 1] == waiting[0];
    assert (h + waiting)[|h|] == waiting[0];
    assert waiting[0] in h + waiting;
    var k :| 0 <= k < |sent| && sent[k] == waiting[0];
    assert (sent + [f])[k] == waiting[0] && (sent + [f])[|sent|] == f;
  }

  lemma {:induction false} UnspacedOvertakes(s: NState, run: seq<NEvent>, s': NState, t: Id)
    returns (f: seq<byte>, g: seq<byte>)
    requires NInv(s.View(0)) && NReaches(s, run, s') && !Spaced(s, run, t) && Known(s.View(t))
    ensures Overtakes(s'.View(t), f, g)
    decreases run
  {
    hide NInv;
    var e, next := run[0], NNext(s, run[0]);
    NNextKeepsInv(s, e);
    if SendsFrom(e, t) && s.View(t).twin.base.dev.rxq != [] {
      f, g := SendOvertakes(s, e, t);
      InversionStays(next, run[1..], s', t, f, g);
    } else {
      StepKeepsKnown(s, e, t);
      f, g := UnspacedOvertakes(next, run[1..], s', t);
    }
  }

  lemma DistinctHasOneOrder(s: seq<seq<byte>>, f: seq<byte>, g: seq<byte>)
    requires Distinct(s) && Before(s, f, g)
    ensures !Before(s, g, f)
  {
  }

  // ---------------------------------------------------------------- every run

  lemma StartIsInOrder(s0: NState, t: Id)
    requires NInit(s0)
    ensures Arrival(s0.View(t)) == [] && Sent(s0.View(t)) == []
    ensures s0.View(t).twin.base.dev.rxq == [] && s0.View(t).me.base.sent == []
  {
    assert Fresh(s0.View(t).me.base) && Fresh(s0.View(t).twin.base);
  }

  lemma SentWasAsked(s0: NState, run: seq<NEvent>, s: NState, t: Id)
    requires NInit(s0) && NReaches(s0, run, s)
    ensures Sent(s.View(t)) == FramesOf(NRequests(run, t))
  {
    StartIsInOrder(s0, t);
    NSentIsRequests(s0, run, s, t);
    assert [] + NRequests(run, t) == NRequests(run, t);
  }

  /** If nothing waits at the twin whenever t sends, its frames are handled in sending order, with
      never more than one waiting. */
  lemma SpacedRunsKeepOrder(s0: NState, run: seq<NEvent>, s: NState, t: Id)
    requires NInit(s0) && NReaches(s0, run, s) && Spaced(s0, run, t)
    ensures var asked, twin := NRequests(run, t), s.View(t).twin.base.dev;
      && |twin.rxq| <= 1 && |twin.handled| + |twin.rxq| == |asked|
      && (forall k :: 0 <= k < |twin.handled| ==> twin.handled[k].frame == asked[k].frame)
      && Arrival(s.View(t)) == FramesOf(asked)
  {
    SpacedRunArrival(s0, run, s, t);
    HandledIsPrefix(s.View(t).twin.base.dev.handled, s.View(t).twin.base.dev.rxq, NRequests(run, t));
  }

  lemma SpacedRunArrival(s0: NState, run: seq<NEvent>, s: NState, t: Id)
    requires NInit(s0) && NReaches(s0, run, s) && Spaced(s0, run, t)
    ensures |s.View(t).twin.base.dev.rxq| <= 1
    ensures Arrival(s.View(t)) == FramesOf(NRequests(run, t))
  {
    StartIsInOrder(s0, t);
    NInitInv(s0);
    SpacedKeepsOrder(s0, run, s, t);
    SentWasAsked(s0, run, s, t);
  }

  lemma HandledIsPrefix(h: seq<Handled>, q: seq<Entry>, asked: seq<Skb>)
    requires Received(h) + Frames(q) == FramesOf(asked)
    ensures |h| + |q| == |asked|
    ensures forall k :: 0 <= k < |h| ==> h[k].frame == asked[k].frame
  {
    assert |FramesOf(asked)| == |h| + |q|;
    forall k | 0 <= k < |h|
      ensures h[k].frame == asked[k].frame
    {
      assert FramesOf(asked)[k] == Received(h)[k];
    }
  }

  /** For frames that can be told apart, the twin handles them in sending order exactly in the runs
      where nothing waited at the twin whenever t sent. */
  lemma OrderKeptIffSpaced(s0: NState, run: seq<NEvent>, s: NState, t: Id)
    requires NInit(s0) && NReaches(s0, run, s) && Distinct(FramesOf(NRequests(run, t)))
    ensures var asked, twin := FramesOf(NRequests(run, t)), s.View(t).twin.base.dev;
      && (Arrival(s.View(t)) == asked <==> Spaced(s0, run, t))
      && (twin.rxq == [] ==> (Received(twin.handled) == asked <==> Spaced(s0, run, t)))
  {
    var twin := s.View(t).twin.base.dev;
    if Spaced(s0, run, t) {
      SpacedRunsKeepOrder(s0, run, s, t);
    } else {
      StartIsInOrder(s0, t);
      NInitInv(s0);
      SentWasAsked(s0, run, s, t);
      var f, g := UnspacedOvertakes(s0, run, s, t);
      if Arrival(s.View(t)) == Sent(s.View(t)) {
        DistinctHasOneOrder(Sent(s.View(t)), f, g);
      }
    }
    if twin.rxq == [] {
      assert Received(twin.handled) + [] == Received(twin.handled);
    }
  }

  // ---------------------------------------------------------------- the shortest run that reorders

  lemma SendIsEnabled(s: NState, e: NEvent)
    requires NInv(s.View(0)) && e.Send? && Transmittable(e.data) && s.View(e.t).me.base.dev.pool != []
    ensures NEnabled(s, e)
    ensures NNext(s, e).View(e.t) == Transmit(s.View(e.t), Load(e.id, e.data, e.other))
  {
    NView(s, e.t);
    ViewPut(s, e.t, e.t, NNext(s, e).View(e.t));
  }

  lemma TwoSends(p: NPair, a: Skb, b: Skb)
    ensures Sends(p, [a, b]) == Transmit(Transmit(p, a), b)
    ensures Reversed([a, b]) == [b.frame, a.frame]
  {
    assert [a, b][1..] == [b];
    assert [b][1..] == [];
    assert Sends(Transmit(p, a), [b]) == Sends(Transmit(Transmit(p, a), b), []);
    assert Reversed([b]) == [b.frame];
  }

  lemma OnePoll(p: NPair, budget: nat, fails: set<nat>)
    ensures Polls(p, budget, [fails]) == Poll(p, budget, fails)
  {
    assert Polls(Poll(p, budget, fails), budget, []) == Poll(p, budget, fails);
  }

  /** Two frames sent before the twin polls are handled in the other order. */
  lemma TwoFramesSwap(p: NPair, a: Skb, b: Skb)
    requires Calm(p) && |p.me.base.dev.pool| >= 2 && p.twin.base.dev.rxq == [] && p.twin.base.dev.handled == []
    ensures var q := Transmit(Transmit(p, a), b);
      Received(Poll(NSwap(q), 64, {}).me.base.dev.handled) == [b.frame, a.frame] && q.twin.scheduled
  {
    TwoSends(p, a, b);
    BurstIsStacked(p, [a, b]);
    BurstArrivesReversed(p, [a, b], 64, [{}]);
    OnePoll(NSwap(Sends(p, [a, b])), 64, {});
  }

  lemma ThreeSteps(s0: NState, e0: NEvent, e1: NEvent, e2: NEvent)
    requires NEnabled(s0, e0) && NEnabled(NNext(s0, e0), e1) && NEnabled(NNext(NNext(s0, e0), e1), e2)
    ensures NReaches(s0, [e0, e1, e2], NNext(NNext(NNext(s0, e0), e1), e2))
    ensures e1.Send? && NNext(s0, e0).View(e1.t).twin.base.dev.rxq != [] ==> !Spaced(s0, [e0, e1, e2], e1.t)
  {
    var s1 := NNext(s0, e0);
    var s2 := NNext(s1, e1);
    assert NReaches(s2, [e2], NNext(s2, e2)) by { assert [e2][1..] == []; }
    assert [e1, e2][1..] == [e2] && [e0, e1, e2][1..] == [e1, e2];
    assert NReaches(s1, [e1, e2], NNext(s2, e2));
  }

  /** So the run that sends two frames and then polls is possible and not spaced, and it swaps them. */
  lemma SwappingRun(s0: NState, t: Id, d0: seq<byte>, d1: seq<byte>) returns (run: seq<NEvent>, s: NState)
    requires NInit(s0) && |s0.View(t).me.base.dev.pool| >= 2
    requires Transmittable(d0) && Transmittable(d1)
    ensures run == [Send(t, 0, d0, 0), Send(t, 1, d1, 0), DoPoll(Twin(t), 64, {})]
    ensures NReaches(s0, run, s) && !Spaced(s0, run, t)
    ensures Received(s.View(t).twin.base.dev.handled) == [Wire(d1, 0), Wire(d0, 0)]
  {
    var e0, e1, e2 := Send(t, 0, d0, 0), Send(t, 1, d1, 0), DoPoll(Twin(t), 64, {});
    var p := s0.View(t);
    NInitInv(s0);
    NView(s0, t);
    SendIsEnabled(s0, e0);
    var s1 := NNext(s0, e0);
    NNextKeepsInv(s0, e0);
    SendArrival(p, Load(0, d0, 0));
    PushOnce(p, Load(0, d0, 0));
    SendIsEnabled(s1, e1);
    var s2 := NNext(s1, e1);
    StartIsInOrder(s0, t);
    TwoFramesSwap(p, Load(0, d0, 0), Load(1, d1, 0));
    ViewPut(s2, Twin(t), t, Poll(s2.View(Twin(t)), 64, {}));
    ThreeSteps(s0, e0, e1, e2);
    run, s := [e0, e1, e2], NNext(s2, e2);
  }
}
