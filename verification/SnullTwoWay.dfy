/** Simulated lockups with both devices sending: exactly when a device's transmissions are still
    counted and their socket buffers freed once each. */
module SnullTwoWay {
  import opened Common
  import opened IpHeader
  import opened SnullTypes
  import opened SnullRegular
  import opened SnullRegularProof
  import opened SnullRegularTheorems

  // ---------------------------------------------------------------- a device's books

  /** What matters for the accounts of one sender: the buffers it was given and has freed, the one
      it remembers, whether its transmit bit is set, whether it is still to set it, and counters. */
  datatype Books = Books(sent: seq<Skb>, freed: seq<Option<Skb>>, skb: Option<Skb>,
                         pending: bool, raising: bool, len: nat, packets: nat, bytes: nat)

  /** On the way from remembering the skb to setting the transmit bit. */
  predicate Raising(pc: Pc) {
    Current(pc).Some? && !pc.TxRaised?
  }

  function BooksOf(x: Side): Books {
    Books(x.sent, x.dev.freed, x.dev.skb, x.dev.txPending, Raising(x.pc),
          x.dev.txLen, x.dev.stats.txPackets, x.dev.stats.txBytes)
  }

  /** What an event of the machine does to the books of one device. */
  datatype Act =
    | Remember(skb: Skb)  // a transmission starts
    | Raise               // it sets the transmit bit
    | Serve               // either thread runs the device's interrupt handler
    | Force               // the watchdog sets the bit and has it served
    | Other

  function ActOf(s: State, e: Event, t: Id): Act
    requires Enabled(s, e)
  {
    var pc := s.View(e.t).me.pc;
    match e
    case Start(_, id, data, other) => if e.t == t then Remember(Load(id, data, other)) else Other
    case Timeout(_) => if e.t == t then Force else Other
    case Step(_, _) =>
      if e.t == t then if pc.Looped? then Raise else if pc.TxRaised? then Serve else Other
      else if pc.Raised? then Serve else Other
  }

  function Settle(b: Books): Books {
    b.(freed := b.freed + [b.skb], pending := false, packets := b.packets + 1, bytes := b.bytes + b.len)
  }

  function Apply(b: Books, a: Act): Books {
    match a
    case Remember(skb) => b.(sent := b.sent + [skb], skb := Some(skb), raising := true)
    case Raise => b.(pending := true, raising := false, len := if b.sent == [] then 0 else |b.sent[|b.sent| - 1].frame|)
    case Serve => if b.pending then Settle(b) else b
    case Force => Settle(b)
    case Other => b
  }

  /** The remembered skb is always the last one given, also in the thread that transmits it. */
  predicate Remembers(x: Side) {
    && x.dev.skb == (if x.sent == [] then None else Some(x.sent[|x.sent| - 1]))
    && (Current(x.pc).Some? ==> Some(x.pc.cur) == x.dev.skb)
  }

  lemma InterruptBooks(x: Side, y: Side, ok: bool)
    requires y.dev == Interrupt(x.dev, ok).0 && y.sent == x.sent && Raising(y.pc) == Raising(x.pc)
    ensures BooksOf(y) == Apply(BooksOf(x), Serve)
  {
  }

  lemma ReleaseBooks(p: Pair, pkt: Packet)
    ensures var q := Release(p, pkt);
      && BooksOf(q.me) == BooksOf(p.me) && q.me.pc == p.me.pc
      && BooksOf(q.twin) == BooksOf(p.twin) && q.twin.pc == p.twin.pc
  {
  }

  lemma MoveBooks(p: Pair, lockup: nat, ok: bool)
    requires !p.me.pc.Idle? && (p.me.pc.Loaded? ==> p.me.dev.pool != []) && Remembers(p.me)
    ensures var q := Move(p, lockup, ok);
      var act := if p.me.pc.Looped? then Raise else if p.me.pc.TxRaised? then Serve else Other;
      BooksOf(q.me) == Apply(BooksOf(p.me), act) && Remembers(q.me)
  {
    hide Interrupt, Release;
    match p.me.pc
    case TwinServed(pkt, _) => ReleaseBooks(p, pkt);
    case OwnServed(pkt) => ReleaseBooks(p, pkt);
    case TxRaised(_) => InterruptBooks(p.me, OwnInterrupt(p, ok).me, ok);
    case _ =>
  }

  lemma MoveTwinBooks(p: Pair, lockup: nat, ok: bool)
    requires !p.me.pc.Idle? && (p.me.pc.Loaded? ==> p.me.dev.pool != []) && Remembers(p.twin)
    ensures var q, act := Move(p, lockup, ok), if p.me.pc.Raised? then Serve else Other;
      BooksOf(q.twin) == Apply(BooksOf(p.twin), act) && Remembers(q.twin)
  {
    hide Interrupt, Release;
    match p.me.pc
    case TwinServed(pkt, _) => ReleaseBooks(p, pkt);
    case OwnServed(pkt) => ReleaseBooks(p, pkt);
    case Raised(_) => InterruptBooks(p.twin, TwinInterrupt(p, ok).twin, ok);
    case _ =>
  }

  lemma BeginBooks(p: Pair, skb: Skb)
    requires p.me.pc.Idle?
    ensures BooksOf(Begin(p, skb).me) == Apply(BooksOf(p.me), Remember(skb)) && Remembers(Begin(p, skb).me)
    ensures Begin(p, skb).twin == p.twin
  {
  }

  lemma RecoverBooks(p: Pair)
    requires p.me.pc.Idle? && Remembers(p.me)
    ensures BooksOf(Recover(p).me) == Apply(BooksOf(p.me), Force) && Remembers(Recover(p).me)
    ensures Recover(p).twin == p.twin
  {
  }

  lemma StepBooks(s: State, e: Event, t: Id)
    requires Enabled(s, e) && Remembers(s.View(t).me)
    ensures BooksOf(Next(s, e).View(t).me) == Apply(BooksOf(s.View(t).me), ActOf(s, e, t))
    ensures Remembers(Next(s, e).View(t).me)
  {
    var p := s.View(e.t);
    match e
    case Start(_, id, data, other) =>
      BeginBooks(p, Load(id, data, other));
      hide Begin;
    case Timeout(_) =>
      if e.t == t {
        RecoverBooks(p);
      }
      hide Recover;
    case Step(_, ok) =>
      if e.t == t {
        MoveBooks(p, s.lockup, ok);
      } else {
        MoveTwinBooks(p, s.lockup, ok);
      }
      hide Move;
  }

  // ---------------------------------------------------------------- orderly runs

  function Outstanding(b: Books): nat {
    if b.raising || b.pending then 1 else 0
  }

  /** Every finished transmission freed its own skb once, in order, and none else is missing but
      the outstanding one. */
  predicate OnceEach(b: Books) {
    && |b.sent| == |b.freed| + Outstanding(b)
    && forall k :: 0 <= k < |b.freed| ==> b.freed[k] == Some(b.sent[k])
  }

  predicate Sound(b: Books) {
    && OnceEach(b) && !(b.raising && b.pending)
    && (b.pending ==> b.len == |b.sent[|b.sent| - 1].frame|)
    && b.packets == |b.freed| && b.bytes == FrameBytes(b.sent[..|b.freed|])
  }

  /** A transmission starts only with the transmit bit clear, and the watchdog fires only with it set. */
  predicate OrderlyAct(b: Books, a: Act) {
    (a.Remember? ==> !b.pending) && (a.Force? ==> b.pending)
  }

  /** When the machine can do what. */
  predicate Timely(b: Books, a: Act) {
    (a.Remember? || a.Force? ==> !b.raising) && (a.Raise? ==> b.raising)
  }

  predicate Last(b: Books) {
    b.skb == if b.sent == [] then None else Some(b.sent[|b.sent| - 1])
  }

  lemma SettleIsSound(b: Books)
    requires Sound(b) && Last(b) && b.pending
    ensures Sound(Settle(b))
  {
    var n := |b.freed|;
    assert b.sent[..n + 1] == b.sent[..n] + [b.sent[n]];
    AppendSkb(b.sent[..n], b.sent[n]);
  }

  lemma OrderlyKeepsSound(b: Books, a: Act)
    requires Sound(b) && Last(b) && OrderlyAct(b, a) && Timely(b, a)
    ensures Sound(Apply(b, a))
  {
    match a
    case Remember(skb) => assert (b.sent + [skb])[..|b.freed|] == b.sent[..|b.freed|];
    case Serve =>
      if b.pending {
        SettleIsSound(b);
      }
    case Force => SettleIsSound(b);
    case _ =>
  }

  // ---------------------------------------------------------------- other runs

  /** The skb number j was replaced before it was freed: in its place a later one is, or will be. */
  predicate LostAt(b: Books, j: nat) {
    && j + 1 < |b.sent|
    && (j < |b.freed| ==> exists m :: j < m < |b.sent| && b.freed[j] == Some(b.sent[m]))
  }

  /** The free number i repeats an earlier skb, or frees none. */
  predicate ExtraAt(b: Books, i: nat) {
    && i < |b.freed|
    && (b.freed[i] == None || exists m :: 0 <= m < i && m < |b.sent| && b.freed[i] == Some(b.sent[m]))
  }

  lemma LostStays(b: Books, a: Act, j: nat)
    requires LostAt(b, j) && Last(b)
    ensures LostAt(Apply(b, a), j)
  {
    var c := Apply(b, a);
    if j < |b.freed| {
      var m :| j < m < |b.sent| && b.freed[j] == Some(b.sent[m]);
      assert c.freed[j] == Some(c.sent[m]);
    } else if j < |c.freed| {
      assert c.freed[j] == Some(c.sent[|b.sent| - 1]);
    }
  }

  lemma ExtraStays(b: Books, a: Act, i: nat)
    requires ExtraAt(b, i)
    ensures ExtraAt(Apply(b, a), i)
  {
    var c := Apply(b, a);
    assert c.freed[i] == b.freed[i];
    if b.freed[i] != None {
      var m :| 0 <= m < i && m < |b.sent| && b.freed[i] == Some(b.sent[m]);
      assert c.freed[i] == Some(c.sent[m]);
    }
  }

  /** Beyond repair. */
  predicate Ruined(b: Books, k: nat) {
    LostAt(b, k) || ExtraAt(b, k)
  }

  lemma RuinStays(b: Books, a: Act, k: nat)
    requires Ruined(b, k) && Last(b)
    ensures Ruined(Apply(b, a), k)
  {
    if LostAt(b, k) {
      LostStays(b, a, k);
    } else {
      ExtraStays(b, a, k);
    }
  }

  lemma DisorderRuins(b: Books, a: Act)
    requires Sound(b) && Last(b) && !OrderlyAct(b, a) && Timely(b, a)
    ensures Ruined(Apply(b, a), |b.freed|)
  {
    var c, n := Apply(b, a), |b.freed|;
    if a.Force? {
      assert c.freed[n] == b.skb;
      if b.sent != [] {
        assert c.freed[n] == Some(c.sent[n - 1]);
      }
      assert ExtraAt(c, n);
    } else {
      assert LostAt(c, n);
    }
  }

  predicate AllDifferent(s: seq<Skb>) {
    forall j, k :: 0 <= j < k < |s| ==> s[j] != s[k]
  }

  lemma RuinShows(b: Books, k: nat)
    requires Ruined(b, k) && AllDifferent(b.sent)
    ensures !OnceEach(b)
  {
  }

  // ---------------------------------------------------------------- every run

  /** The run can be made from s, t starts transmissions in it only with its transmit bit clear, and
      its watchdog fires only with the bit set. */
  predicate Orderly(s: State, run: seq<Event>, t: Id)
    decreases run
  {
    run == [] ||
    (&& Enabled(s, run[0])
     && (run[0].t == t && run[0].Start? ==> !s.View(t).me.dev.txPending)
     && (run[0].t == t && run[0].Timeout? ==> s.View(t).me.dev.txPending)
     && Orderly(Next(s, run[0]), run[1..], t))
  }

  lemma EventIsTimely(s: State, e: Event, t: Id)
    requires Enabled(s, e) && Remembers(s.View(t).me)
    ensures var b, a := BooksOf(s.View(t).me), ActOf(s, e, t);
      && Timely(b, a) && Last(b)
      && (OrderlyAct(b, a) <==> (e.t == t && e.Start? ==> !b.pending) && (e.t == t && e.Timeout? ==> b.pending))
  {
  }

  lemma {:induction false} OrderlyRunIsSound(s: State, run: seq<Event>, s': State, t: Id)
    requires Reaches(s, run, s') && Orderly(s, run, t)
    requires Remembers(s.View(t).me) && Sound(BooksOf(s.View(t).me))
    ensures Sound(BooksOf(s'.View(t).me))
    decreases run
  {
    hide Sound, Remembers, Next, Enabled, BooksOf;
    if run == [] {
    } else {
      OrderlyStepIsSound(s, run, t);
      OrderlyRunIsSound(Next(s, run[0]), run[1..], s', t);
    }
  }

  lemma OrderlyStepIsSound(s: State, run: seq<Event>, t: Id)
    requires run != [] && Orderly(s, run, t)
    requires Remembers(s.View(t).me) && Sound(BooksOf(s.View(t).me))
    ensures Enabled(s, run[0]) && Orderly(Next(s, run[0]), run[1..], t)
    ensures Remembers(Next(s, run[0]).View(t).me) && Sound(BooksOf(Next(s, run[0]).View(t).me))
  {
    hide Sound;
    EventIsTimely(s, run[0], t);
    StepBooks(s, run[0], t);
    OrderlyKeepsSound(BooksOf(s.View(t).me), ActOf(s, run[0], t));
  }

  lemma {:induction false} RuinLasts(s: State, run: seq<Event>, s': State, t: Id, k: nat)
    requires Reaches(s, run, s') && Remembers(s.View(t).me) && Ruined(BooksOf(s.View(t).me), k)
    ensures Ruined(BooksOf(s'.View(t).me), k)
    decreases run
  {
    if run == [] {
    } else {
      EventIsTimely(s, run[0], t);
      StepBooks(s, run[0], t);
      RuinStays(BooksOf(s.View(t).me), ActOf(s, run[0], t), k);
      hide Ruined, Remembers, Next, BooksOf;
      RuinLasts(Next(s, run[0]), run[1..], s', t, k);
    }
  }

  lemma {:induction false} DisorderlyRunIsRuined(s: State, run: seq<Event>, s': State, t: Id) returns (k: nat)
    requires Reaches(s, run, s') && !Orderly(s, run, t)
    requires Remembers(s.View(t).me) && Sound(BooksOf(s.View(t).me))
    ensures Ruined(BooksOf(s'.View(t).me), k)
    decreases run
  {
    var b, a, next := BooksOf(s.View(t).me), ActOf(s, run[0], t), Next(s, run[0]);
    EventIsTimely(s, run[0], t);
    StepBooks(s, run[0], t);
    if OrderlyAct(b, a) {
      OrderlyKeepsSound(b, a);
      k := DisorderlyRunIsRuined(next, run[1..], s', t);
    } else {
      DisorderRuins(b, a);
      k := |b.freed|;
      RuinLasts(next, run[1..], s', t, k);
    }
  }

  lemma StartIsSound(s0: State, t: Id)
    requires Init(s0)
    ensures Remembers(s0.View(t).me) && Sound(BooksOf(s0.View(t).me))
  {
    var x := s0.View(t).me;
    assert Fresh(x);
    assert FrameBytes(x.sent[..0]) == 0;
  }

  /** With or without lockups, both devices sending: in an orderly run every finished transmission
      is freed once, in order, and counted once with its own length. */
  lemma OrderlyRunsAccount(s0: State, run: seq<Event>, s: State, t: Id)
    requires Init(s0) && Reaches(s0, run, s) && Orderly(s0, run, t)
    ensures var asked, me := Requests(run, t), s.View(t).me;
      && OnceEach(BooksOf(me)) && me.sent == asked
      && |me.dev.freed| <= |asked|
      && me.dev.stats.txPackets == |me.dev.freed|
      && me.dev.stats.txBytes == FrameBytes(asked[..|me.dev.freed|])
  {
    StartIsSound(s0, t);
    OrderlyRunIsSound(s0, run, s, t);
    SentIsRequests(s0, run, s, t);
    assert [] + Requests(run, t) == Requests(run, t);
  }

  /** For different socket buffers: each is freed once and in order exactly in the orderly runs. */
  lemma OnceEachIffOrderly(s0: State, run: seq<Event>, s: State, t: Id)
    requires Init(s0) && Reaches(s0, run, s) && AllDifferent(Requests(run, t))
    ensures OnceEach(BooksOf(s.View(t).me)) <==> Orderly(s0, run, t)
  {
    StartIsSound(s0, t);
    SentIsRequests(s0, run, s, t);
    assert [] + Requests(run, t) == Requests(run, t);
    if Orderly(s0, run, t) {
      OrderlyRunIsSound(s0, run, s, t);
    } else {
      var k := DisorderlyRunIsRuined(s0, run, s, t);
      RuinShows(BooksOf(s.View(t).me), k);
    }
  }

  // ---------------------------------------------------------------- the smallest disorderly run

  lemma {:induction false} Longer(s: State, run: seq<Event>, m: State, e: Event)
    requires Reaches(s, run, m) && Enabled(m, e)
    ensures Reaches(s, run + [e], Next(m, e))
    decreases run
  {
    if run == [] {
      assert [e][1..] == [];
      assert Reaches(Next(m, e), [], Next(m, e));
    } else {
      Longer(Next(s, run[0]), run[1..], m, e);
      assert (run + [e])[1..] == run[1..] + [e];
    }
  }

  /** One more step of t, whose view is p. */
  lemma Along(s: State, run: seq<Event>, m: State, t: Id, p: Pair) returns (run': seq<Event>, m': State)
    requires Reaches(s, run, m) && p == m.View(t)
    requires !p.me.pc.Idle? && (p.me.pc.Loaded? ==> p.me.dev.pool != [])
    ensures Reaches(s, run', m') && m'.lockup == m.lockup && m'.View(t) == Move(p, m.lockup, true)
    ensures run' == run + [Step(t, true)]
  {
    Longer(s, run, m, Step(t, true));
    run', m' := run + [Step(t, true)], Next(m, Step(t, true));
  }

  /** A twin that listens, with nothing queued and nothing pending. */
  predicate Listening(x: Side) {
    x.dev.rxInt && x.dev.rxq == [] && !x.dev.rxPending
  }

  /** From the start to the twin's interrupt: five steps. */
  function ToTwin(p: Pair, skb: Skb): Pair
    requires p.me.dev.pool != [] && Listening(p.twin)
  {
    TwinInterrupt(RaiseRx(Push(Take(Begin(p, skb)))), true)
  }

  lemma SendToTwin(s: State, run: seq<Event>, m: State, t: Id, id: nat, data: seq<byte>)
    returns (run': seq<Event>, m': State)
    requires Reaches(s, run, m) && Transmittable(data)
    requires var p := m.View(t); p.me.pc.Idle? && p.me.dev.running && p.me.dev.pool != [] && Listening(p.twin)
    ensures Reaches(s, run', m') && m'.lockup == m.lockup
    ensures m'.View(t) == ToTwin(m.View(t), Load(id, data, 0))
    ensures run' == run + [Start(t, id, data, 0)] + [Step(t, true)] + [Step(t, true)] + [Step(t, true)] + [Step(t, true)]
  {
    hide Load;
    var e, p := Start(t, id, data, 0), m.View(t);
    Longer(s, run, m, e);
    run', m' := run + [e], Next(m, e);
    p := Begin(p, Load(id, data, 0));
    assert m'.View(t) == p;
    hide Reaches, Next, Enabled;
    run', m' := Along(s, run', m', t, p);
    p := Take(p);
    run', m' := Along(s, run', m', t, p);
    p := Push(p);
    run', m' := Along(s, run', m', t, p);
    p := RaiseRx(p);
    run', m' := Along(s, run', m', t, p);
  }

  /** What the twin's interrupt does to the two devices, for the sender's skb still pending. */
  lemma ToTwinEffect(p: Pair, skb: Skb)
    requires p.me.dev.pool != [] && Listening(p.twin)
    ensures var q := ToTwin(p, skb);
      && q.me.pc == TwinServed(p.me.dev.pool[0], skb) && q.me.id == p.me.id && q.twin.id == p.twin.id
      && q.me.dev.freed == p.me.dev.freed && q.me.dev.skb == Some(skb) && q.me.dev.stats == p.me.dev.stats
      && q.me.dev.handled == p.me.dev.handled
      && (!p.twin.dev.txPending ==> q.twin.dev.stats.txPackets == p.twin.dev.stats.txPackets)
      && q.me.dev.rxInt == p.me.dev.rxInt && q.me.dev.rxq == p.me.dev.rxq && q.me.dev.rxPending == p.me.dev.rxPending
      && q.twin.pc == p.twin.pc && q.twin.dev.pool == p.twin.dev.pool && q.twin.dev.running == p.twin.dev.running
      && q.twin.dev.skb == p.twin.dev.skb && Listening(q.twin) && !q.twin.dev.txPending
      && q.twin.dev.freed == p.twin.dev.freed + if p.twin.dev.txPending then [p.twin.dev.skb] else []
  {
  }

  /** From there to the simulated lockup of a first transmission: two steps. */
  lemma ToStallEffect(p: Pair)
    requires p.me.pc.TwinServed? && p.me.pc.hand.dev == p.me.id && p.me.dev.stats.txPackets == 0
    ensures var q := RaiseTx(TwinRelease(p), 1);
      && q.me.pc == Idle && q.me.dev.txPending && !q.me.dev.running
      && q.me.dev.freed == p.me.dev.freed && q.me.dev.skb == p.me.dev.skb && q.me.dev.handled == p.me.dev.handled
      && (Listening(p.me) ==> Listening(q.me)) && q.twin == p.twin
  {
  }

  lemma StallFirst(s: State, t: Id, id: nat, data: seq<byte>) returns (run: seq<Event>, m: State)
    requires Init(s) && s.lockup == 1 && Transmittable(data)
    ensures Reaches(s, run, m) && m.lockup == 1
    ensures var p := m.View(t);
      && p.me.pc == Idle && p.me.dev.txPending && !p.me.dev.running && Listening(p.me)
      && p.me.dev.freed == [] && p.me.dev.skb == Some(Load(id, data, 0))
      && p.me.dev.handled == []
      && p.twin.pc == Idle && p.twin.dev.running && p.twin.dev.pool != [] && p.twin.dev.stats.txPackets == 0
  {
    var p := s.View(t);
    assert Fresh(p.me) && Fresh(p.twin);
    assert p.me.dev.pool[0] in multiset(p.me.owned);
    ToTwinEffect(p, Load(id, data, 0));
    run, m := SendToTwin(s, [], s, t, id, data);
    var q := m.View(t);
    hide ToTwin, Init, Fresh, Reaches, Load;
    ToStallEffect(q);
    run, m := ServedToStall(s, run, m, t);
  }

  lemma ServedToStall(s: State, run: seq<Event>, m: State, t: Id) returns (run': seq<Event>, m': State)
    requires Reaches(s, run, m) && m.View(t).me.pc.TwinServed? && m.lockup == 1
    ensures Reaches(s, run', m') && m'.lockup == 1 && m'.View(t) == RaiseTx(TwinRelease(m.View(t)), 1)
  {
    var q := m.View(t);
    hide Reaches, Release;
    run', m' := Along(s, run, m, t, q);
    run', m' := Along(s, run', m', t, TwinRelease(q));
  }

  /** With every transmission stalling: t sends and stalls, its twin sends and so consumes t's
      transmit bit, and then t's watchdog fires. The one skb of t is freed twice. */
  lemma FreedTwice(s: State, t: Id, mine: seq<byte>, other: seq<byte>) returns (run: seq<Event>, end: State)
    requires Init(s) && s.lockup == 1 && Transmittable(mine) && Transmittable(other)
    ensures Reaches(s, run, end)
    ensures var x := Load(0, mine, 0); end.View(t).me.dev.freed == [Some(x), Some(x)]
  {
    var m;
    run, m := StallFirst(s, t, 0, mine);
    hide Init, Load, Reaches, Transmittable;
    run, m := TwinFreesStalled(s, run, m, t, other);
    hide Next, Enabled;
    TimeoutFrees(m, t);
    Longer(s, run, m, Timeout(t));
    run, end := run + [Timeout(t)], Next(m, Timeout(t));
  }

  /** The twin's first transmission up to its interrupt of t, stalled with the transmit bit set. */
  lemma TwinFreesStalled(s: State, run: seq<Event>, m: State, t: Id, other: seq<byte>)
    returns (run': seq<Event>, m': State)
    requires Reaches(s, run, m) && Transmittable(other)
    requires var x, y := m.View(t).me, m.View(t).twin;
      && x.pc.Idle? && x.dev.txPending && !x.dev.running && Listening(x)
      && y.pc.Idle? && y.dev.running && y.dev.pool != []
    ensures Reaches(s, run', m') && m'.lockup == m.lockup
    ensures var d, x := m.View(t).me.dev, m'.View(t).me;
      x.pc.Idle? && !x.dev.running && x.dev.skb == d.skb && x.dev.freed == d.freed + [d.skb]
  {
    ToTwinEffect(m.View(Twin(t)), Load(0, other, 0));
    hide Load, Reaches, Transmittable;
    run', m' := SendToTwin(s, run, m, Twin(t), 0, other);
    hide ToTwin;
  }

  lemma TimeoutFrees(m: State, t: Id)
    requires m.lockup == 1 && m.View(t).me.pc.Idle? && !m.View(t).me.dev.running
    ensures Enabled(m, Timeout(t))
    ensures var d := m.View(t).me.dev; Next(m, Timeout(t)).View(t).me.dev.freed == d.freed + [d.skb]
  {
  }

  // ---------------------------------------------------------------- what ends a stall, and what a timeout costs

  /** The queue of an idle sender is stopped although packets are left. */
  predicate StoppedWithPackets(x: Side) {
    x.pc.Idle? && !x.dev.running && x.dev.pool != []
  }

  lemma TwinKeepsStall(p: Pair, lockup: nat, ok: bool)
    requires !p.me.pc.Idle? && (p.me.pc.Loaded? ==> p.me.dev.pool != []) && StoppedWithPackets(p.twin)
    ensures StoppedWithPackets(Move(p, lockup, ok).twin) && Move(p, lockup, ok).twin.sent == p.twin.sent
  {
  }

  lemma StepKeepsStall(s: State, e: Event, t: Id)
    requires Enabled(s, e) && StoppedWithPackets(s.View(t).me) && !(e.Timeout? && e.t == t)
    ensures StoppedWithPackets(Next(s, e).View(t).me) && Next(s, e).View(t).me.sent == s.View(t).me.sent
  {
    if e.Step? {
      TwinKeepsStall(s.View(e.t), s.lockup, e.ok);
      hide Move;
    }
  }

  /** A sender stopped with packets left sends nothing more, whatever its twin does and whatever
      packets come back, until its own watchdog fires. */
  lemma {:induction false} StallNeedsWatchdog(s: State, run: seq<Event>, s': State, t: Id)
    requires Reaches(s, run, s') && StoppedWithPackets(s.View(t).me)
    requires forall e :: e in run ==> !(e.Timeout? && e.t == t)
    ensures StoppedWithPackets(s'.View(t).me) && s'.View(t).me.sent == s.View(t).me.sent
    decreases run
  {
    hide StoppedWithPackets, Next, Enabled;
    if run == [] {
    } else {
      StepKeepsStall(s, run[0], t);
      StallNeedsWatchdog(Next(s, run[0]), run[1..], s', t);
    }
  }

  /** From the start to the receive bit set at the twin: four steps. */
  function ToRaised(p: Pair, skb: Skb): Pair
    requires p.me.dev.pool != [] && Listening(p.twin)
  {
    RaiseRx(Push(Take(Begin(p, skb))))
  }

  lemma SendToRaised(s: State, run: seq<Event>, m: State, t: Id, id: nat, data: seq<byte>)
    returns (run': seq<Event>, m': State)
    requires Reaches(s, run, m) && Transmittable(data)
    requires var p := m.View(t); p.me.pc.Idle? && p.me.dev.running && p.me.dev.pool != [] && Listening(p.twin)
    ensures Reaches(s, run', m') && m'.lockup == m.lockup
    ensures m'.View(t) == ToRaised(m.View(t), Load(id, data, 0))
  {
    hide Load;
    var e, p := Start(t, id, data, 0), m.View(t);
    Longer(s, run, m, e);
    run', m' := run + [e], Next(m, e);
    p := Begin(p, Load(id, data, 0));
    assert m'.View(t) == p;
    hide Reaches, Next, Enabled;
    run', m' := Along(s, run', m', t, p);
    p := Take(p);
    run', m' := Along(s, run', m', t, p);
    p := Push(p);
    run', m' := Along(s, run', m', t, p);
  }

  lemma ToRaisedEffect(p: Pair, skb: Skb)
    requires p.me.dev.pool != [] && Listening(p.twin)
    ensures var q := ToRaised(p, skb);
      && q.me.pc == Raised(skb) && q.me.dev.stats == p.me.dev.stats
      && q.twin.pc == p.twin.pc && q.twin.dev.running == p.twin.dev.running
      && q.twin.dev.handled == p.twin.dev.handled
      && q.twin.dev.rxq == [Entry(p.me.dev.pool[0], skb.frame)] && q.twin.dev.rxPending
  {
  }

  /** The watchdog of a receiver overwrites the receive bit: what is queued stays there. */
  lemma TimeoutDropsBit(m: State, t: Id)
    requires m.lockup > 0 && m.View(t).me.pc.Idle? && !m.View(t).me.dev.running
    ensures Enabled(m, Timeout(t))
    ensures var p, q := m.View(t), Next(m, Timeout(t)).View(t);
      && q.me.pc.Idle? && !q.me.dev.rxPending && q.me.dev.rxq == p.me.dev.rxq && q.me.dev.handled == p.me.dev.handled
      && q.me.dev.stats.txErrors == p.me.dev.stats.txErrors + 1 && q.me.dev.running && q.twin == p.twin
  {
  }

  /** The interrupt that follows finds nothing to do, and a stalling sender is done. */
  lemma NothingServed(p: Pair)
    requires p.me.pc.Raised? && !p.twin.dev.rxPending && p.me.dev.stats.txPackets == 0
    ensures var q := RaiseTx(TwinInterrupt(p, true), 1);
      q.me.pc == Idle && q.twin.pc == p.twin.pc && q.twin.dev.rxq == p.twin.dev.rxq
      && q.twin.dev.handled == p.twin.dev.handled
    ensures TwinInterrupt(p, true).me.pc.Looped?
  {
  }

  /** From u's receive bit raised at its stopped twin t: t's watchdog fires, then u goes on to its own stall. */
  lemma WatchdogFirst(s: State, run: seq<Event>, m: State, u: Id) returns (run': seq<Event>, end: State)
    requires Reaches(s, run, m) && m.lockup == 1
    requires var p := m.View(u);
      && p.me.pc.Raised? && p.me.dev.stats.txPackets == 0
      && p.twin.pc.Idle? && !p.twin.dev.running && p.twin.dev.rxPending
    ensures Reaches(s, run', end) && end.View(u).me.pc == Idle && end.View(u).twin.pc == Idle
    ensures end.View(u).twin.dev.rxq == m.View(u).twin.dev.rxq
    ensures end.View(u).twin.dev.handled == m.View(u).twin.dev.handled
  {
    var t := Twin(u);
    hide Reaches;
    TimeoutDropsBit(m, t);
    Longer(s, run, m, Timeout(t));
    run', end := run + [Timeout(t)], Next(m, Timeout(t));
    hide Next, Enabled;
    var p := end.View(u);
    NothingServed(p);
    hide TwinInterrupt, RaiseTx;
    run', end := Along(s, run', end, u, p);
    run', end := Along(s, run', end, u, TwinInterrupt(p, true));
  }

  /** With every transmission stalling: t stalls, its twin raises the receive bit at t, and t's watchdog
      fires before the interrupt runs. Both transmitters end idle with the frame still queued at t. */
  lemma FrameLeftBehind(s: State, t: Id, mine: seq<byte>, other: seq<byte>) returns (run: seq<Event>, end: State)
    requires Init(s) && s.lockup == 1 && Transmittable(mine) && Transmittable(other)
    ensures Reaches(s, run, end) && Quiet(end)
    ensures var d := end.View(t).me.dev;
      d.handled == [] && |d.rxq| == 1 && d.rxq[0].frame == Wire(other, 0)
  {
    var m, u := s, Twin(t);
    run, m := StallFirst(s, t, 0, mine);
    hide Init, Reaches, Transmittable;
    ToRaisedEffect(m.View(u), Load(0, other, 0));
    run, m := SendToRaised(s, run, m, u, 0, other);
    hide ToRaised;
    run, end := WatchdogFirst(s, run, m, u);
  }
}
