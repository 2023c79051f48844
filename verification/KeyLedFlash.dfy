/** What a flashing thread does to its LED in a run: its rounds switch it off and on in turn, whatever
    handlers do meanwhile. */
module KeyLedFlash {
  import opened KeyLed

  /** How often a thread is scheduled in a run. */
  function Schedulings(run: seq<Event>): nat
    decreases run
  {
    if run == [] then 0 else (if run[0].Thread? then 1 else 0) + Schedulings(run[1..])
  }

  /** No handler stops a thread in the run. */
  predicate Spared(s: State, run: seq<Event>)
    decreases run
  {
    run == [] || (Enabled(s, run[0]) && (run[0].Go? ==> s.code[0] != StopThread) && Spared(Next(s, run[0]), run[1..]))
  }

  /** No event of the run writes the LED. */
  predicate Unwritten(s: State, run: seq<Event>, led: nat)
    decreases run
  {
    run == [] || (
      && Enabled(s, run[0]) && !run[0].Thread?
      && (run[0].Go? ==> s.code[0] != StopThread && !(s.code[0].Put? && s.code[0].led == led))
      && Unwritten(Next(s, run[0]), run[1..], led))
  }

  /** A thread after k more schedulings. */
  function Scheduled(f: Flash, k: nat): Flash {
    if k == 0 then f
    else if !f.entered then f.(entered := true, value := Toggled(f.value, k - 1))
    else f.(value := Toggled(f.value, k))
  }

  /** A level after k changes. */
  function Toggled(v: Level, k: nat): (r: Level)
    ensures k % 2 == 0 ==> r == v
    ensures k % 2 == 1 ==> r == 1 - v
  {
    if k % 2 == 0 then v else 1 - v
  }

  lemma OneThread(s: State)
    requires Inv(s)
    ensures |s.live| <= 1 && forall k :: 0 <= k < |s.live| ==> s.live[k].led < |s.level|
    ensures s.code != [] && s.live != [] ==> !s.code[0].Spawn?
  {
    if s.live != [] {
      assert |Leds(s.live)| != 0;
    }
  }

  lemma SparedStep(s: State, e: Event)
    requires Inv(s) && |s.live| == 1 && Enabled(s, e) && (e.Go? ==> s.code[0] != StopThread)
    ensures Next(s, e).live == [Scheduled(s.live[0], if e.Thread? then 1 else 0)]
  {
    OneThread(s);
    hide Inv, Code;
  }

  lemma {:induction false} SparedRun(s: State, run: seq<Event>, s': State)
    requires Inv(s) && |s.live| == 1 && Reaches(s, run, s') && Spared(s, run)
    ensures s'.live == [Scheduled(s.live[0], Schedulings(run))] && Inv(s') && |s'.level| == |s.level|
    decreases run
  {
    hide Inv, Next, Enabled;
    if run == [] {
    } else {
      NextKeepsInv(s, run[0]);
      SparedStep(s, run[0]);
      SparedRun(Next(s, run[0]), run[1..], s');
    }
  }

  lemma {:induction false} UnwrittenRun(s: State, run: seq<Event>, s': State, led: nat)
    requires Reaches(s, run, s') && Unwritten(s, run, led) && led < |s.level|
    ensures led < |s'.level| && s'.level[led] == s.level[led]
    ensures Spared(s, run) && Schedulings(run) == 0
    decreases run
  {
    if run == [] {
    } else {
      UnwrittenStep(s, run[0], led);
      hide Next, Enabled;
      UnwrittenRun(Next(s, run[0]), run[1..], s', led);
    }
  }

  lemma UnwrittenStep(s: State, e: Event, led: nat)
    requires Enabled(s, e) && !e.Thread? && led < |s.level|
    requires e.Go? ==> s.code[0] != StopThread && !(s.code[0].Put? && s.code[0].led == led)
    ensures |Next(s, e).level| == |s.level| && Next(s, e).level[led] == s.level[led]
  {
    hide Code;
  }

  lemma FlickerWrites(s: State)
    requires |s.live| == 1 && s.live[0].led < |s.level|
    ensures var t, f := Next(s, Thread(0)), s.live[0];
      && t.level == (if f.entered then s.level[f.led := 1 - f.value] else s.level)
      && t.live == [Scheduled(f, 1)]
  {
  }

  /** A thread not yet entered holds the value 0. */
  predicate NewAreZero(s: State) {
    forall k :: 0 <= k < |s.live| && !s.live[k].entered ==> s.live[k].value == 0
  }

  lemma StepKeepsNew(s: State, e: Event)
    requires NewAreZero(s) && Enabled(s, e)
    ensures NewAreZero(Next(s, e))
  {
    hide Code;
  }

  lemma {:induction false} RunKeepsNew(s: State, run: seq<Event>, s': State)
    requires NewAreZero(s) && Reaches(s, run, s')
    ensures NewAreZero(s')
    decreases run
  {
    hide NewAreZero, Next, Enabled;
    if run == [] {
    } else {
      StepKeepsNew(s, run[0]);
      RunKeepsNew(Next(s, run[0]), run[1..], s');
    }
  }

  lemma ReachableThreads(s0: State, before: seq<Event>, s: State)
    requires Init(s0) && Reaches(s0, before, s)
    ensures Inv(s) && NewAreZero(s)
  {
    InitInv(s0);
    RunKeepsInv(s0, before, s);
    RunKeepsNew(s0, before, s);
  }

  lemma NewThread(s0: State, before: seq<Event>, s: State)
    requires Init(s0) && Reaches(s0, before, s) && |s.live| == 1 && !s.live[0].entered
    ensures Inv(s) && s.live == [Flash(s.live[0].led, 0, false)] && s.live[0].led < |s.level|
  {
    ReachableThreads(s0, before, s);
    OneThread(s);
  }

  // ---------------------------------------------------------------- main results

  /** In every run: the scheduling in which a thread is entered writes nothing, and its n-th one after
      that switches its LED on if n is even and off if n is odd and touches no other LED, whatever
      handlers that do not stop it have done in between. */
  lemma RoundsAlternate(s0: State, before: seq<Event>, s: State, run: seq<Event>, s': State)
    requires Init(s0) && Reaches(s0, before, s) && |s.live| == 1 && !s.live[0].entered
    requires Reaches(s, run, s') && Spared(s, run)
    ensures Enabled(s', Thread(0)) && s.live[0].led < |s'.level|
    ensures var n, t := Schedulings(run), Next(s', Thread(0));
      t.level == if n == 0 then s'.level else s'.level[s.live[0].led := if n % 2 == 0 then 0 else 1]
  {
    NewThread(s0, before, s);
    hide Inv, Init, Reaches, Spared, Next;
    SparedRun(s, run, s');
    FlickerWrites(s');
  }

  /** In every reachable state: if a thread's round is followed by events none of which writes its LED,
      the next round finds the LED as it left it, flips it, and touches no other. */
  lemma RoundFlipsUnlessWritten(s0: State, before: seq<Event>, s: State, run: seq<Event>, s': State)
    requires Init(s0) && Reaches(s0, before, s) && |s.live| == 1 && s.live[0].entered
    requires s.live[0].led < |s.level|
    requires Reaches(Next(s, Thread(0)), run, s') && Unwritten(Next(s, Thread(0)), run, s.live[0].led)
    ensures var led, first := s.live[0].led, Next(s, Thread(0));
      && Enabled(s', Thread(0)) && led < |s'.level|
      && s'.level[led] == first.level[led]
      && Next(s', Thread(0)).level == s'.level[led := 1 - s'.level[led]]
  {
    var f, first := s.live[0], Next(s, Thread(0));
    ReachableThreads(s0, before, s);
    NextKeepsInv(s, Thread(0));
    FlickerWrites(s);
    SparedStep(s, Thread(0));
    hide Inv, Next;
    UnwrittenRun(first, run, s', f.led);
    SparedRun(first, run, s');
    FlickerWrites(s');
  }

  /** k schedulings in a row. */
  function Alone(k: nat): (run: seq<Event>)
    ensures |run| == k
  {
    if k == 0 then [] else [Thread(0)] + Alone(k - 1)
  }

  lemma {:induction false} AloneFlashes(s: State, k: nat) returns (s': State)
    requires |s.live| == 1 && s.live[0].led < |s.level|
    ensures Reaches(s, Alone(k), s') && s'.live == [Scheduled(s.live[0], k)]
    ensures var f := s.live[0];
      s'.level == if k == 0 || (k == 1 && !f.entered) then s.level else s.level[f.led := s'.live[0].value]
    decreases k
  {
    if k == 0 {
      s' := s;
    } else {
      var f, next := s.live[0], Next(s, Thread(0));
      FlickerWrites(s);
      hide Next;
      s' := AloneFlashes(next, k - 1);
      assert Alone(k)[1..] == Alone(k - 1);
    }
  }

  /** From every reachable state with a thread just started, k schedulings in a row are possible; they
      leave its LED lit iff k - 1 is even and positive, and every other LED as it was. */
  lemma FlashesAlone(s0: State, before: seq<Event>, s: State, k: nat) returns (s': State)
    requires Init(s0) && Reaches(s0, before, s) && |s.live| == 1 && !s.live[0].entered
    ensures Reaches(s, Alone(k), s') && |s'.level| == |s.level| && s.live[0].led < |s.level|
    ensures s'.level[s.live[0].led] == if k > 1 && (k - 1) % 2 == 0 then 0 else 1
    ensures forall j :: 0 <= j < |s.level| && j != s.live[0].led ==> s'.level[j] == s.level[j]
  {
    ReachableThreads(s0, before, s);
    OneThread(s);
    assert ThreadsInv(s);
    s' := AloneFlashes(s, k);
  }
}
