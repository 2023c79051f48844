/** The LED driver: store handlers write GPIO lines one at a time while a flashing thread toggles
    its own. A handler branches only on flags no thread touches, so what it will do is fixed when
    it starts; the machine runs that list of actions one by one, with thread steps in between. */
module KeyLed {

  /** A GPIO level; the LEDs are active low, so 0 is lit. */
  type Level = v: int | v == 0 || v == 1

  /** A flashing thread: its LED, its local value, whether its function has been entered. */
  datatype Flash = Flash(led: nat, value: Level, entered: bool)

  datatype Action =
    | StopThread          // kthread_stop on the remembered task, waiting for it to exit
    | SetTask(on: bool)   // task_flag
    | SetLit              // led_flag := 1
    | Put(led: nat, v: Level)
    | Spawn(led: nat)     // kthread_run
    | Gone                // the driver has been removed

  datatype Handler =
    | SetLed(led: nat, buf: string)
    | BlinkOn(led: nat, buf: string, created: bool)  // created: kthread_run succeeds
    | BlinkOff(led: nat, buf: string)
    | Remove

  datatype State = State(
    level: seq<Level>,
    ledFlag: bool, taskFlag: bool,
    live: seq<Flash>,      // threads started and not yet stopped; the last is the remembered task
    started: nat, stopped: nat,  // calls of kthread_run that succeeded, and of kthread_stop
    code: seq<Action>,     // what the handler in progress still has to do
    removed: bool)

  /** The command: the text before the first terminator, the last character being replaced by one. */
  function Text(buf: string): string {
    if buf == [] || |buf| == 1 || buf[0] == '\0' then [] else [buf[0]] + Text(buf[1..])
  }

  /** So a command written with any one character behind it, a line end say, is that command. */
  lemma {:induction false} CommandIsText(cmd: string, c: char)
    requires '\0' !in cmd
    ensures Text(cmd + [c]) == cmd
  {
    if cmd == [] {
    } else {
      assert (cmd + [c])[1..] == cmd[1..] + [c];
      CommandIsText(cmd[1..], c);
    }
  }

  function Clear(k: nat, n: nat): seq<Action>
    requires k <= n
    decreases n - k
  {
    if k == n then [] else [Put(k, 1)] + Clear(k + 1, n)
  }

  /** The actions of a handler, from the flags at its start; n is the number of LEDs. */
  function Code(h: Handler, n: nat, ledFlag: bool, taskFlag: bool): seq<Action> {
    match h
    case SetLed(led, buf) =>
      (if taskFlag then [StopThread, SetTask(false)] else [])
      + (if Text(buf) == "on" then
           if ledFlag then Clear(0, n) + [Put(led, 0)] else [Put(led, 0), SetLit]
         else if Text(buf) == "off" then [Put(led, 1)]
         else [])
    case BlinkOn(led, buf, created) =>
      (if ledFlag then Clear(0, n) else [])
      + (if Text(buf) == "on" && !taskFlag && created then [Spawn(led), SetTask(true)] else [])
    case BlinkOff(_, buf) =>
      if Text(buf) == "off" && taskFlag then [StopThread] + Clear(0, n) + [SetTask(false)] else []
    case Remove =>
      (if taskFlag then [StopThread, SetTask(false)] else []) + (if ledFlag then Clear(0, n) else []) + [Gone]
  }

  predicate ValidLed(h: Handler, n: nat) {
    h.Remove? || h.led < n
  }

  function WriteLevel(level: seq<Level>, led: nat, v: Level): (r: seq<Level>)
    ensures |r| == |level|
  {
    if led < |level| then level[led := v] else level
  }

  function Exec(s: State, a: Action): State {
    match a
    case SetTask(on) => s.(taskFlag := on)
    case SetLit => s.(ledFlag := true)
    case Put(led, v) => s.(level := WriteLevel(s.level, led, v))
    case Spawn(led) => s.(live := s.live + [Flash(led, 0, false)], started := s.started + 1)
    case Gone => s.(removed := true)
    case StopThread =>
      if s.live == [] then s.(stopped := s.stopped + 1) else
        // a thread that was entered switches its LED off on the way out
        var f := s.live[|s.live| - 1];
        s.(live := s.live[..|s.live| - 1], stopped := s.stopped + 1,
           level := if f.entered then WriteLevel(s.level, f.led, 1) else s.level)
  }

  /** A live thread is scheduled: first it enters its function, then it toggles. */
  function Flicker(s: State, k: nat): State
    requires k < |s.live|
  {
    var f := s.live[k];
    if !f.entered then s.(live := s.live[k := f.(entered := true)])
    else s.(live := s.live[k := f.(value := 1 - f.value)], level := WriteLevel(s.level, f.led, 1 - f.value))
  }

  datatype Event = Begin(h: Handler) | Go | Thread(k: nat)

  predicate Enabled(s: State, e: Event) {
    match e
    case Begin(h) => s.code == [] && !s.removed && ValidLed(h, |s.level|)
    case Go => s.code != []
    case Thread(k) => k < |s.live|
  }

  function Next(s: State, e: Event): State
    requires Enabled(s, e)
  {
    match e
    case Begin(h) => s.(code := Code(h, |s.level|, s.ledFlag, s.taskFlag))
    case Go => Exec(s.(code := s.code[1..]), s.code[0])
    case Thread(k) => Flicker(s, k)
  }

  /** Just probed: all LEDs off, flags zero, no thread. */
  predicate Init(s: State) {
    && (forall k :: 0 <= k < |s.level| ==> s.level[k] == 1)
    && !s.ledFlag && !s.taskFlag && s.live == [] && s.started == 0 && s.stopped == 0
    && s.code == [] && !s.removed
  }

  predicate Reaches(s: State, run: seq<Event>, s': State)
    decreases run
  {
    if run == [] then s == s' else Enabled(s, run[0]) && Reaches(Next(s, run[0]), run[1..], s')
  }

  function Lit(level: seq<Level>): set<nat> {
    set k | 0 <= k < |level| && level[k] == 0
  }

  // ---------------------------------------------------------------- what threads cannot change

  /** A state up to the flicker of its threads: the LEDs that are lit or may be lit by a live
      thread, the LEDs of the live threads, and the flags. */
  datatype Outline = Outline(may: set<nat>, live: seq<nat>, ledFlag: bool, taskFlag: bool, removed: bool)

  function Leds(live: seq<Flash>): (r: seq<nat>)
    ensures |r| == |live|
    ensures forall k :: 0 <= k < |live| ==> r[k] == live[k].led
  {
    seq(|live|, k requires 0 <= k < |live| => live[k].led)
  }

  function Elements(s: seq<nat>): set<nat> {
    set x | x in s
  }

  function OutlineOf(s: State): Outline {
    Outline(Lit(s.level) + Elements(Leds(s.live)), Leds(s.live), s.ledFlag, s.taskFlag, s.removed)
  }

  function OutlineExec(o: Outline, a: Action): Outline {
    match a
    case SetTask(on) => o.(taskFlag := on)
    case SetLit => o.(ledFlag := true)
    case Put(led, v) => o.(may := if v == 0 then o.may + {led} else o.may - {led} + Elements(o.live))
    case Spawn(led) => o.(live := o.live + [led], may := o.may + {led})
    case Gone => o.(removed := true)
    case StopThread => if |o.live| != 1 then o else o.(live := [], may := o.may - {o.live[0]})
  }

  predicate AtMostOne(x: set<nat>) {
    forall a, b :: a in x && b in x ==> a == b
  }

  /** Between handlers: the task flag tells whether a thread lives, and while no LED was ever
      switched on by command only that thread's LED may be lit. */
  predicate Settled(o: Outline) {
    && (o.taskFlag <==> |o.live| == 1)
    && (!o.ledFlag ==> o.may == Elements(o.live))
    && (o.removed ==> o.may == {} && o.live == [])
  }

  /** One action is safe to do: a thread is stopped only if it lives, started only if none does and
      nothing is lit, and a LED is switched on only if no thread lives. */
  predicate Allowed(o: Outline, a: Action, n: nat) {
    match a
    case StopThread => |o.live| == 1
    case Spawn(led) => o.live == [] && o.may == {} && led < n
    case Put(led, v) => led < n && (v == 0 ==> o.live == [])
    case Gone => o.may == {} && o.live == []
    case _ => true
  }

  /** From o the whole list of actions keeps at most one LED possibly lit and ends settled. */
  predicate Safe(o: Outline, code: seq<Action>, n: nat)
    decreases code
  {
    && AtMostOne(o.may) && |o.live| <= 1 && Elements(o.live) <= o.may
    && if code == [] then Settled(o) else Allowed(o, code[0], n) && Safe(OutlineExec(o, code[0]), code[1..], n)
  }

  predicate Inv(s: State) {
    && Safe(OutlineOf(s), s.code, |s.level|)
    && s.started == s.stopped + |s.live|
    && ThreadsInv(s)
  }

  // ---------------------------------------------------------------- the outline follows the state

  lemma FlickerKeepsOutline(s: State, k: nat)
    requires k < |s.live| && s.live[k].led < |s.level|
    ensures OutlineOf(Flicker(s, k)) == OutlineOf(s)
  {
    var t, f := Flicker(s, k), s.live[k];
    assert Leds(t.live) == Leds(s.live);
    assert f.led in Leds(s.live) by { assert Leds(s.live)[k] == f.led; }
    assert Lit(t.level) - {f.led} == Lit(s.level) - {f.led};
    assert Lit(t.level) + Elements(Leds(t.live)) == Lit(s.level) + Elements(Leds(s.live));
  }

  predicate ThreadsInv(s: State) {
    forall k :: 0 <= k < |s.live| ==> s.live[k].led < |s.level| && (!s.live[k].entered ==> s.level[s.live[k].led] == 1)
  }

  lemma PutFollowsOutline(s: State, led: nat, v: Level)
    requires led < |s.level|
    ensures OutlineOf(Exec(s, Put(led, v))) == OutlineExec(OutlineOf(s), Put(led, v))
  {
    var t := Exec(s, Put(led, v));
    assert Lit(t.level) == if v == 0 then Lit(s.level) + {led} else Lit(s.level) - {led};
  }

  lemma SpawnFollowsOutline(s: State, led: nat)
    ensures OutlineOf(Exec(s, Spawn(led))) == OutlineExec(OutlineOf(s), Spawn(led))
  {
    var t := Exec(s, Spawn(led));
    assert Leds(t.live) == Leds(s.live) + [led];
  }

  lemma StopFollowsOutline(s: State)
    requires |s.live| == 1 && ThreadsInv(s)
    ensures OutlineOf(Exec(s, StopThread)) == OutlineExec(OutlineOf(s), StopThread)
  {
    var t, led := Exec(s, StopThread), s.live[0].led;
    assert Lit(t.level) == Lit(s.level) - {led};
    assert Elements(Leds(s.live)) == {led};
    assert t.live == [] && Elements(Leds(t.live)) == {};
  }

  lemma ExecFollowsOutline(s: State, a: Action)
    requires Allowed(OutlineOf(s), a, |s.level|) && ThreadsInv(s)
    ensures OutlineOf(Exec(s, a)) == OutlineExec(OutlineOf(s), a)
  {
    match a
    case Put(led, v) => PutFollowsOutline(s, led, v);
    case Spawn(led) => SpawnFollowsOutline(s, led);
    case StopThread => StopFollowsOutline(s);
    case _ =>
  }

  lemma ExecKeepsThreads(s: State, a: Action)
    requires Allowed(OutlineOf(s), a, |s.level|) && ThreadsInv(s)
    ensures ThreadsInv(Exec(s, a)) && |Exec(s, a).level| == |s.level|
    ensures s.started == s.stopped + |s.live| ==> Exec(s, a).started == Exec(s, a).stopped + |Exec(s, a).live|
  {
    match a
    case Put(led, v) =>
      if v == 0 { assert |Leds(s.live)| == 0; }
    case Spawn(led) =>
      assert led !in Lit(s.level);
    case _ =>
  }

  // ---------------------------------------------------------------- every handler is safe

  /** Only LEDs from k on, and those of live threads, may be lit. */
  predicate Clearing(o: Outline, k: nat, n: nat) {
    && k <= n && |o.live| <= 1 && Elements(o.live) <= o.may
    && forall x :: x in o.may && x !in o.live ==> k <= x < n
  }

  /** The outline once everything else has been put out. */
  function Cleared(o: Outline): Outline {
    o.(may := Elements(o.live))
  }

  lemma ClearOne(o: Outline, k: nat, n: nat)
    requires Clearing(o, k, n) && k < n
    ensures var next := OutlineExec(o, Put(k, 1));
      Clearing(next, k + 1, n) && Cleared(next) == Cleared(o) && (AtMostOne(o.may) ==> AtMostOne(next.may))
  {
  }

  lemma ClearNone(o: Outline, n: nat)
    requires Clearing(o, n, n)
    ensures Cleared(o) == o
  {
    assert o.may == Elements(o.live);
  }

  lemma ClearUnrolls(k: nat, n: nat, rest: seq<Action>)
    requires k < n
    ensures var code := Clear(k, n) + rest; code[0] == Put(k, 1) && code[1..] == Clear(k + 1, n) + rest
  {
  }

  lemma SafeStep(o: Outline, code: seq<Action>, n: nat)
    requires code != [] && AtMostOne(o.may) && |o.live| <= 1 && Elements(o.live) <= o.may
    requires Allowed(o, code[0], n) && Safe(OutlineExec(o, code[0]), code[1..], n)
    ensures Safe(o, code, n)
  {
  }

  /** Clearing LEDs k to n leaves only the live threads' LEDs possibly lit. */
  lemma {:induction false} ClearIsSafe(o: Outline, k: nat, n: nat, rest: seq<Action>)
    requires Clearing(o, k, n) && AtMostOne(o.may) && Safe(Cleared(o), rest, n)
    ensures Safe(o, Clear(k, n) + rest, n)
    decreases n - k
  {
    hide OutlineExec, Elements, AtMostOne, Cleared;
    if k == n {
      ClearNone(o, n);
      assert Clear(k, n) + rest == rest;
    } else {
      ClearOne(o, k, n);
      ClearIsSafe(OutlineExec(o, Put(k, 1)), k + 1, n, rest);
      ClearUnrolls(k, n, rest);
      SafeStep(o, Clear(k, n) + rest, n);
    }
  }

  /** What a handler starts from. */
  predicate Ready(o: Outline, n: nat) {
    && AtMostOne(o.may) && |o.live| <= 1 && Elements(o.live) <= o.may && Settled(o) && !o.removed
    && forall x :: x in o.may ==> x < n
  }

  /** Stopping the thread, if there is one, leaves a settled outline without it. */
  function AfterStop(o: Outline): Outline {
    if o.taskFlag then o.(live := [], may := o.may - Elements(o.live), taskFlag := false) else o
  }

  lemma StopIsSafe(o: Outline, n: nat, rest: seq<Action>)
    requires Ready(o, n) && Safe(AfterStop(o), rest, n)
    ensures Safe(o, (if o.taskFlag then [StopThread, SetTask(false)] else []) + rest, n)
  {
    if o.taskFlag {
      var code := [StopThread, SetTask(false)] + rest;
      assert code[1..] == [SetTask(false)] + rest && code[1..][1..] == rest;
      assert Elements(o.live) == {o.live[0]};
    } else {
      assert [] + rest == rest;
    }
  }

  /** Switching one LED on is safe when nothing else can be lit. */
  lemma PutOnIsSafe(o: Outline, led: nat, n: nat, rest: seq<Action>)
    requires o.live == [] && o.may == {} && led < n
    requires Safe(o.(may := {led}), rest, n)
    ensures Safe(o, [Put(led, 0)] + rest, n)
  {
    assert ([Put(led, 0)] + rest)[1..] == rest;
    assert o.may + {led} == {led};
  }

  lemma SetLedBodyIsSafe(a: Outline, h: Handler, n: nat)
    requires Ready(a, n) && a.live == [] && !a.taskFlag && h.SetLed? && h.led < n
    ensures Safe(a, Code(h, n, a.ledFlag, false), n)
  {
    if Text(h.buf) == "on" {
      if a.ledFlag {
        var cleared := a.(may := {});
        assert Elements(a.live) == {};
        PutOnIsSafe(cleared, h.led, n, []);
        ClearIsSafe(a, 0, n, [Put(h.led, 0)]);
        assert [] + (Clear(0, n) + [Put(h.led, 0)]) == Clear(0, n) + [Put(h.led, 0)];
      } else {
        PutOnIsSafe(a, h.led, n, [SetLit]);
        assert [] + [Put(h.led, 0), SetLit] == [Put(h.led, 0)] + [SetLit];
      }
    } else if Text(h.buf) == "off" {
      assert Safe(OutlineExec(a, Put(h.led, 1)), [], n);
      assert [] + [Put(h.led, 1)] == [Put(h.led, 1)];
    }
  }

  lemma SetLedIsSafe(o: Outline, h: Handler, n: nat)
    requires Ready(o, n) && h.SetLed? && h.led < n
    ensures Safe(o, Code(h, n, o.ledFlag, o.taskFlag), n)
  {
    var body := Code(h, n, o.ledFlag, false);
    SetLedBodyIsSafe(AfterStop(o), h, n);
    StopIsSafe(o, n, body);
    assert Code(h, n, o.ledFlag, o.taskFlag) == (if o.taskFlag then [StopThread, SetTask(false)] else []) + body;
  }

  lemma BlinkOnIsSafe(o: Outline, h: Handler, n: nat)
    requires Ready(o, n) && h.BlinkOn? && h.led < n
    ensures Safe(o, Code(h, n, o.ledFlag, o.taskFlag), n)
  {
    var spawn := if Text(h.buf) == "on" && !o.taskFlag && h.created then [Spawn(h.led), SetTask(true)] else [];
    var cleared := if o.ledFlag then o.(may := Elements(o.live)) else o;
    assert cleared.may == Elements(o.live) || o.ledFlag;
    if spawn != [] {
      var once := OutlineExec(cleared, Spawn(h.led));
      assert spawn[1..] == [SetTask(true)];
      assert Safe(once, [SetTask(true)], n);
    }
    assert Safe(cleared, spawn, n);
    if o.ledFlag {
      ClearIsSafe(o, 0, n, spawn);
    } else {
      assert [] + spawn == spawn;
    }
  }

  lemma BlinkOffIsSafe(o: Outline, h: Handler, n: nat)
    requires Ready(o, n) && h.BlinkOff? && h.led < n
    ensures Safe(o, Code(h, n, o.ledFlag, o.taskFlag), n)
  {
    if Text(h.buf) == "off" && o.taskFlag {
      var stopped := OutlineExec(o, StopThread);
      assert Elements(o.live) == {o.live[0]};
      ClearIsSafe(stopped, 0, n, [SetTask(false)]);
      var code := [StopThread] + Clear(0, n) + [SetTask(false)];
      assert code[1..] == Clear(0, n) + [SetTask(false)];
    }
  }

  lemma RemoveIsSafe(o: Outline, n: nat)
    requires Ready(o, n)
    ensures Safe(o, Code(Remove, n, o.ledFlag, o.taskFlag), n)
  {
    var a := AfterStop(o);
    var rest := (if o.ledFlag then Clear(0, n) else []) + [Gone];
    if o.ledFlag {
      ClearIsSafe(a, 0, n, [Gone]);
    } else {
      assert [] + [Gone] == [Gone];
    }
    StopIsSafe(o, n, rest);
    assert Code(Remove, n, o.ledFlag, o.taskFlag)
        == (if o.taskFlag then [StopThread, SetTask(false)] else []) + rest;
  }

  lemma HandlerIsSafe(o: Outline, h: Handler, n: nat)
    requires Ready(o, n) && ValidLed(h, n)
    ensures Safe(o, Code(h, n, o.ledFlag, o.taskFlag), n)
  {
    match h
    case SetLed(_, _) => SetLedIsSafe(o, h, n);
    case BlinkOn(_, _, _) => BlinkOnIsSafe(o, h, n);
    case BlinkOff(_, _) => BlinkOffIsSafe(o, h, n);
    case Remove => RemoveIsSafe(o, n);
  }

  // ---------------------------------------------------------------- every run

  lemma IdleIsReady(s: State)
    requires Inv(s) && s.code == [] && !s.removed
    ensures Ready(OutlineOf(s), |s.level|)
  {
    forall x | x in OutlineOf(s).may
      ensures x < |s.level|
    {
      if x in Leds(s.live) {
        var k :| 0 <= k < |s.live| && Leds(s.live)[k] == x;
        assert s.live[k].led == x;
      }
    }
  }

  lemma NextKeepsInv(s: State, e: Event)
    requires Inv(s) && Enabled(s, e)
    ensures Inv(Next(s, e)) && |Next(s, e).level| == |s.level|
  {
    match e
    case Begin(h) =>
      IdleIsReady(s);
      HandlerIsSafe(OutlineOf(s), h, |s.level|);
    case Go =>
      var next := s.(code := s.code[1..]);
      assert OutlineOf(next) == OutlineOf(s);
      ExecFollowsOutline(next, s.code[0]);
      ExecKeepsThreads(next, s.code[0]);
    case Thread(k) => FlickerKeepsOutline(s, k);
  }

  lemma {:induction false} RunKeepsInv(s: State, run: seq<Event>, s': State)
    requires Inv(s) && Reaches(s, run, s')
    ensures Inv(s')
    decreases run
  {
    if run == [] {
    } else {
      NextKeepsInv(s, run[0]);
      RunKeepsInv(Next(s, run[0]), run[1..], s');
    }
  }

  lemma InitInv(s: State)
    requires Init(s)
    ensures Inv(s)
  {
    assert Lit(s.level) == {};
    assert Elements(Leds(s.live)) == {};
  }

  /** In every state of every run, even in the middle of a handler's loop, at most one LED is lit;
      between handlers the task flag is set iff exactly one flashing thread lives; kthread_stop is
      called at most once for each thread and only while it lives; and once the driver is removed
      nothing is lit and no thread lives. */
  lemma AtMostOneLit(s0: State, run: seq<Event>, s: State)
    requires Init(s0) && Reaches(s0, run, s)
    ensures forall j, k :: 0 <= j < |s.level| && 0 <= k < |s.level| && s.level[j] == 0 && s.level[k] == 0 ==> j == k
    ensures s.code == [] ==> (s.taskFlag <==> |s.live| == 1)
    ensures |s.live| <= 1 && s.started == s.stopped + |s.live|
    ensures s.code != [] && s.code[0] == StopThread ==> |s.live| == 1
    ensures s.removed && s.code == [] ==> Lit(s.level) == {} && s.live == []
  {
    InitInv(s0);
    RunKeepsInv(s0, run, s);
    var may := OutlineOf(s).may;
    forall j, k | 0 <= j < |s.level| && 0 <= k < |s.level| && s.level[j] == 0 && s.level[k] == 0
      ensures j == k
    {
      assert j in may && k in may;
    }
    if s.removed && s.code == [] {
      assert Lit(s.level) <= may;
      assert |Leds(s.live)| == 0;
    }
  }

  // ---------------------------------------------------------------- thread steps do not matter

  function OutlineRun(o: Outline, code: seq<Action>): Outline
    decreases code
  {
    if code == [] then o else OutlineRun(OutlineExec(o, code[0]), code[1..])
  }

  /** Whatever thread steps come in between, a handler ends in the outline it would reach alone. */
  lemma {:induction false} InterleavingDoesNotMatter(s: State, run: seq<Event>, s': State)
    requires Inv(s) && Reaches(s, run, s')
    requires forall e :: e in run ==> !e.Begin?
    ensures OutlineRun(OutlineOf(s'), s'.code) == OutlineRun(OutlineOf(s), s.code)
    decreases run
  {
    if run == [] {
    } else {
      var e := run[0];
      match e {
        case Go =>
          var next := s.(code := s.code[1..]);
          assert OutlineOf(next) == OutlineOf(s);
          ExecFollowsOutline(next, s.code[0]);
        case Thread(k) => FlickerKeepsOutline(s, k);
      }
      NextKeepsInv(s, e);
      InterleavingDoesNotMatter(Next(s, e), run[1..], s');
    }
  }

  // ---------------------------------------------------------------- what the handlers achieve

  lemma {:induction false} ClearRuns(o: Outline, k: nat, n: nat, rest: seq<Action>)
    requires Clearing(o, k, n)
    ensures OutlineRun(o, Clear(k, n) + rest) == OutlineRun(Cleared(o), rest)
    decreases n - k
  {
    hide OutlineExec, Elements, Cleared;
    if k == n {
      ClearNone(o, n);
      assert Clear(k, n) + rest == rest;
    } else {
      ClearOne(o, k, n);
      ClearRuns(OutlineExec(o, Put(k, 1)), k + 1, n, rest);
      ClearUnrolls(k, n, rest);
    }
  }

  lemma RunOne(o: Outline, a: Action)
    ensures OutlineRun(o, [a]) == OutlineExec(o, a)
  {
    assert OutlineRun(OutlineExec(o, a), []) == OutlineExec(o, a);
  }

  lemma RunTwo(o: Outline, a: Action, b: Action)
    ensures OutlineRun(o, [a, b]) == OutlineExec(OutlineExec(o, a), b)
  {
    assert [a, b][1..] == [b];
    RunOne(OutlineExec(o, a), b);
  }

  lemma StopRuns(o: Outline, n: nat, rest: seq<Action>)
    requires Ready(o, n)
    ensures OutlineRun(o, (if o.taskFlag then [StopThread, SetTask(false)] else []) + rest)
         == OutlineRun(AfterStop(o), rest)
  {
    if o.taskFlag {
      var code := [StopThread, SetTask(false)] + rest;
      assert code[1..] == [SetTask(false)] + rest && code[1..][1..] == rest;
      assert Elements(o.live) == {o.live[0]};
    } else {
      assert [] + rest == rest;
    }
  }

  /** set_led: any live thread is stopped; "on" leaves exactly this LED lit, "off" puts just this
      one out, and any other text changes no LED but the stopped thread's. */
  lemma SetLedEffect(o: Outline, led: nat, buf: string, n: nat)
    requires Ready(o, n) && led < n
    ensures var q := OutlineRun(o, Code(SetLed(led, buf), n, o.ledFlag, o.taskFlag));
      && q.live == [] && !q.taskFlag && (q.ledFlag <==> o.ledFlag || Text(buf) == "on")
      && (Text(buf) == "on" ==> q.may == {led})
      && (Text(buf) == "off" ==> q.may == o.may - Elements(o.live) - {led})
      && (Text(buf) != "on" && Text(buf) != "off" ==> q.may == o.may - Elements(o.live))
  {
    var body := Code(SetLed(led, buf), n, o.ledFlag, false);
    var a := AfterStop(o);
    StopRuns(o, n, body);
    assert Code(SetLed(led, buf), n, o.ledFlag, o.taskFlag)
        == (if o.taskFlag then [StopThread, SetTask(false)] else []) + body;
    assert a.live == [] && Elements(a.live) == {};
    if Text(buf) == "on" {
      if o.ledFlag {
        ClearRuns(a, 0, n, [Put(led, 0)]);
        assert [] + (Clear(0, n) + [Put(led, 0)]) == Clear(0, n) + [Put(led, 0)];
        RunOne(a.(may := {}), Put(led, 0));
      } else {
        assert body == [Put(led, 0), SetLit];
        RunTwo(a, Put(led, 0), SetLit);
      }
    } else if Text(buf) == "off" {
      assert body == [Put(led, 1)];
      RunOne(a, Put(led, 1));
    }
  }

  /** blink_on: starts a thread on this LED, alone possibly lit, exactly when the text is "on", no
      thread lives and one can be created; otherwise it can only put LEDs out. */
  lemma BlinkOnEffect(o: Outline, led: nat, buf: string, created: bool, n: nat)
    requires Ready(o, n) && led < n
    ensures var q := OutlineRun(o, Code(BlinkOn(led, buf, created), n, o.ledFlag, o.taskFlag));
      && (if Text(buf) == "on" && !o.taskFlag && created then q.live == [led] && q.taskFlag && q.may == {led}
          else && q.live == o.live && q.taskFlag == o.taskFlag
               && q.may == Elements(o.live) + (if o.ledFlag then {} else o.may))
      && q.ledFlag == o.ledFlag
  {
    var spawn := if Text(buf) == "on" && !o.taskFlag && created then [Spawn(led), SetTask(true)] else [];
    var cleared := if o.ledFlag then o.(may := Elements(o.live)) else o;
    if o.ledFlag {
      ClearRuns(o, 0, n, spawn);
    } else {
      assert [] + spawn == spawn;
    }
    if spawn != [] {
      RunTwo(cleared, Spawn(led), SetTask(true));
    }
  }

  /** blink_off stops the thread and darkens everything, exactly when the text is "off" and a thread lives. */
  lemma BlinkOffEffect(o: Outline, led: nat, buf: string, n: nat)
    requires Ready(o, n)
    ensures var q := OutlineRun(o, Code(BlinkOff(led, buf), n, o.ledFlag, o.taskFlag));
      if Text(buf) == "off" && o.taskFlag then q == o.(may := {}, live := [], taskFlag := false) else q == o
  {
    if Text(buf) == "off" && o.taskFlag {
      var stopped := OutlineExec(o, StopThread);
      assert Elements(o.live) == {o.live[0]} && Elements(stopped.live) == {};
      var code := [StopThread] + Clear(0, n) + [SetTask(false)];
      assert code[1..] == Clear(0, n) + [SetTask(false)];
      ClearRuns(stopped, 0, n, [SetTask(false)]);
      RunOne(stopped.(may := {}), SetTask(false));
    }
  }

  /** From any state a run can reach between handlers, whatever thread steps a handler meets on its
      way, it ends in the outline its actions give. */
  lemma HandlerOutcome(s0: State, before: seq<Event>, s: State, h: Handler, run: seq<Event>, s': State)
    requires Init(s0) && Reaches(s0, before, s) && Enabled(s, Begin(h))
    requires Reaches(Next(s, Begin(h)), run, s') && (forall e :: e in run ==> !e.Begin?) && s'.code == []
    ensures Ready(OutlineOf(s), |s.level|)
    ensures OutlineOf(s') == OutlineRun(OutlineOf(s), Code(h, |s.level|, s.ledFlag, s.taskFlag))
  {
    InitInv(s0);
    RunKeepsInv(s0, before, s);
    IdleIsReady(s);
    NextKeepsInv(s, Begin(h));
    assert OutlineOf(Next(s, Begin(h))) == OutlineOf(s);
    InterleavingDoesNotMatter(Next(s, Begin(h)), run, s');
  }

  /** What set_led leaves lit. */
  function AfterSetLed(s: State, led: nat, buf: string): set<nat> {
    if Text(buf) == "on" then {led}
    else Lit(s.level) - Elements(Leds(s.live)) - if Text(buf) == "off" then {led} else {}
  }

  /** So, however the flashing thread ran in between: a finished set_led "on" leaves exactly its LED
      lit, and with another text it puts out what a thread lit and, for "off", its own LED; a finished
      blink_off that found a thread leaves all dark; and a finished blink_on that could start a thread
      leaves that one alone, with only its LED possibly lit. */
  lemma LightsAfterHandler(s0: State, before: seq<Event>, s: State, h: Handler, run: seq<Event>, s': State)
    requires Init(s0) && Reaches(s0, before, s) && Enabled(s, Begin(h))
    requires Reaches(Next(s, Begin(h)), run, s') && (forall e :: e in run ==> !e.Begin?) && s'.code == []
    ensures h.SetLed? ==> s'.live == []
    ensures h.SetLed? ==> Lit(s'.level) == AfterSetLed(s, h.led, h.buf)
    ensures h.BlinkOff? && Text(h.buf) == "off" && s.taskFlag ==> Lit(s'.level) == {} && s'.live == []
    ensures h.BlinkOn? && Text(h.buf) == "on" && !s.taskFlag && h.created ==>
      |s'.live| == 1 && s'.live[0].led == h.led && Lit(s'.level) <= {h.led}
  {
    HandlerOutcome(s0, before, s, h, run, s');
    var o, n, q := OutlineOf(s), |s.level|, OutlineOf(s');
    assert |Leds(s'.live)| == |s'.live| && Lit(s'.level) <= q.may;
    match h
    case SetLed(led, buf) =>
      SetLedEffect(o, led, buf, n);
      assert Elements(q.live) == {};
    case BlinkOn(led, buf, created) =>
      BlinkOnEffect(o, led, buf, created, n);
    case BlinkOff(led, buf) => BlinkOffEffect(o, led, buf, n);
    case Remove =>
  }
}
