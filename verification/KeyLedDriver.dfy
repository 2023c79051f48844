/** The store handlers and the thread body as the code runs them, on the GPIO lines. */
module KeyLedDriver {
  import opened Common
  import opened KeyLed

  function ExecAll(s: State, code: seq<Action>): State
    decreases code
  {
    if code == [] then s else ExecAll(Exec(s, code[0]), code[1..])
  }

  lemma {:induction false} ExecAllJoins(s: State, a: seq<Action>, b: seq<Action>)
    ensures ExecAll(s, a + b) == ExecAll(ExecAll(s, a), b)
    decreases a
  {
    hide Exec;
    if a == [] {
      assert a + b == b;
    } else {
      ExecAllJoins(Exec(s, a[0]), a[1..], b);
      assert (a + b)[1..] == a[1..] + b;
    }
  }

  lemma {:induction false} ClearSplits(k: nat, m: nat, n: nat)
    requires k <= m <= n
    ensures Clear(k, m) + Clear(m, n) == Clear(k, n)
    decreases m - k
  {
    if k == m {
    } else {
      ClearSplits(k + 1, m, n);
      Associate([Put(k, 1)], Clear(k + 1, m), Clear(m, n));
    }
  }

  lemma ClearGrows(m: nat)
    ensures Clear(0, m) + [Put(m, 1)] == Clear(0, m + 1)
  {
    ClearSplits(0, m, m + 1);
    assert Clear(m, m + 1) == [Put(m, 1)] + Clear(m + 1, m + 1);
  }

  datatype Status = Count | Zero | Invalid | Busy | Failed

  class LedDriver {
    const leds: array<Level>
    var ledFlag: bool
    var taskFlag: bool
    var live: seq<Flash>
    ghost var started: nat
    ghost var stopped: nat
    ghost var removed: bool

    ghost predicate Valid()
      reads this
    {
      ThreadsFit() && (taskFlag ==> live != [])
    }

    ghost predicate ThreadsFit()
      reads this
    {
      forall k :: 0 <= k < |live| ==> live[k].led < leds.Length
    }

    ghost function Abs(): State
      reads this, leds
    {
      State(leds[..], ledFlag, taskFlag, live, started, stopped, [], removed)
    }

    /** The end of probe: every LED switched off. */
    constructor (n: nat)
      ensures Valid() && fresh(leds) && Init(Abs()) && leds.Length == n
    {
      leds := new Level[n](_ => 1);
      ledFlag, taskFlag, live, started, stopped, removed := false, false, [], 0, 0, false;
    }

    method SetValue(led: nat, v: Level)
      requires led < leds.Length
      modifies leds
      ensures Abs() == Exec(old(Abs()), Put(led, v))
    {
      leds[led] := v;
    }

    method AllOff()
      modifies leds
      ensures Abs() == ExecAll(old(Abs()), Clear(0, leds.Length))
    {
      var i := 0;
      while i < leds.Length
        invariant 0 <= i <= leds.Length
        invariant Abs() == ExecAll(old(Abs()), Clear(0, i))
      {
        ClearGrows(i);
        ExecAllJoins(old(Abs()), Clear(0, i), [Put(i, 1)]);
        ghost var before := Abs();
        SetValue(i, 1);
        assert ExecAll(before, [Put(i, 1)]) == ExecAll(Exec(before, Put(i, 1)), []);
        i := i + 1;
      }
    }

    /** kthread_stop: the remembered thread exits, switching its LED off if it was entered. */
    method Stop()
      requires ThreadsFit() && live != []
      modifies this`live, this`stopped, leds
      ensures ThreadsFit()
      ensures Abs() == Exec(old(Abs()), StopThread)
    {
      var f := live[|live| - 1];
      live := live[..|live| - 1];
      stopped := stopped + 1;
      if f.entered {
        leds[f.led] := 1;
      }
    }

    method StopTask()
      requires Valid() && live != []
      modifies this`live, this`stopped, this`taskFlag, leds
      ensures Valid() && !taskFlag
      ensures Abs() == ExecAll(old(Abs()), [StopThread, SetTask(false)])
    {
      Stop();
      taskFlag := false;
      Two(old(Abs()), StopThread, SetTask(false));
    }

    /** set_led_store */
    method SetLedStore(led: nat, buf: string) returns (status: Status)
      requires Valid() && led < leds.Length
      modifies this, leds
      ensures Valid()
      ensures Abs() == ExecAll(old(Abs()), Code(SetLed(led, buf), leds.Length, old(ledFlag), old(taskFlag)))
      ensures status == if Text(buf) == "on" || Text(buf) == "off" then Count else Invalid
    {
      ghost var stop := if taskFlag then [StopThread, SetTask(false)] else [];
      if taskFlag {
        StopTask();
      }
      ghost var mid := Abs();
      assert mid == ExecAll(old(Abs()), stop);
      ghost var body := if Text(buf) == "on" then
                          if ledFlag then Clear(0, leds.Length) + [Put(led, 0)] else [Put(led, 0), SetLit]
                        else if Text(buf) == "off" then [Put(led, 1)] else [];
      if Text(buf) == "on" {
        status := Count;
        if ledFlag {
          AllOff();
          SetValue(led, 0);
          One(ExecAll(mid, Clear(0, leds.Length)), Put(led, 0));
          ExecAllJoins(mid, Clear(0, leds.Length), [Put(led, 0)]);
        } else {
          SetValue(led, 0);
          ledFlag := true;
          Two(mid, Put(led, 0), SetLit);
        }
      } else if Text(buf) == "off" {
        status := Count;
        SetValue(led, 1);
        One(mid, Put(led, 1));
      } else {
        status := Invalid;
      }
      ExecAllJoins(old(Abs()), stop, body);
    }

    /** blink_on_led_store; created says whether kthread_run succeeds. */
    method BlinkOnStore(led: nat, buf: string, created: bool) returns (status: Status)
      requires Valid() && led < leds.Length
      modifies this, leds
      ensures Valid()
      ensures Abs() == ExecAll(old(Abs()), Code(BlinkOn(led, buf, created), leds.Length, old(ledFlag), old(taskFlag)))
      ensures status == if Text(buf) != "on" then Invalid
                        else if old(taskFlag) then Busy
                        else if created then Count else Failed
    {
      ghost var clear := if ledFlag then Clear(0, leds.Length) else [];
      if ledFlag {
        AllOff();
      }
      ghost var mid := Abs();
      assert mid == ExecAll(old(Abs()), clear);
      ghost var body := if Text(buf) == "on" && !taskFlag && created then [Spawn(led), SetTask(true)] else [];
      ExecAllJoins(old(Abs()), clear, body);
      if Text(buf) == "on" {
        if !taskFlag {
          if !created {
            return Failed;
          }
          live := live + [Flash(led, 0, false)];
          started := started + 1;
        } else {
          return Busy;
        }
      } else {
        return Invalid;
      }
      taskFlag := true;
      Two(mid, Spawn(led), SetTask(true));
      return Count;
    }

    /** blink_off_led_store */
    method BlinkOffStore(led: nat, buf: string) returns (status: Status)
      requires Valid()
      modifies this, leds
      ensures Valid()
      ensures Abs() == ExecAll(old(Abs()), Code(BlinkOff(led, buf), leds.Length, old(ledFlag), old(taskFlag)))
      ensures status == if Text(buf) != "off" then Invalid else if old(taskFlag) then Count else Zero
    {
      if Text(buf) == "off" {
        if taskFlag {
          ghost var s, clear := Abs(), Clear(0, leds.Length);
          Stop();
          AllOff();
          taskFlag := false;
          One(s, StopThread);
          ExecAllJoins(s, [StopThread], clear);
          One(ExecAll(s, [StopThread] + clear), SetTask(false));
          ExecAllJoins(s, [StopThread] + clear, [SetTask(false)]);
          return Count;
        } else {
          return Zero;
        }
      } else {
        return Invalid;
      }
    }

    /** my_remove */
    method RemoveDriver()
      requires Valid()
      modifies this, leds
      ensures Valid()
      ensures Abs() == ExecAll(old(Abs()), Code(Remove, leds.Length, old(ledFlag), old(taskFlag)))
    {
      ghost var s := Abs();
      ghost var stop := if taskFlag then [StopThread, SetTask(false)] else [];
      ghost var clear := if ledFlag then Clear(0, leds.Length) else [];
      if taskFlag {
        StopTask();
      }
      assert Abs() == ExecAll(s, stop);
      if ledFlag {
        AllOff();
      }
      ExecAllJoins(s, stop, clear);
      removed := true;
      One(ExecAll(s, stop + clear), Gone);
      ExecAllJoins(s, stop + clear, [Gone]);
    }

    /** One scheduling of a live thread: it enters led_flash, or goes once round its loop. */
    method FlashOnce(k: nat)
      requires Valid() && k < |live|
      modifies this`live, leds
      ensures Valid()
      ensures Abs() == Flicker(old(Abs()), k)
    {
      var f := live[k];
      if !f.entered {
        live := live[k := f.(entered := true)];
      } else {
        var value: Level := 1 - f.value;
        leds[f.led] := value;
        live := live[k := f.(value := value)];
      }
    }
  }

  lemma One(s: State, a: Action)
    ensures ExecAll(s, [a]) == Exec(s, a)
  {
    assert ExecAll(Exec(s, a), []) == Exec(s, a);
  }

  lemma Two(s: State, a: Action, b: Action)
    ensures ExecAll(s, [a, b]) == Exec(Exec(s, a), b)
  {
    assert [a, b][1..] == [b];
    One(Exec(s, a), b);
  }

  /** n steps of the handler in progress, with no thread in between. */
  function Gos(n: nat): (run: seq<Event>)
    ensures |run| == n && forall k :: 0 <= k < n ==> run[k] == Go
  {
    if n == 0 then [] else [Go] + Gos(n - 1)
  }

  lemma ExecIgnoresCode(s: State, code: seq<Action>, a: Action)
    ensures Exec(s.(code := code), a) == Exec(s, a).(code := code)
  {
  }

  lemma CodeAfter(s: State, a: Action)
    ensures Exec(s, a).code == s.code
  {
  }

  lemma GoStep(s: State, code: seq<Action>)
    requires code != []
    ensures Enabled(s.(code := code), Go)
    ensures Next(s.(code := code), Go) == Exec(s, code[0]).(code := code[1..])
  {
    ExecIgnoresCode(s, code[1..], code[0]);
    assert s.(code := code).(code := code[1..]) == s.(code := code[1..]);
  }

  /** Running a handler without interruption is one of the machine's runs, so everything proved
      about runs holds for the methods above. */
  lemma {:induction false} AloneIsARun(s: State, code: seq<Action>)
    requires s.code == []
    ensures Reaches(s.(code := code), Gos(|code|), ExecAll(s, code))
    decreases code
  {
    if code == [] {
      assert s.(code := code) == s;
    } else {
      var next := Exec(s, code[0]);
      CodeAfter(s, code[0]);
      GoStep(s, code);
      AloneIsARun(next, code[1..]);
      GosStep(s.(code := code), |code|, ExecAll(s, code));
    }
  }

  lemma GosStep(s: State, n: nat, end: State)
    requires n > 0 && Enabled(s, Go) && Reaches(Next(s, Go), Gos(n - 1), end)
    ensures Reaches(s, Gos(n), end)
  {
    assert Gos(n)[1..] == Gos(n - 1);
  }
}
