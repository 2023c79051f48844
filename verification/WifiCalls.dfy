/** What callers ask of the dummy wireless driver and what comes of it: which arguments a run can
    store and report, and one call from quiet to quiet. */
module WifiCalls {
  import opened Common
  import opened Wifi

  // ---------------------------------------------------------------- arguments

  /** The latest call of caller t. */
  function Latest(past: seq<Event>, t: nat): Option<Event>
    decreases past
  {
    if past == [] then None else
      var n := |past| - 1;
      if IsCall(past[n]) && past[n].t == t then Some(past[n]) else Latest(past[..n], t)
  }

  /** Somebody asked for this scan, or to connect to this name. */
  ghost predicate ScanCalled(past: seq<Event>, req: Request) {
    exists t :: CallScan(t, req) in past
  }

  ghost predicate ConnectCalled(past: seq<Event>, name: Name) {
    exists t :: CallConnect(t, name) in past
  }

  /** A caller under way carries the argument of its latest call. */
  predicate CarriesLatest(past: seq<Event>, t: nat, c: Caller) {
    match c
    case Idle => true
    case ScanWaits(req) => Latest(past, t) == Some(CallScan(t, req))
    case ScanHolds(req) => Latest(past, t) == Some(CallScan(t, req))
    case ScanSchedules(req) => Latest(past, t) == Some(CallScan(t, req))
    case ConnectWaits(name) => Latest(past, t) == Some(CallConnect(t, name))
    case ConnectHolds(name) => Latest(past, t) == Some(CallConnect(t, name))
    case ConnectSchedules => Latest(past, t).Some? && Latest(past, t).value.CallConnect?
  }

  predicate CallersCarry(past: seq<Event>, s: State) {
    forall t :: 0 <= t < |s.callers| ==> CarriesLatest(past, t, s.callers[t])
  }

  ghost predicate ScansCalled(past: seq<Event>, s: State) {
    forall k :: 0 <= k < |s.accepted| ==> ScanCalled(past, s.accepted[k])
  }

  ghost predicate ConnectsCalled(past: seq<Event>, s: State) {
    && (s.lastName.Some? ==> ConnectCalled(past, s.lastName.value))
    && (forall k :: 0 <= k < |s.reports| && s.reports[k].lastName.Some? ==>
          ConnectCalled(past, s.reports[k].lastName.value))
  }

  lemma LatestAfter(past: seq<Event>, e: Event, t: nat)
    ensures Latest(past + [e], t) == if IsCall(e) && e.t == t then Some(e) else Latest(past, t)
  {
    assert (past + [e])[..|past|] == past;
  }

  lemma {:induction false} LatestIsPast(past: seq<Event>, t: nat)
    requires Latest(past, t).Some?
    ensures Latest(past, t).value in past
  {
    var n := |past| - 1;
    if IsCall(past[n]) && past[n].t == t {
    } else {
      LatestIsPast(past[..n], t);
    }
  }

  lemma StaysCalled(past: seq<Event>, e: Event)
    ensures forall req :: ScanCalled(past, req) ==> ScanCalled(past + [e], req)
    ensures forall name :: ConnectCalled(past, name) ==> ConnectCalled(past + [e], name)
  {
    forall req | ScanCalled(past, req)
      ensures ScanCalled(past + [e], req)
    {
      var t :| CallScan(t, req) in past;
      assert CallScan(t, req) in past + [e];
    }
    forall name | ConnectCalled(past, name)
      ensures ConnectCalled(past + [e], name)
    {
      var t :| CallConnect(t, name) in past;
      assert CallConnect(t, name) in past + [e];
    }
  }

  /** Only the thread that steps moves. */
  lemma OthersStay(s: State, e: Event, u: nat)
    requires WellFormed(s) && Enabled(s, e) && u < |s.callers|
    requires e.StepScanner? || e.StepConnector? || e.t != u
    ensures Next(s, e).callers[u] == s.callers[u]
  {
    hide StoreName;
  }

  lemma StepCarries(past: seq<Event>, s: State, e: Event)
    requires WellFormed(s) && Enabled(s, e) && CallersCarry(past, s)
    ensures CallersCarry(past + [e], Next(s, e))
  {
    forall u | 0 <= u < |s.callers|
      ensures CarriesLatest(past + [e], u, Next(s, e).callers[u])
    {
      assert CarriesLatest(past, u, s.callers[u]);
      LatestAfter(past, e, u);
      hide Latest, CallersCarry, StoreName;
      if e.StepScanner? || e.StepConnector? || e.t != u {
        OthersStay(s, e, u);
        hide Next;
      }
    }
  }

  lemma StepCallsScans(past: seq<Event>, s: State, e: Event)
    requires WellFormed(s) && Enabled(s, e) && CallersCarry(past, s) && ScansCalled(past, s)
    ensures ScansCalled(past + [e], Next(s, e))
  {
    StaysCalled(past, e);
    if e.StepCaller? && s.callers[e.t].ScanHolds? {
      assert CarriesLatest(past, e.t, s.callers[e.t]);
      LatestIsPast(past, e.t);
      assert ScanCalled(past, s.callers[e.t].req);
    }
    hide ScanCalled, Latest, StoreName;
  }

  lemma StepCallsConnects(past: seq<Event>, s: State, e: Event)
    requires WellFormed(s) && Enabled(s, e) && CallersCarry(past, s) && ConnectsCalled(past, s)
    ensures ConnectsCalled(past + [e], Next(s, e))
  {
    StaysCalled(past, e);
    if e.StepCaller? && s.callers[e.t].ConnectHolds? {
      assert CarriesLatest(past, e.t, s.callers[e.t]);
      LatestIsPast(past, e.t);
      assert ConnectCalled(past, s.callers[e.t].name);
    }
    hide ConnectCalled, Latest, StoreName, Matches;
  }

  lemma {:induction false} RunCalls(past: seq<Event>, s: State, run: seq<Event>, s': State)
    requires Reaches(s, run, s') && CallersCarry(past, s) && ScansCalled(past, s) && ConnectsCalled(past, s)
    ensures CallersCarry(past + run, s') && ScansCalled(past + run, s') && ConnectsCalled(past + run, s')
    decreases run
  {
    hide Next, Enabled, CallersCarry, ScansCalled, ConnectsCalled;
    if run == [] {
      assert past + run == past;
    } else {
      StepCarries(past, s, run[0]);
      StepCallsScans(past, s, run[0]);
      StepCallsConnects(past, s, run[0]);
      RunCalls(past + [run[0]], Next(s, run[0]), run[1..], s');
      assert past + run == past + [run[0]] + run[1..];
    }
  }

  /** In every run: a caller under way carries the argument of its own latest call, every accepted
      scan is one that was called for, and so is every name stored or reported on. */
  lemma ArgumentsComeFromCalls(s0: State, run: seq<Event>, s: State)
    requires Init(s0) && Reaches(s0, run, s)
    ensures forall t :: 0 <= t < |s.callers| ==> CarriesLatest(run, t, s.callers[t])
    ensures forall k :: 0 <= k < |s.accepted| ==> ScanCalled(run, s.accepted[k])
    ensures s.lastName.Some? ==> ConnectCalled(run, s.lastName.value)
    ensures forall k :: 0 <= k < |s.reports| && s.reports[k].lastName.Some? ==>
              ConnectCalled(run, s.reports[k].lastName.value)
  {
    RunCalls([], s0, run, s);
    assert [] + run == run;
  }

  // ---------------------------------------------------------------- one call, quiet to quiet

  /** No new call, and no signal while a thread waits. */
  predicate Undisturbed(run: seq<Event>) {
    forall e :: e in run ==> !IsCall(e) && !(e.StepCaller? && e.interrupted)
  }

  predicate AllIdle(s: State) {
    forall t :: 0 <= t < |s.callers| ==> s.callers[t] == Idle
  }

  predicate OthersIdle(s: State, t: nat) {
    && t < |s.callers|
    && forall u :: 0 <= u < |s.callers| && u != t ==> s.callers[u] == Idle
  }

  /** Where a lone connect call can stand. */
  datatype Stage = Asked | Stored | Owed | Looking | Ending | Over

  predicate ConnectAt(s0: State, s: State, t: nat, name: Name, at: Stage) {
    && OthersIdle(s, t) && s.scanner == Off && !s.ctx.scanPending
    && (at.Asked? || at.Stored? || AllIdle(s))
    && (at.Looking? || s.connector == if at.Ending? then Done else Off)
    && (s.ctx.connectPending <==> at.Owed?)
    && s.reports == s0.reports + (if at.Ending? || at.Over? then [Report(Spells(name), Some(name))] else [])
    && match at
       case Asked => s.callers[t] == ConnectWaits(name) || s.callers[t] == ConnectHolds(name)
       case Stored => s.callers[t] == ConnectSchedules && s.lastName == Some(name)
       case Owed => s.lastName == Some(name)
       case Looking => (s.connector == Started || s.connector == Holds) && s.lastName == Some(name)
       case _ => true
  }

  lemma ConnectAdvances(s0: State, s: State, e: Event, t: nat, name: Name, at: Stage) returns (to: Stage)
    requires Inv(s) && Enabled(s, e) && ConnectAt(s0, s, t, name, at) && Undisturbed([e])
    ensures ConnectAt(s0, Next(s, e), t, name, to)
  {
    assert e in [e];
    hide StoreName, SemaphoreInv, ScanInv, Matches, Spells;
    match at
    case Asked =>
      to := if s.callers[t].ConnectWaits? then Asked else Stored;
    case Stored =>
      to := Owed;
    case Owed =>
      to := Looking;
    case Looking =>
      to := if s.connector == Started then Looking else Ending;
    case Ending =>
      to := Over;
    case Over =>
      assert false;
  }

  lemma {:induction false} ConnectRuns(s0: State, s: State, run: seq<Event>, s': State, t: nat, name: Name, at: Stage)
    requires Inv(s) && Reaches(s, run, s') && Undisturbed(run) && ConnectAt(s0, s, t, name, at) && Quiet(s')
    ensures s'.reports == s0.reports + [Report(Spells(name), Some(name))]
    decreases run
  {
    hide Inv, Next, Enabled;
    if run == [] {
      assert at.Over?;
    } else {
      assert run[0] in run;
      var to := ConnectAdvances(s0, s, run[0], t, name, at);
      NextKeepsInv(s, run[0]);
      ConnectRuns(s0, Next(s, run[0]), run[1..], s', t, name, to);
    }
  }

  lemma QuietWaitsForCalls(s: State, rest: seq<Event>, s': State)
    requires Quiet(s) && Reaches(s, rest, s')
    ensures rest == [] || IsCall(rest[0])
  {
  }

  lemma UndisturbedStart(rest: seq<Event>)
    requires Undisturbed(rest)
    ensures rest == [] || !IsCall(rest[0])
  {
    assert rest != [] ==> rest[0] in rest;
  }

  /** From quiet, one call to connect that runs undisturbed until all is quiet again is reported
      once: connected iff the name given spells the network's, timed out otherwise. An empty name
      is refused without a report. */
  lemma ConnectEndToEnd(s0: State, run: seq<Event>, s: State, t: nat, name: Name, rest: seq<Event>, s': State)
    requires Init(s0) && Reaches(s0, run, s) && Quiet(s)
    requires Reaches(s, [CallConnect(t, name)] + rest, s') && Undisturbed(rest) && Quiet(s')
    ensures name == [] ==> s'.reports == s.reports
    ensures name != [] ==>
              && |s'.reports| == |s.reports| + 1 && s'.reports[..|s.reports|] == s.reports
              && (s'.reports[|s.reports|].success <==> Spells(name))
  {
    InitInv(s0);
    RunKeepsInv(s0, run, s);
    var call := CallConnect(t, name);
    assert ([call] + rest)[1..] == rest;
    NextKeepsInv(s, call);
    if name == [] {
      QuietWaitsForCalls(s, rest, s');
      UndisturbedStart(rest);
    } else {
      ConnectRuns(s, Next(s, call), rest, s', t, name, Asked);
    }
  }

  predicate ScanAt(s0: State, s: State, t: nat, req: Request, at: Stage) {
    && OthersIdle(s, t) && s.connector == Off && !s.ctx.connectPending
    && (at.Asked? || at.Stored? || AllIdle(s))
    && (at.Looking? || s.scanner == if at.Ending? then Done else Off)
    && (s.ctx.scanPending <==> at.Owed?)
    && s.accepted == s0.accepted + (if at.Asked? then [] else [req])
    && match at
       case Asked => s.callers[t] == ScanWaits(req) || s.callers[t] == ScanHolds(req)
       case Stored => s.callers[t] == ScanSchedules(req)
       case Looking => s.scanner == Started || s.scanner == Holds
       case _ => true
  }

  lemma ScanAdvances(s0: State, s: State, e: Event, t: nat, req: Request, at: Stage) returns (to: Stage)
    requires Inv(s) && Enabled(s, e) && ScanAt(s0, s, t, req, at) && Undisturbed([e])
    ensures ScanAt(s0, Next(s, e), t, req, to)
  {
    assert e in [e];
    NothingRecorded(s, t);
    hide StoreName, SemaphoreInv, ConnectInv, ScanInv;
    match at
    case Asked =>
      to := if s.callers[t].ScanWaits? then Asked else Stored;
    case Stored =>
      to := Owed;
    case Owed =>
      to := Looking;
    case Looking =>
      to := if s.scanner == Started then Looking else Ending;
    case Ending =>
      to := Over;
    case Over =>
      assert false;
  }

  lemma {:induction false} OneScheduler(callers: seq<Caller>, t: nat)
    requires t < |callers| && forall u :: 0 <= u < |callers| && u != t ==> callers[u] == Idle
    ensures Schedulers(callers) == if callers[t].ScanSchedules? then 1 else 0
  {
    SchedulersUpdate(callers, t, Idle);
    NoSchedulers(callers[t := Idle]);
  }

  lemma NothingRecorded(s: State, t: nat)
    requires Inv(s) && OthersIdle(s, t)
    ensures s.callers[t].ScanHolds? && s.scanner == Off && !s.ctx.scanPending ==> s.ctx.scanRequest == None
  {
    OneScheduler(s.callers, t);
  }

  lemma {:induction false} ScanRuns(s0: State, s: State, run: seq<Event>, s': State, t: nat, req: Request, at: Stage)
    requires Inv(s) && Reaches(s, run, s') && Undisturbed(run) && ScanAt(s0, s, t, req, at) && Quiet(s')
    ensures s'.accepted == s0.accepted + [req]
    decreases run
  {
    hide Inv, Next, Enabled;
    if run == [] {
      assert at.Over?;
    } else {
      assert run[0] in run;
      var to := ScanAdvances(s0, s, run[0], t, req, at);
      NextKeepsInv(s, run[0]);
      ScanRuns(s0, Next(s, run[0]), run[1..], s', t, req, to);
    }
  }

  lemma QuietCompletes(s: State)
    requires Inv(s) && Quiet(s)
    ensures |s.completed| == |s.accepted|
    ensures forall k :: 0 <= k < |s.completed| ==> s.completed[k] == Some(s.accepted[k])
  {
    NoSchedulers(s.callers);
  }

  /** From quiet, one call to scan that runs undisturbed until all is quiet again is accepted, and
      its own request is the one reported done. */
  lemma ScanEndToEnd(s0: State, run: seq<Event>, s: State, t: nat, req: Request, rest: seq<Event>, s': State)
    requires Init(s0) && Reaches(s0, run, s) && Quiet(s)
    requires Reaches(s, [CallScan(t, req)] + rest, s') && Undisturbed(rest) && Quiet(s')
    ensures s'.completed == s.completed + [Some(req)]
  {
    InitInv(s0);
    RunKeepsInv(s0, run, s);
    QuietCompletes(s);
    var call := CallScan(t, req);
    assert ([call] + rest)[1..] == rest;
    NextKeepsInv(s, call);
    RunKeepsInv(Next(s, call), rest, s');
    ScanRuns(s, Next(s, call), rest, s', t, req, Asked);
    QuietCompletes(s');
  }

  /** In every reachable state: a signal that reaches a caller while it waits for the semaphore takes
      it back to where it was before its call, and nothing else has changed. */
  lemma InterruptedCallsAreLost(s0: State, run: seq<Event>, s: State, call: Event)
    requires Init(s0) && Reaches(s0, run, s) && IsCall(call) && Enabled(s, call)
    requires call.CallConnect? ==> call.name != []
    ensures Reaches(s, [call, StepCaller(call.t, true)], s)
  {
    InitInv(s0);
    RunKeepsInv(s0, run, s);
    hide Inv;
    var asked := Next(s, call);
    assert asked.callers[call.t := Idle] == s.callers;
    assert Next(asked, StepCaller(call.t, true)) == s;
    assert Reaches(s, [], s);
    assert [call, StepCaller(call.t, true)][1..] == [StepCaller(call.t, true)];
    assert [StepCaller(call.t, true)][1..] == [];
  }

  // ---------------------------------------------------------------- bytes

  /** A store writes the name's first bytes, at most 15, ends them with a zero and leaves the rest. */
  lemma StoredBytes(c: Context, name: Name)
    requires |c.ssid| == 16
    ensures var r, n := StoreName(c, name).ssid, if |name| < 15 then |name| else 15;
      && |r| == 16 && r[n] == 0
      && (forall k :: 0 <= k < n ==> r[k] == name[k])
      && (forall k :: n < k < 16 ==> r[k] == c.ssid[k])
  {
  }

  /** The network's name in characters. */
  lemma NetworkName()
    ensures |SSID| == |"NaviflyWIFI"|
    ensures forall k :: 0 <= k < |SSID| ==> SSID[k] == "NaviflyWIFI"[k] as int
  {
    var text := "NaviflyWIFI";
    assert SSID == [78, 97, 118, 105, 102, 108, 121, 87, 73, 70, 73];
    assert text == ['N', 'a', 'v', 'i', 'f', 'l', 'y', 'W', 'I', 'F', 'I'];
    assert text[0] as int == 78 && text[1] as int == 97 && text[2] as int == 118 && text[3] as int == 105;
  }
}
