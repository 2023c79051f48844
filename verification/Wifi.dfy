/** The dummy wireless driver: scan and connect callers hand work to a work queue under one
    semaphore. Threads interleave at semaphore operations and at scheduling of work. */
module Wifi {
  import opened Common

  /** "NaviflyWIFI", and the size of the buffer for it with its terminator. */
  const SSID: seq<byte> := [78, 97, 118, 105, 102, 108, 121, 87, 73, 70, 73]
  const SSID_BUFFER := 12

  /** The longest name that is copied, and the bytes it can reach with its terminator: the buffer
      and the four bytes behind it. */
  const LONGEST := 15
  const ROOM := LONGEST + 1

  /** A network name a caller may pass. */
  type Name = seq<byte>

  /** A scan request, as far as the driver cares: its identity. */
  type Request = nat

  // ---------------------------------------------------------------- the shared context

  datatype Context = Context(
    scanRequest: Option<Request>,
    ssid: seq<byte>,
    scanPending: bool,      // pending bits of the two work items
    connectPending: bool)

  /** The critical section of nvf_scan: refuse if a request is outstanding, else record this one. */
  function TryScan(c: Context, req: Request): (Context, bool) {
    if c.scanRequest.Some? then (c, false) else (c.(scanRequest := Some(req)), true)
  }

  /** schedule_work: fails if the work is already pending. */
  function ScheduleScan(c: Context): (Context, bool) {
    (c.(scanPending := true), !c.scanPending)
  }

  function ScheduleConnect(c: Context): (Context, bool) {
    (c.(connectPending := true), !c.connectPending)
  }

  /** The critical section of the scan routine: report whatever request is there, and clear it. */
  function FinishScan(c: Context): (Context, Option<Request>) {
    (c.(scanRequest := None), c.scanRequest)
  }

  /** The part of a name that is copied. */
  function Clamp(name: Name): (r: Name)
    ensures |r| <= LONGEST
  {
    if |name| > LONGEST then name[..LONGEST] else name
  }

  /** The critical section of nvf_connect: copy the name and terminate it; the rest stays. */
  function StoreName(c: Context, name: Name): Context
    requires |c.ssid| == ROOM
  {
    c.(ssid := Clamp(name) + [0] + c.ssid[|Clamp(name)| + 1..])
  }

  /** The comparison over the whole buffer, terminator included. */
  predicate Matches(ssid: seq<byte>)
    requires |ssid| == ROOM
  {
    ssid[..SSID_BUFFER] == SSID + [0]
  }

  /** The name is the network's, possibly followed by a terminator and more. */
  predicate Spells(name: Name) {
    name == SSID || (|name| >= 12 && name[..12] == SSID + [0])
  }

  predicate LastSpells(last: Option<Name>) {
    last.Some? && Spells(last.value)
  }

  /** The critical section of the connect routine: decide, then cut the name to nothing. */
  function FinishConnect(c: Context): (Context, bool)
    requires |c.ssid| == ROOM
  {
    (c.(ssid := c.ssid[0 := 0]), Matches(c.ssid))
  }

  // ---------------------------------------------------------------- threads

  datatype Caller =
    | Idle
    | ScanWaits(req: Request)       // in nvf_scan, before down
    | ScanHolds(req: Request)
    | ScanSchedules(req: Request)   // request recorded, semaphore given back
    | ConnectWaits(name: Name)      // in nvf_connect, before down
    | ConnectHolds(name: Name)
    | ConnectSchedules

  /** A work routine: it starts by clearing the pending bit, and never runs twice at once. */
  datatype Worker = Off | Started | Holds | Done

  datatype Holder = ByCaller(t: nat) | ByScanWorker | ByConnectWorker

  datatype Report = Report(success: bool, lastName: Option<Name>)

  datatype State = State(
    ctx: Context,
    holder: Option<Holder>,         // who holds the semaphore
    callers: seq<Caller>,
    scanner: Worker,
    connector: Worker,
    // history
    accepted: seq<Request>,         // scan requests recorded
    completed: seq<Option<Request>>,// arguments of scan_done
    refused: nat,                   // scan calls that failed in schedule_work
    connects: nat,                  // connect calls that returned 0
    lastName: Option<Name>,         // last name stored since the last connect run
    reports: seq<Report>)

  datatype Event =
    | CallScan(t: nat, req: Request)
    | CallConnect(t: nat, name: Name)
    | StepCaller(t: nat, interrupted: bool)  // interrupted: a signal arrives while waiting in down
    | StepScanner
    | StepConnector

  predicate Enabled(s: State, e: Event) {
    match e
    case CallScan(t, _) => t < |s.callers| && s.callers[t].Idle?
    case CallConnect(t, _) => t < |s.callers| && s.callers[t].Idle?
    case StepCaller(t, interrupted) =>
      && t < |s.callers| && !s.callers[t].Idle?
      && (s.callers[t].ScanWaits? || s.callers[t].ConnectWaits? ==> s.holder.None? || interrupted)
    case StepScanner => CanStep(s, s.scanner, s.ctx.scanPending)
    case StepConnector => CanStep(s, s.connector, s.ctx.connectPending)
  }

  predicate CanStep(s: State, w: Worker, pending: bool) {
    match w
    case Off => pending
    case Started => s.holder.None?
    case _ => true
  }

  predicate WellFormed(s: State) {
    |s.ctx.ssid| == ROOM
  }

  function Next(s: State, e: Event): (r: State)
    requires WellFormed(s) && Enabled(s, e)
    ensures WellFormed(r) && |r.callers| == |s.callers|
  {
    match e
    case CallScan(t, req) => s.(callers := s.callers[t := ScanWaits(req)])
    case CallConnect(t, name) =>
      // an empty name is refused at once
      if name == [] then s else s.(callers := s.callers[t := ConnectWaits(name)])
    case StepCaller(t, interrupted) => NextCaller(s, t, interrupted)
    case StepScanner => NextScanner(s)
    case StepConnector => NextConnector(s)
  }

  function NextCaller(s: State, t: nat, interrupted: bool): (r: State)
    requires WellFormed(s) && Enabled(s, StepCaller(t, interrupted))
    ensures WellFormed(r) && |r.callers| == |s.callers|
  {
    match s.callers[t]
    case ScanWaits(req) =>
      if interrupted then s.(callers := s.callers[t := Idle])
      else s.(holder := Some(ByCaller(t)), callers := s.callers[t := ScanHolds(req)])
    case ScanHolds(req) =>
      var (ctx, taken) := TryScan(s.ctx, req);
      s.(ctx := ctx, holder := None,
         callers := s.callers[t := if taken then ScanSchedules(req) else Idle],
         accepted := if taken then s.accepted + [req] else s.accepted)
    case ScanSchedules(_) =>
      var (ctx, queued) := ScheduleScan(s.ctx);
      s.(ctx := ctx, callers := s.callers[t := Idle], refused := if queued then s.refused else s.refused + 1)
    case ConnectWaits(name) =>
      if interrupted then s.(callers := s.callers[t := Idle])
      else s.(holder := Some(ByCaller(t)), callers := s.callers[t := ConnectHolds(name)])
    case ConnectHolds(name) =>
      s.(ctx := StoreName(s.ctx, name), holder := None,
         callers := s.callers[t := ConnectSchedules], lastName := Some(name))
    case ConnectSchedules =>
      var (ctx, queued) := ScheduleConnect(s.ctx);
      s.(ctx := ctx, callers := s.callers[t := Idle], connects := if queued then s.connects + 1 else s.connects)
    case Idle => s
  }

  function NextScanner(s: State): (r: State)
    requires WellFormed(s) && Enabled(s, StepScanner)
    ensures WellFormed(r) && r.callers == s.callers
  {
    match s.scanner
    case Off => s.(ctx := s.ctx.(scanPending := false), scanner := Started)
    case Started => s.(holder := Some(ByScanWorker), scanner := Holds)
    case Holds =>
      var (ctx, req) := FinishScan(s.ctx);
      s.(ctx := ctx, holder := None, scanner := Done, completed := s.completed + [req])
    case Done => s.(scanner := Off)
  }

  function NextConnector(s: State): (r: State)
    requires WellFormed(s) && Enabled(s, StepConnector)
    ensures WellFormed(r) && r.callers == s.callers
  {
    match s.connector
    case Off => s.(ctx := s.ctx.(connectPending := false), connector := Started)
    case Started => s.(holder := Some(ByConnectWorker), connector := Holds)
    case Holds =>
      var (ctx, success) := FinishConnect(s.ctx);
      s.(ctx := ctx, holder := None, connector := Done, lastName := None,
         reports := s.reports + [Report(success, s.lastName)])
    case Done => s.(connector := Off)
  }

  /** After module load; only the first byte of the name buffer has been cleared. */
  predicate Init(s: State) {
    && |s.ctx.ssid| == ROOM && s.ctx.ssid[0] == 0
    && s.ctx.scanRequest == None && !s.ctx.scanPending && !s.ctx.connectPending
    && s.holder == None && s.scanner == Off && s.connector == Off
    && (forall t :: 0 <= t < |s.callers| ==> s.callers[t] == Idle)
    && s.accepted == [] && s.completed == [] && s.refused == 0
    && s.connects == 0 && s.lastName == None && s.reports == []
  }

  predicate Reaches(s: State, run: seq<Event>, s': State)
    decreases run
  {
    if run == [] then s == s'
    else WellFormed(s) && Enabled(s, run[0]) && Reaches(Next(s, run[0]), run[1..], s')
  }

  // ---------------------------------------------------------------- counting callers

  function Schedulers(callers: seq<Caller>): nat {
    if callers == [] then 0 else Schedulers(callers[1..]) + if callers[0].ScanSchedules? then 1 else 0
  }

  lemma {:induction false} SchedulersUpdate(callers: seq<Caller>, t: nat, c: Caller)
    requires t < |callers|
    ensures Schedulers(callers[t := c]) + (if callers[t].ScanSchedules? then 1 else 0)
         == Schedulers(callers) + (if c.ScanSchedules? then 1 else 0)
    ensures callers[t].ScanSchedules? ==> Schedulers(callers) > 0
  {
    if t == 0 {
      assert callers[t := c][1..] == callers[1..];
    } else {
      assert callers[t := c][1..] == callers[1..][t - 1 := c];
      SchedulersUpdate(callers[1..], t - 1, c);
    }
  }

  lemma {:induction false} NoSchedulers(callers: seq<Caller>)
    requires forall t :: 0 <= t < |callers| ==> callers[t] == Idle
    ensures Schedulers(callers) == 0
  {
    if callers == [] {
    } else {
      NoSchedulers(callers[1..]);
    }
  }

  // ---------------------------------------------------------------- invariants

  /** At most one thread is in a critical section, and it is the holder of the semaphore. */
  predicate SemaphoreInv(s: State) {
    && (forall t :: 0 <= t < |s.callers| ==>
          (s.holder == Some(ByCaller(t)) <==> s.callers[t].ScanHolds? || s.callers[t].ConnectHolds?))
    && (s.holder == Some(ByScanWorker) <==> s.scanner == Holds)
    && (s.holder == Some(ByConnectWorker) <==> s.connector == Holds)
    && (s.holder.Some? && s.holder.value.ByCaller? ==> s.holder.value.t < |s.callers|)
  }

  /** How many places hold the right to complete the recorded request: a caller about to schedule,
      the pending work, the routine before it clears the request. */
  function Tokens(s: State): nat {
    Schedulers(s.callers) + (if s.ctx.scanPending then 1 else 0)
    + (if s.scanner.Started? || s.scanner.Holds? then 1 else 0)
  }

  predicate ScanInv(s: State) {
    && Tokens(s) == (if s.ctx.scanRequest.Some? then 1 else 0)
    && s.refused == 0
    && |s.completed| + Tokens(s) == |s.accepted|
    && (forall k :: 0 <= k < |s.completed| ==> s.completed[k] == Some(s.accepted[k]))
    && (s.ctx.scanRequest.Some? ==> s.ctx.scanRequest.value == s.accepted[|s.accepted| - 1])
  }

  predicate ConnectInv(s: State) {
    && WellFormed(s)
    && s.connects == |s.reports| + (if s.ctx.connectPending then 1 else 0)
                     + (if s.connector.Started? || s.connector.Holds? then 1 else 0)
    && (Matches(s.ctx.ssid) <==> LastSpells(s.lastName))
    && (forall k :: 0 <= k < |s.reports| ==> (s.reports[k].success <==> LastSpells(s.reports[k].lastName)))
  }

  predicate Inv(s: State) {
    SemaphoreInv(s) && ScanInv(s) && ConnectInv(s)
  }

  /** Whatever the buffer held, it matches right after a store exactly when the name is the SSID, or
      starts with it and a terminator. */
  lemma StoredNameMatches(c: Context, name: Name)
    requires |c.ssid| == ROOM
    ensures Matches(StoreName(c, name).ssid) <==> Spells(name)
  {
    var stored, n := StoreName(c, name).ssid, |Clamp(name)|;
    assert stored[..n] == Clamp(name) && stored[n] == 0;
    if n < |SSID| {
      assert (SSID + [0])[n] == SSID[n] != 0 && stored[..SSID_BUFFER][n] == 0;
    } else if n == |SSID| {
      assert stored[..SSID_BUFFER] == name + [0];
    } else {
      assert stored[..SSID_BUFFER] == Clamp(name)[..SSID_BUFFER] == name[..SSID_BUFFER];
    }
  }

  lemma CallerKeepsSemaphore(s: State, t: nat, interrupted: bool)
    requires WellFormed(s) && SemaphoreInv(s) && Enabled(s, StepCaller(t, interrupted))
    ensures SemaphoreInv(NextCaller(s, t, interrupted))
  {
    hide StoreName;
  }

  lemma NextKeepsSemaphore(s: State, e: Event)
    requires Inv(s) && Enabled(s, e)
    ensures SemaphoreInv(Next(s, e))
  {
    hide ScanInv, Matches;
    if e.StepCaller? {
      CallerKeepsSemaphore(s, e.t, e.interrupted);
    } else {
      hide NextCaller;
    }
  }

  lemma CallerKeepsScan(s: State, t: nat, interrupted: bool)
    requires Inv(s) && Enabled(s, StepCaller(t, interrupted))
    ensures ScanInv(NextCaller(s, t, interrupted))
  {
    hide SemaphoreInv, Matches;
    var n := NextCaller(s, t, interrupted);
    SchedulersUpdate(s.callers, t, n.callers[t]);
    if s.callers[t].ScanHolds? || s.callers[t].ScanSchedules? {
    } else {
      OtherCallersLeaveScan(s, t, interrupted);
      hide NextCaller;
    }
  }

  lemma OtherCallersLeaveScan(s: State, t: nat, interrupted: bool)
    requires WellFormed(s) && Enabled(s, StepCaller(t, interrupted))
    requires !s.callers[t].ScanHolds? && !s.callers[t].ScanSchedules?
    ensures var n := NextCaller(s, t, interrupted);
      && n.ctx.scanRequest == s.ctx.scanRequest && n.ctx.scanPending == s.ctx.scanPending && n.scanner == s.scanner
      && n.accepted == s.accepted && n.completed == s.completed && n.refused == s.refused
      && n.callers == s.callers[t := n.callers[t]] && !n.callers[t].ScanSchedules?
  {
  }

  lemma NextKeepsScan(s: State, e: Event)
    requires Inv(s) && Enabled(s, e)
    ensures ScanInv(Next(s, e))
  {
    match e
    case StepCaller(t, interrupted) => CallerKeepsScan(s, t, interrupted);
    case CallScan(t, req) => SchedulersUpdate(s.callers, t, ScanWaits(req));
    case CallConnect(t, name) => SchedulersUpdate(s.callers, t, ConnectWaits(name));
    case _ =>
  }

  lemma CallerKeepsConnect(s: State, t: nat, interrupted: bool)
    requires Inv(s) && Enabled(s, StepCaller(t, interrupted))
    ensures ConnectInv(NextCaller(s, t, interrupted))
  {
    hide SemaphoreInv, ScanInv, Matches, LastSpells;
    if s.callers[t].ConnectHolds? {
      ConnectHoldsStores(s, t, interrupted);
    }
  }

  lemma ConnectHoldsStores(s: State, t: nat, interrupted: bool)
    requires WellFormed(s) && Enabled(s, StepCaller(t, interrupted)) && s.callers[t].ConnectHolds?
    ensures var n := NextCaller(s, t, interrupted); Matches(n.ctx.ssid) <==> LastSpells(n.lastName)
  {
    StoredNameMatches(s.ctx, s.callers[t].name);
  }

  lemma ConnectorKeepsConnect(s: State)
    requires Inv(s) && Enabled(s, StepConnector)
    ensures ConnectInv(NextConnector(s))
  {
    if s.connector == Holds {
      assert (SSID + [0])[0] != 0;
    }
  }

  lemma NextKeepsConnect(s: State, e: Event)
    requires Inv(s) && Enabled(s, e)
    ensures ConnectInv(Next(s, e))
  {
    match e
    case StepCaller(t, interrupted) => CallerKeepsConnect(s, t, interrupted);
    case StepConnector => ConnectorKeepsConnect(s);
    case _ =>
  }

  lemma NextKeepsInv(s: State, e: Event)
    requires Inv(s) && Enabled(s, e)
    ensures Inv(Next(s, e))
  {
    NextKeepsSemaphore(s, e);
    NextKeepsScan(s, e);
    NextKeepsConnect(s, e);
  }

  lemma {:induction false} RunKeepsInv(s: State, run: seq<Event>, s': State)
    requires Inv(s) && Reaches(s, run, s')
    ensures Inv(s') && |s'.callers| == |s.callers|
    decreases run
  {
    if run == [] {
    } else {
      NextKeepsInv(s, run[0]);
      RunKeepsInv(Next(s, run[0]), run[1..], s');
    }
  }

  lemma InitInv(s: State)
    requires Init(s)
    ensures Inv(s)
  {
    NoSchedulers(s.callers);
    assert (SSID + [0])[0] != 0;
  }

  // ---------------------------------------------------------------- main results

  /** In every run: two threads are never in critical sections together; a request is recorded iff
      exactly one place holds the right to complete it; so scheduling the scan work never fails, and
      requests are completed once each, in acceptance order and never as null. */
  lemma ScansCompleteInOrder(s0: State, run: seq<Event>, s: State)
    requires Init(s0) && Reaches(s0, run, s)
    ensures SemaphoreInv(s)
    ensures Tokens(s) <= 1 && (s.ctx.scanRequest.Some? <==> Tokens(s) == 1)
    ensures s.refused == 0
    ensures |s.completed| <= |s.accepted| <= |s.completed| + 1
    ensures forall k :: 0 <= k < |s.completed| ==> s.completed[k] == Some(s.accepted[k])
    ensures |s.accepted| == |s.completed| + 1 <==> s.ctx.scanRequest.Some?
  {
    InitInv(s0);
    RunKeepsInv(s0, run, s);
  }

  /** In every run: each connect call that returned 0 has been reported once or still waits for the
      one run that will report it, and a run reports success iff the last name stored since the
      previous run spells the SSID, whatever the buffer held before. */
  lemma ConnectsReportOnce(s0: State, run: seq<Event>, s: State)
    requires Init(s0) && Reaches(s0, run, s)
    ensures s.connects == |s.reports| + (if s.ctx.connectPending then 1 else 0)
                          + (if s.connector.Started? || s.connector.Holds? then 1 else 0)
    ensures forall k :: 0 <= k < |s.reports| ==> (s.reports[k].success <==> LastSpells(s.reports[k].lastName))
  {
    InitInv(s0);
    RunKeepsInv(s0, run, s);
  }

  // ---------------------------------------------------------------- everything accepted gets done

  predicate Quiet(s: State) {
    && (forall t :: 0 <= t < |s.callers| ==> s.callers[t] == Idle)
    && s.scanner == Off && s.connector == Off && !s.ctx.scanPending && !s.ctx.connectPending
  }

  function CallerWork(c: Caller): nat {
    match c
    case Idle => 0
    case ScanWaits(_) => 7
    case ScanHolds(_) => 6
    case ScanSchedules(_) => 5
    case ConnectWaits(_) => 7
    case ConnectHolds(_) => 6
    case ConnectSchedules => 5
  }

  function CallersWork(callers: seq<Caller>): nat {
    if callers == [] then 0 else CallerWork(callers[0]) + CallersWork(callers[1..])
  }

  function WorkerWork(w: Worker, pending: bool): nat {
    (if pending then 4 else 0) + match w case Off => 0 case Started => 3 case Holds => 2 case Done => 1
  }

  /** A bound on the steps still to come if nobody calls again. */
  function Work(s: State): nat {
    CallersWork(s.callers) + WorkerWork(s.scanner, s.ctx.scanPending) + WorkerWork(s.connector, s.ctx.connectPending)
  }

  lemma {:induction false} CallersWorkUpdate(callers: seq<Caller>, t: nat, c: Caller)
    requires t < |callers|
    ensures CallersWork(callers[t := c]) == CallersWork(callers) - CallerWork(callers[t]) + CallerWork(c)
    ensures CallersWork(callers) >= CallerWork(callers[t])
  {
    if t == 0 {
      assert callers[t := c][1..] == callers[1..];
    } else {
      assert callers[t := c][1..] == callers[1..][t - 1 := c];
      CallersWorkUpdate(callers[1..], t - 1, c);
    }
  }

  predicate IsCall(e: Event) {
    e.CallScan? || e.CallConnect?
  }

  lemma CallerUsesWork(s: State, t: nat, interrupted: bool)
    requires WellFormed(s) && Enabled(s, StepCaller(t, interrupted))
    ensures Work(NextCaller(s, t, interrupted)) < Work(s)
  {
    var r := NextCaller(s, t, interrupted);
    var before, after := s.callers[t], r.callers[t];
    assert r.callers == s.callers[t := after];
    assert r.scanner == s.scanner && r.connector == s.connector;
    assert CallerWork(after) + WorkerWork(r.scanner, r.ctx.scanPending) + WorkerWork(r.connector, r.ctx.connectPending)
         < CallerWork(before) + WorkerWork(s.scanner, s.ctx.scanPending) + WorkerWork(s.connector, s.ctx.connectPending);
    CallersWorkUpdate(s.callers, t, after);
  }

  /** Every step that is not a new call uses up work, so without new calls every run is finite. */
  lemma StepsUseWork(s: State, e: Event)
    requires WellFormed(s) && Enabled(s, e) && !IsCall(e)
    ensures Work(Next(s, e)) < Work(s)
  {
    if e.StepCaller? {
      CallerUsesWork(s, e.t, e.interrupted);
    }
  }

  /** Unless all is quiet some step can be taken: the semaphore never deadlocks. */
  lemma SomeoneCanStep(s: State) returns (e: Event)
    requires Inv(s) && !Quiet(s)
    ensures Enabled(s, e) && !IsCall(e)
  {
    if s.holder.Some? {
      match s.holder.value
      case ByCaller(t) => return StepCaller(t, false);
      case ByScanWorker => return StepScanner;
      case ByConnectWorker => return StepConnector;
    } else if s.scanner != Off || s.ctx.scanPending {
      return StepScanner;
    } else if s.connector != Off || s.ctx.connectPending {
      return StepConnector;
    } else {
      var t :| 0 <= t < |s.callers| && s.callers[t] != Idle;
      return StepCaller(t, false);
    }
  }

  /** From every reachable state the threads can run to quiet, and then every accepted scan has been
      completed and every accepted connect reported. */
  lemma {:induction false} EverythingGetsDone(s: State) returns (run: seq<Event>, s': State)
    requires Inv(s)
    ensures Reaches(s, run, s') && Quiet(s') && |run| <= Work(s)
    ensures forall e :: e in run ==> !IsCall(e)
    ensures |s'.completed| == |s'.accepted| && |s'.reports| == s'.connects
    decreases Work(s)
  {
    if Quiet(s) {
      NoSchedulers(s.callers);
      return [], s;
    }
    var e := SomeoneCanStep(s);
    StepsUseWork(s, e);
    NextKeepsInv(s, e);
    var rest, end := EverythingGetsDone(Next(s, e));
    assert ([e] + rest)[1..] == rest;
    return [e] + rest, end;
  }

  // ---------------------------------------------------------------- the steps of the driver's code

  /** Getting the semaphore changes nothing but where the thread stands. */
  lemma DownShape(s: State, e: Event)
    requires WellFormed(s) && Enabled(s, e) && s.holder.None? && Next(s, e).holder.Some?
    ensures var n := Next(s, e);
      n == s.(holder := n.holder, callers := n.callers, scanner := n.scanner, connector := n.connector)
  {
    match e
    case StepCaller(t, interrupted) =>
      var c := s.callers[t];
      assert c.ScanWaits? || c.ConnectWaits?;
    case StepScanner => assert s.scanner.Started?;
    case StepConnector => assert s.connector.Started?;
    case _ =>
  }

  lemma DownStep(s: State, e: Event)
    requires Inv(s) && Enabled(s, e) && s.holder.None? && Next(s, e).holder.Some?
    ensures var n := Next(s, e);
      && Inv(n)
      && n == s.(holder := n.holder, callers := n.callers, scanner := n.scanner, connector := n.connector)
  {
    NextKeepsInv(s, e);
    hide Inv, Next, Enabled;
    DownShape(s, e);
  }

  lemma ScanStep(s: State, t: nat, req: Request)
    requires Inv(s) && t < |s.callers| && s.callers[t] == ScanHolds(req)
    ensures var e, taken := StepCaller(t, false), s.ctx.scanRequest == None;
      && Enabled(s, e) && Inv(Next(s, e))
      && Next(s, e) == s.(holder := None,
           ctx := s.ctx.(scanRequest := if taken then Some(req) else s.ctx.scanRequest),
           callers := s.callers[t := if taken then ScanSchedules(req) else Idle],
           accepted := if taken then s.accepted + [req] else s.accepted)
      && (taken <==> |s.accepted| == |s.completed|)
  {
    NextKeepsInv(s, StepCaller(t, false));
  }

  lemma ScheduleScanStep(s: State, t: nat)
    requires Inv(s) && t < |s.callers| && s.callers[t].ScanSchedules?
    ensures var e := StepCaller(t, false);
      && Enabled(s, e) && Inv(Next(s, e))
      && Next(s, e) == s.(ctx := s.ctx.(scanPending := true), callers := s.callers[t := Idle])
      && !s.ctx.scanPending
  {
    NextKeepsInv(s, StepCaller(t, false));
    SchedulersUpdate(s.callers, t, Idle);
  }

  lemma ScanRoutineStep(s: State)
    requires Inv(s) && s.scanner == Holds
    ensures Enabled(s, StepScanner) && Inv(Next(s, StepScanner))
    ensures Next(s, StepScanner) == s.(holder := None, scanner := Done, ctx := s.ctx.(scanRequest := None),
                                       completed := s.completed + [s.ctx.scanRequest])
    ensures |s.completed| < |s.accepted| && s.ctx.scanRequest == Some(s.accepted[|s.completed|])
  {
    NextKeepsInv(s, StepScanner);
  }

  lemma ConnectStep(s: State, t: nat, name: Name)
    requires Inv(s) && t < |s.callers| && s.callers[t] == ConnectHolds(name)
    ensures var e := StepCaller(t, false);
      && Enabled(s, e) && Inv(Next(s, e)) && |s.ctx.ssid| == ROOM
      && Next(s, e) == s.(holder := None, ctx := StoreName(s.ctx, name),
           callers := s.callers[t := ConnectSchedules], lastName := Some(name))
      && (Matches(StoreName(s.ctx, name).ssid) <==> Spells(name))
  {
    NextKeepsInv(s, StepCaller(t, false));
    StoredNameMatches(s.ctx, name);
  }

  lemma ScheduleConnectStep(s: State, t: nat)
    requires Inv(s) && t < |s.callers| && s.callers[t].ConnectSchedules?
    ensures var e, n := StepCaller(t, false), if s.ctx.connectPending then s.connects else s.connects + 1;
      && Enabled(s, e) && Inv(Next(s, e))
      && Next(s, e) == s.(ctx := s.ctx.(connectPending := true), callers := s.callers[t := Idle], connects := n)
      && n > |s.reports|
      && (!s.ctx.connectPending <==>
            s.connects == |s.reports| + if s.connector.Started? || s.connector.Holds? then 1 else 0)
  {
    NextKeepsInv(s, StepCaller(t, false));
  }

  lemma ConnectRoutineStep(s: State)
    requires Inv(s) && s.connector == Holds
    ensures |s.ctx.ssid| == ROOM
    ensures var n, report := Next(s, StepConnector), Report(Matches(s.ctx.ssid), s.lastName);
      && Enabled(s, StepConnector) && Inv(n)
      && n == s.(holder := None, connector := Done, ctx := s.ctx.(ssid := s.ctx.ssid[0 := 0]),
                 lastName := None, reports := s.reports + [report])
      && !Matches(n.ctx.ssid)
    ensures |s.reports| < s.connects && (Matches(s.ctx.ssid) <==> LastSpells(s.lastName))
  {
    NextKeepsInv(s, StepConnector);
  }
}
