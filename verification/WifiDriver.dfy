/** The shared context of the wireless driver and the pieces of code that work on it, each on behalf
    of a thread that stands where the machine lets it run. */
module WifiDriver {
  import opened Common
  import opened Wifi

  class Navifly {
    var scanRequest: Option<Request>
    const connectingSsid: array<byte>
    var scanPending: bool
    var connectPending: bool
    var free: bool                    // the semaphore's count is 1

    // where the threads stand, and what has happened
    ghost var holder: Option<Holder>
    ghost var callers: seq<Caller>
    ghost var scanner: Worker
    ghost var connector: Worker
    ghost var accepted: seq<Request>
    ghost var completed: seq<Option<Request>>
    ghost var refused: nat
    ghost var connects: nat
    ghost var lastName: Option<Name>
    ghost var reports: seq<Report>

    ghost predicate Valid()
      reads this, connectingSsid
    {
      (free <==> holder.None?) && Inv(Abs())
    }

    ghost function Abs(): State
      reads this, connectingSsid
    {
      State(Context(scanRequest, connectingSsid[..], scanPending, connectPending),
            holder, callers, scanner, connector,
            accepted, completed, refused, connects, lastName, reports)
    }

    /** virtual_wifi_init; the rest of the name buffer is whatever the allocator left there. */
    constructor (garbage: byte, ghost threads: nat)
      ensures Valid() && fresh(connectingSsid)
      ensures Init(Abs()) && |callers| == threads
    {
      connectingSsid := new byte[ROOM](_ => garbage);
      scanRequest, scanPending, connectPending, free := None, false, false, true;
      holder, callers, scanner, connector := None, seq(threads, _ => Idle), Off, Off;
      accepted, completed, refused, connects, lastName, reports := [], [], 0, 0, None, [];
      new;
      connectingSsid[0] := 0;
      InitInv(Abs());
    }

    /** A thread waiting in down gets the semaphore. */
    method Down(ghost e: Event)
      requires Valid() && free && Enabled(Abs(), e) && Next(Abs(), e).holder.Some?
      modifies this`free, this`holder, this`callers, this`scanner, this`connector
      ensures Valid() && Abs() == Next(old(Abs()), e)
    {
      hide Inv, Next, Enabled;
      DownStep(Abs(), e);
      ghost var next := Next(Abs(), e);
      free := false;
      holder, callers, scanner, connector := next.holder, next.callers, next.scanner, next.connector;
    }

    /** nvf_scan between down and up. A refusal means that an accepted request is still to be completed. */
    method Scan(ghost t: nat, request: Request) returns (ok: bool)
      requires Valid() && t < |callers| && callers[t] == ScanHolds(request)
      modifies this`scanRequest, this`free, this`holder, this`callers, this`accepted
      ensures Valid() && Abs() == Next(old(Abs()), StepCaller(t, false))
      ensures ok <==> |old(accepted)| == |completed|
      ensures ok <==> accepted == old(accepted) + [request]
    {
      hide Inv, Next, Enabled;
      ScanStep(Abs(), t, request);
      ok := scanRequest == None;
      if ok {
        scanRequest := Some(request);
        accepted := accepted + [request];
      }
      free, holder, callers := true, None, callers[t := if ok then ScanSchedules(request) else Idle];
    }

    /** schedule_work in nvf_scan: it cannot fail. */
    method ScheduleScanWork(ghost t: nat) returns (ok: bool)
      requires Valid() && t < |callers| && callers[t].ScanSchedules?
      modifies this`scanPending, this`callers
      ensures Valid() && Abs() == Next(old(Abs()), StepCaller(t, false))
      ensures ok
    {
      hide Inv, Next, Enabled;
      ScheduleScanStep(Abs(), t);
      ok := !scanPending;
      scanPending := true;
      callers := callers[t := Idle];
    }

    /** navifly_scan_routine between down and up: it reports the oldest request not yet completed. */
    method ScanRoutine() returns (done: Option<Request>)
      requires Valid() && scanner == Holds
      modifies this`scanRequest, this`free, this`holder, this`scanner, this`completed
      ensures Valid() && Abs() == Next(old(Abs()), StepScanner)
      ensures |old(completed)| < |accepted| && done == Some(accepted[|old(completed)|])
    {
      hide Inv, Next, Enabled;
      ScanRoutineStep(Abs());
      done := scanRequest;
      scanRequest := None;
      free, holder, scanner, completed := true, None, Worker.Done, completed + [done];
    }

    /** nvf_connect between down and up. */
    method Connect(ghost t: nat, ssid: Name)
      requires Valid() && t < |callers| && callers[t] == ConnectHolds(ssid)
      modifies this`free, this`holder, this`callers, this`lastName, connectingSsid
      ensures Valid() && Abs() == Next(old(Abs()), StepCaller(t, false))
      ensures Abs().ctx.ssid == connectingSsid[..] && |connectingSsid[..]| == ROOM
      ensures Matches(connectingSsid[..]) <==> Spells(ssid)
    {
      hide Inv, Next, Enabled, Matches, Spells;
      ConnectStep(Abs(), t, ssid);
      CopyName(ssid);
      free, holder, callers, lastName := true, None, callers[t := ConnectSchedules], Some(ssid);
    }

    method CopyName(ssid: Name)
      requires connectingSsid.Length == ROOM
      modifies connectingSsid
      ensures Abs() == old(Abs()).(ctx := StoreName(old(Abs()).ctx, ssid))
    {
      var ssidLen := if |ssid| > 15 then 15 else |ssid|;
      forall k | 0 <= k < ssidLen {
        connectingSsid[k] := ssid[k];
      }
      connectingSsid[ssidLen] := 0;
      assert connectingSsid[..] == Clamp(ssid) + [0] + old(connectingSsid[..])[ssidLen + 1..];
    }

    /** schedule_work in nvf_connect: it fails exactly if a run that has not begun is already owed,
        and afterwards one is. */
    method ScheduleConnectWork(ghost t: nat) returns (ok: bool)
      requires Valid() && t < |callers| && callers[t].ConnectSchedules?
      modifies this`connectPending, this`callers, this`connects
      ensures Valid() && Abs() == Next(old(Abs()), StepCaller(t, false))
      ensures ok <==> connects == old(connects) + 1
      ensures ok <==> old(connects) == |reports| + if connector.Started? || connector.Holds? then 1 else 0
      ensures connects > |reports|
    {
      hide Inv, Next, Enabled;
      ScheduleConnectStep(Abs(), t);
      ok := !connectPending;
      connectPending := true;
      callers, connects := callers[t := Idle], if ok then connects + 1 else connects;
    }

    /** navifly_connect_routine between down and up: it decides on the last name stored since the
        previous run, and no name is left for the next one. */
    method ConnectRoutine() returns (success: bool)
      requires Valid() && connector == Holds
      modifies this`free, this`holder, this`connector, this`lastName, this`reports, connectingSsid
      ensures Valid() && Abs() == Next(old(Abs()), StepConnector)
      ensures success <==> LastSpells(old(lastName))
      ensures |connectingSsid[..]| == ROOM && !Matches(connectingSsid[..])
      ensures |reports| == |old(reports)| + 1 <= connects
    {
      hide Inv, Next, Enabled, LastSpells, Matches;
      ghost var s := Abs();
      ConnectRoutineStep(s);
      success := NameMatches();
      CutName();
      reports, lastName := reports + [Report(success, lastName)], None;
      free, holder, connector := true, None, Worker.Done;
      assert Abs() == Next(s, StepConnector);
    }

    method NameMatches() returns (same: bool)
      requires connectingSsid.Length == ROOM
      ensures |connectingSsid[..]| == ROOM && same == Matches(connectingSsid[..])
    {
      same := connectingSsid[..SSID_BUFFER] == SSID + [0];
      assert connectingSsid[..SSID_BUFFER] == connectingSsid[..][..SSID_BUFFER];
    }

    method CutName()
      requires connectingSsid.Length == ROOM
      modifies connectingSsid
      ensures Abs() == old(Abs()).(ctx := old(Abs()).ctx.(ssid := old(connectingSsid[..])[0 := 0]))
    {
      connectingSsid[0] := 0;
      assert connectingSsid[..] == old(connectingSsid[..])[0 := 0];
    }
  }
}
