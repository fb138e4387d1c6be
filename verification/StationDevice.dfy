/** The shared variables as the program holds them, with the handlers and the callback that change
    them in place; and the code of the two thread designs, between two blocking calls (cooperative)
    and between two memory accesses (preemptible). */
module StationDevice {
  import opened Station
  import opened CooperativeThread
  import P = PreemptiveThread

  class Device {
    var connected: bool
    var connectResult: bool
    var disconnectRequested: bool
    var gotIp: bool
    var inDisconnect: bool
    var wifiReadyStatus: bool
    var halfDone: nat
    var semCount: nat
    var waiter: Waiter

    ghost function View(): Shared
      reads this
    {
      Shared(Flags(connected, connectResult, disconnectRequested), gotIp, inDisconnect,
             wifiReadyStatus, halfDone, semCount, waiter)
    }

    constructor ()
      ensures View() == INITIAL
    {
      connected, connectResult, disconnectRequested := false, false, false;
      gotIp, inDisconnect, wifiReadyStatus := false, false, false;
      halfDone, semCount, waiter := 0, 0, Running;
    }

    method HandleConnectResult(status: int)
      requires !inDisconnect
      modifies this`connected, this`connectResult
      ensures View() == EnvStep(old(View()), ConnectResultArrives(status))
    {
      if connected {
        return;
      }
      if status == 0 {
        connected := true;
      }
      connectResult := true;
    }

    /** Runs up to the status query; `queries` tells whether the handler got that far. */
    method HandleDisconnect(status: int) returns (queries: bool)
      requires !inDisconnect
      modifies this`connected, this`disconnectRequested, this`inDisconnect, this`gotIp
      ensures queries == old(connected)
      ensures View() == EnvStep(old(View()), DisconnectArrives(status))
    {
      queries := false;
      if connected {
        if disconnectRequested {
          disconnectRequested := false;
        } else {
          connected := false;
        }
        inDisconnect := true;
        return true;
      }
      gotIp := false;
    }

    /** The rest of the disconnect handler, after the status query. */
    method FinishDisconnect()
      requires inDisconnect
      modifies this`inDisconnect, this`gotIp
      ensures View() == EnvStep(old(View()), DisconnectReturns)
    {
      inDisconnect := false;
      gotIp := false;
    }

    method HandleDhcpBound()
      requires !inDisconnect
      modifies this`gotIp
      ensures View() == EnvStep(old(View()), DhcpBoundArrives)
    {
      gotIp := true;
    }

    method ReadyCallbackWrite(ready: bool)
      modifies this`wifiReadyStatus, this`halfDone
      ensures View() == EnvStep(old(View()), ReadyWrites(ready))
    {
      wifiReadyStatus := ready;
      halfDone := halfDone + 1;
    }

    method ReadyCallbackGive()
      requires halfDone > 0
      modifies this`halfDone, this`semCount, this`waiter
      ensures View() == EnvStep(old(View()), ReadyGives)
    {
      halfDone := halfDone - 1;
      if waiter == Waiting {
        waiter := Granted;
      } else if semCount == 0 {
        semCount := 1;
      }
    }

    /** The event or callback step that `a` names. */
    method Perform(a: Action)
      requires Enabled(View(), a) && !a.ThreadRuns?
      modifies this
      ensures View() == EnvStep(old(View()), a)
    {
      match a {
        case ConnectResultArrives(status) => HandleConnectResult(status);
        case DisconnectArrives(status) => var _ := HandleDisconnect(status);
        case DisconnectReturns => FinishDisconnect();
        case DhcpBoundArrives => HandleDhcpBound();
        case ReadyWrites(value) => ReadyCallbackWrite(value);
        case ReadyGives => ReadyCallbackGive();
      }
    }

    /** From the top of the thread's loop (or, with `taken`, from the label `check_wifi_ready`) to the
        next blocking call. */
    method TakeAndCheck(taken: bool, ghost pc: Pc, ghost h: seq<Event>)
        returns (next: Pc, ghost h': seq<Event>)
      requires waiter == Running
      modifies this`connected, this`connectResult, this`semCount, this`waiter
      ensures State(View(), next, h') ==
              var s := State(old(View()), pc, h); if taken then Check(s) else Take(s, Top)
    {
      ghost var start := State(View(), pc, h);
      var have := taken;
      h' := h;
      while true
        invariant waiter == Running
        invariant (if taken then Check(start) else Take(start, Top)) ==
                  (if have then Check(State(View(), pc, h')) else Take(State(View(), pc, h'), Top))
        decreases semCount, have
      {
        if !have {
          if semCount == 0 {
            waiter := Waiting;
            return AtTake(Top), h';
          }
          semCount := semCount - 1;
          h' := h' + [Taken];
        }
        h' := h' + [ReadyRead(wifiReadyStatus)];
        if wifiReadyStatus {
          connected := false;
          connectResult := false;
          return Requesting, h' + [Cleared];
        }
        have := false;
      }
    }

    /** Runs the Wi-Fi thread from `pc` to its next blocking call. */
    method RunSegment(pc: Pc, ghost h: seq<Event>) returns (next: Pc, ghost h': seq<Event>)
      requires waiter != Waiting && (waiter == Granted <==> pc.AtTake?)
      modifies this`connected, this`connectResult, this`semCount, this`waiter
      ensures State(View(), next, h') == Segment(State(old(View()), pc, h))
    {
      match pc {
        case Start =>
          next, h' := TakeAndCheck(false, pc, h);
        case AtTake(_) =>
          waiter := Running;
          next, h' := TakeAndCheck(true, pc, h + [Taken]);
        case PollingStatus =>
          next, h' := PollSleeping, h;
        case ReportingConnected =>
          if semCount == 0 {
            waiter := Waiting;
            next, h' := AtTake(AfterConnect), h;
          } else {
            semCount := semCount - 1;
            next, h' := TakeAndCheck(true, pc, h + [Taken]);
          }
        case _ =>
          if !connectResult {
            next, h' := PollingStatus, h + [Queried(true)];
          } else if connected {
            next, h' := ReportingConnected, h + [PollLeft(true)] + [Queried(false)];
          } else {
            next, h' := TakeAndCheck(false, pc, h + [PollLeft(false)]);
          }
      }
    }

    /** Executes the next statement of the preemptible thread; `reg` holds the byte it loaded. */
    method RunStatement(pc: P.Pc, reg: Flags) returns (next: P.Pc, reg': Flags)
      requires waiter != Waiting && !pc.Ended?
      modifies this`connected, this`connectResult, this`disconnectRequested, this`semCount, this`waiter
      ensures forall h ::
        P.State(View(), next, reg', h) == P.ThreadStep(P.State(old(View()), pc, reg, h))
    {
      next, reg' := pc, reg;
      match pc {
        case CallTake(site) =>
          if semCount > 0 {
            semCount := semCount - 1;
            next := P.CheckReady;
          } else {
            waiter := Waiting;
            next := P.Blocked(site);
          }
        case Blocked(_) =>
          waiter := Running;
          next := P.CheckReady;
        case CheckReady =>
          next := if wifiReadyStatus then P.LoadA else P.CallTake(P.Again);
        case LoadA =>
          reg' := Flags(connected, connectResult, disconnectRequested);
          next := P.StoreA;
        case StoreA =>
          connected, connectResult, disconnectRequested := false, reg.connectResult, reg.disconnectRequested;
          next := P.LoadB;
        case LoadB =>
          reg' := Flags(connected, connectResult, disconnectRequested);
          next := P.StoreB;
        case StoreB =>
          connected, connectResult, disconnectRequested := reg.connected, false, reg.disconnectRequested;
          next := P.Request;
        case Request =>
          next := P.PollTest;
        case PollTest =>
          next := if connectResult then P.ConnectedTest else P.PollWait;
        case PollWait =>
          next := P.PollTest;
        case ConnectedTest =>
          next := if connected then P.Report else P.Ended;
        case Report =>
          next := P.CallHttp;
        case CallHttp =>
          next := P.HttpLoop;
        case HttpLoop =>
      }
    }
  }

  /** The station of src/app.c driven by any schedule: the variables end as the protocol says, and so
      mean what the history says. */
  method DriveCooperative(schedule: seq<Action>) returns (d: Device, pc: Pc)
    requires Legal(INIT, schedule)
    ensures
      var s := Exec(INIT, schedule);
      && d.View() == s.sh && pc == s.pc
      && (d.connectResult <==> ResultSinceClear(s.history))
      && (d.connected <==> LinkUp(s.history))
      && (d.gotIp <==> AddressHeld(s.history))
      && (d.waiter == Waiting && d.halfDone == 0 ==>
            d.wifiReadyStatus == LastWritten(s.history) == LastExamined(s.history))
  {
    d := new Device();
    pc := Start;
    ghost var h := [];
    for k := 0 to |schedule|
      invariant Legal(INIT, schedule[..k]) && State(d.View(), pc, h) == Exec(INIT, schedule[..k])
      invariant fresh(d)
    {
      PrefixStep(INIT, schedule, k);
      ghost var before := State(d.View(), pc, h);
      assert Reached(before);
      WaiterShape(before);
      if schedule[k].ThreadRuns? {
        pc, h := d.RunSegment(pc, h);
      } else {
        h := h + EnvLog(d.View(), schedule[k]);
        d.Perform(schedule[k]);
      }
    }
    assert schedule[..|schedule|] == schedule;
    ghost var s := State(d.View(), pc, h);
    assert Reached(s);
    FlagsRefineHistory(s);
    AddressRefinesHistory(s);
    if d.waiter == Waiting && d.halfDone == 0 { NoLostWakeUp(s); }
  }

  /** What running a segment needs of the state before it. */
  lemma WaiterShape(s: State)
    requires Reached(s)
    ensures s.sh.waiter.Running? <==> !s.pc.AtTake?
  {
    ReachedInv(s);
  }

  /** The station of src/wifi/wifi_sta.c driven by any schedule, with the trap in terms of its variables. */
  method DrivePreemptive(schedule: seq<Action>) returns (d: Device, pc: P.Pc, reg: Flags)
    requires P.Legal(P.INIT, schedule)
    ensures
      var s := P.Exec(P.INIT, schedule);
      && d.View() == s.sh && pc == s.pc && reg == s.reg
      && (d.connected && !d.connectResult <==> P.HitBetweenClears(s.history) && P.StoredUndisturbed(s.history))
      && (d.connected && !d.connectResult ==> P.InPoll(pc))
      && (d.gotIp <==> AddressHeld(s.history))
  {
    d := new Device();
    pc, reg := P.CallTake(P.First), INITIAL.flags;
    ghost var h := [];
    for k := 0 to |schedule|
      invariant P.Legal(P.INIT, schedule[..k])
      invariant P.State(d.View(), pc, reg, h) == P.Exec(P.INIT, schedule[..k])
      invariant fresh(d)
    {
      P.PrefixStep(P.INIT, schedule, k);
      ghost var log := P.MoveLog(P.State(d.View(), pc, reg, h), schedule[k]);
      if schedule[k].ThreadRuns? {
        pc, reg := d.RunStatement(pc, reg);
      } else {
        d.Perform(schedule[k]);
      }
      h := h + log;
    }
    assert schedule[..|schedule|] == schedule;
    ghost var s := P.State(d.View(), pc, reg, h);
    assert P.Reached(s);
    P.TrapExactly(s);
    P.AddressRefinesHistory(s);
  }
}
