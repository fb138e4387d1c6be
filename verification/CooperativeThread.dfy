/**
 The station of src/app.c: the Wi-Fi thread is cooperative, so between two blocking calls it runs
 without interruption. A step is one such segment, or one step of another actor.
 */
module CooperativeThread {
  import opened Histories
  import opened Station

  /** The two places where the thread waits for the readiness semaphore. */
  datatype Site = Top | AfterConnect

  /** Where the thread is suspended. */
  datatype Pc =
    | Start
    | AtTake(site: Site)
    | Requesting           // inside the connect request
    | PollingStatus        // inside the status query of the poll loop
    | PollSleeping
    | ReportingConnected   // inside the status query after a successful attempt

  datatype State = State(sh: Shared, pc: Pc, history: seq<Event>)

  const INIT := State(INITIAL, Start, [])

  function Log(s: State, e: Event): State { s.(history := s.history + [e]) }

  // ----- the thread's segments ---------------------------------------------------------------

  function Take(s: State, site: Site): State
    decreases s.sh.count, 0
  {
    if s.sh.count > 0 then Check(Log(s.(sh := s.sh.(count := s.sh.count - 1)), Taken))
    else s.(pc := AtTake(site), sh := s.sh.(waiter := Waiting))
  }

  function Check(s: State): State
    decreases s.sh.count, 1
  {
    var s1 := Log(s, ReadyRead(s.sh.ready));
    if !s.sh.ready then Take(s1, Top) else Connect(s1)
  }

  function Connect(s: State): State {
    var flags := s.sh.flags.(connected := false, connectResult := false);
    Log(s.(sh := s.sh.(flags := flags), pc := Requesting), Cleared)
  }

  function Poll(s: State): State {
    if !s.sh.flags.connectResult then Log(s.(pc := PollingStatus), Queried(true))
    else
      var s1 := Log(s, PollLeft(s.sh.flags.connected));
      if s.sh.flags.connected then Log(s1.(pc := ReportingConnected), Queried(false)) else Take(s1, Top)
  }

  function Segment(s: State): State
    requires !s.sh.waiter.Waiting?
  {
    match s.pc
    case Start => Take(s, Top)
    case AtTake(_) => Check(Log(s.(sh := s.sh.(waiter := Running)), Taken))
    case Requesting => Poll(s)
    case PollingStatus => s.(pc := PollSleeping)
    case PollSleeping => Poll(s)
    case ReportingConnected => Take(s, AfterConnect)
  }

  function Step(s: State, a: Action): State
    requires Enabled(s.sh, a)
  {
    if a.ThreadRuns? then Segment(s)
    else s.(sh := EnvStep(s.sh, a), history := s.history + EnvLog(s.sh, a))
  }

  // ----- runs ----------------------------------------------------------------------------------

  /** Every action of the schedule is enabled when its turn comes. */
  ghost predicate Legal(s: State, schedule: seq<Action>)
    decreases |schedule|, 0
  {
    schedule == [] ||
    (var n := |schedule| - 1;
     Legal(s, schedule[..n]) && Enabled(Exec(s, schedule[..n]).sh, schedule[n]))
  }

  ghost function Exec(s: State, schedule: seq<Action>): State
    requires Legal(s, schedule)
    decreases |schedule|, 1
  {
    if schedule == [] then s
    else var n := |schedule| - 1; Step(Exec(s, schedule[..n]), schedule[n])
  }

  /** A prefix of a run is a run, and the next action continues it. */
  lemma {:induction false} PrefixStep(s: State, schedule: seq<Action>, k: nat)
    requires Legal(s, schedule) && k < |schedule|
    ensures Legal(s, schedule[..k]) && Legal(s, schedule[..k + 1])
    ensures Enabled(Exec(s, schedule[..k]).sh, schedule[k])
    ensures Exec(s, schedule[..k + 1]) == Step(Exec(s, schedule[..k]), schedule[k])
    decreases |schedule|
  {
    var n := |schedule| - 1;
    if k < n {
      PrefixStep(s, schedule[..n], k);
      assert schedule[..n][..k] == schedule[..k] && schedule[..n][..k + 1] == schedule[..k + 1];
    } else {
      assert schedule[..k + 1] == schedule;
    }
  }

  // ----- what every step keeps -----------------------------------------------------------------

  /** How many connect requests the history records (`SumCounts` says that this is a count). */
  ghost function Requests(s: State): nat { Sum(s.history).requests }

  predicate Shape(sh: Shared, pc: Pc) { sh.waiter.Running? <==> !pc.AtTake? }

  predicate FlagsRefine(sh: Shared, v: Summary) {
    && !sh.flags.disconnectRequested
    && sh.flags.connectResult == v.result
    && sh.flags.connected == v.link
    && (sh.flags.connected ==> sh.flags.connectResult)
    && sh.ready == v.written
  }

  /** An address without a link is older than the last clear, if DHCP binds only while connected. */
  predicate StaleOnlyByClear(sh: Shared, v: Summary) {
    v.boundOnlyUp && sh.gotIp && !sh.flags.connected && !sh.inDisconnect ==> v.clearedSinceBound
  }

  /** What holds even between the steps of one segment. */
  predicate Facts(sh: Shared, v: Summary) {
    && FlagsRefine(sh, v) && AddressKept(sh, v) && StaleOnlyByClear(sh, v)
    && GivesKept(sh, v) && v.requests <= v.takes
  }

  ghost predicate Inv(s: State) {
    Shape(s.sh, s.pc) && Facts(s.sh, Sum(s.history)) && Awake(s.sh, Sum(s.history))
  }

  /** The thread is on its way from a blocking call to the next. */
  ghost predicate Midway(s: State) { s.sh.waiter.Running? && Facts(s.sh, Sum(s.history)) }

  lemma LogKeeps(s: State, e: Event)
    requires Midway(s)
    requires e == ReadyRead(s.sh.ready) || e.PollLeft? || e.Queried?
    ensures Midway(Log(s, e))
    ensures e.ReadyRead? || Awake(s.sh, Sum(s.history)) ==> Awake(s.sh, Sum(Log(s, e).history))
    ensures Requests(Log(s, e)) == Requests(s) && Sum(Log(s, e).history).takes == Sum(s.history).takes
  {
    SumExtend(s.history, e);
  }

  lemma ConnectKeeps(s: State)
    requires Midway(s) && Awake(s.sh, Sum(s.history)) && Requests(s) < Sum(s.history).takes
    ensures Inv(Connect(s)) && Requests(Connect(s)) == Requests(s) + 1
  {
    SumExtend(s.history, Cleared);
  }

  lemma {:induction false} CheckKeeps(s: State)
    requires Midway(s) && Requests(s) < Sum(s.history).takes
    ensures Inv(Check(s))
    ensures Requests(Check(s)) == Requests(s) + (if s.sh.ready then 1 else 0)
    decreases s.sh.count, 1
  {
    var e := ReadyRead(s.sh.ready);
    LogKeeps(s, e);
    if s.sh.ready {
      ConnectKeeps(Log(s, e));
    } else {
      TakeKeeps(Log(s, e), Top);
    }
  }

  lemma {:induction false} TakeKeeps(s: State, site: Site)
    requires Midway(s) && Awake(s.sh, Sum(s.history))
    ensures Inv(Take(s, site))
    ensures Requests(Take(s, site)) == Requests(s) + (if s.sh.ready && s.sh.count > 0 then 1 else 0)
    decreases s.sh.count, 0
  {
    if s.sh.count > 0 {
      SumExtend(s.history, Taken);
      CheckKeeps(Log(s.(sh := s.sh.(count := s.sh.count - 1)), Taken));
    }
  }

  lemma ResumeKeeps(s: State)
    requires Inv(s) && s.sh.waiter.Granted?
    ensures Inv(Segment(s)) && Requests(Segment(s)) == Requests(s) + (if s.sh.ready then 1 else 0)
  {
    SumExtend(s.history, Taken);
    CheckKeeps(Log(s.(sh := s.sh.(waiter := Running)), Taken));
  }

  lemma PollKeeps(s: State)
    requires Inv(s) && s.sh.waiter.Running?
    ensures Inv(Poll(s))
    ensures Requests(Poll(s)) == Requests(s) +
            (if s.sh.flags.connectResult && !s.sh.flags.connected && s.sh.ready && s.sh.count > 0 then 1 else 0)
  {
    if s.sh.flags.connectResult {
      var e := PollLeft(s.sh.flags.connected);
      LogKeeps(s, e);
      if s.sh.flags.connected {
        LogKeeps(Log(s, e), Queried(false));
      } else {
        TakeKeeps(Log(s, e), Top);
      }
    } else {
      LogKeeps(s, Queried(true));
    }
  }

  lemma SegmentKeeps(s: State)
    requires Inv(s) && !s.sh.waiter.Waiting?
    ensures Inv(Segment(s)) && Requests(s) <= Requests(Segment(s))
    ensures s.sh.ready && (s.sh.waiter.Granted? || (s.sh.count > 0 && !InPoll(s.pc)))
            ==> Requests(s) < Requests(Segment(s))
  {
    match s.pc
    case Start => TakeKeeps(s, Top);
    case AtTake(_) => ResumeKeeps(s);
    case Requesting => PollKeeps(s);
    case PollingStatus =>
    case PollSleeping => PollKeeps(s);
    case ReportingConnected => TakeKeeps(s, AfterConnect);
  }

  lemma EnvKeepsFlags(sh: Shared, a: Action, v: Summary)
    requires FlagsRefine(sh, v) && Enabled(sh, a) && !a.ThreadRuns?
    ensures FlagsRefine(EnvStep(sh, a), AfterLog(v, EnvLog(sh, a)))
  {
  }

  lemma EnvKeepsStale(sh: Shared, a: Action, v: Summary)
    requires FlagsRefine(sh, v) && StaleOnlyByClear(sh, v) && Enabled(sh, a) && !a.ThreadRuns?
    ensures StaleOnlyByClear(EnvStep(sh, a), AfterLog(v, EnvLog(sh, a)))
  {
  }

  lemma EnvLeavesThread(sh: Shared, pc: Pc, a: Action, v: Summary)
    requires Shape(sh, pc) && Enabled(sh, a) && !a.ThreadRuns?
    ensures Shape(EnvStep(sh, a), pc)
    ensures AfterLog(v, EnvLog(sh, a)).requests == v.requests && AfterLog(v, EnvLog(sh, a)).takes == v.takes
  {
  }

  lemma EnvKeepsAll(sh: Shared, pc: Pc, a: Action, v: Summary)
    requires Shape(sh, pc) && Facts(sh, v) && Awake(sh, v) && Enabled(sh, a) && !a.ThreadRuns?
    ensures
      var sh', v' := EnvStep(sh, a), AfterLog(v, EnvLog(sh, a));
      Shape(sh', pc) && Facts(sh', v') && Awake(sh', v') && v'.requests == v.requests
  {
    EnvKeepsFlags(sh, a, v);
    EnvKeepsAddress(sh, a, v);
    EnvKeepsStale(sh, a, v);
    EnvKeepsGives(sh, a, v);
    EnvKeepsAwake(sh, a, v);
    EnvLeavesThread(sh, pc, a, v);
  }

  lemma EnvKeeps(s: State, a: Action)
    requires Inv(s) && Enabled(s.sh, a) && !a.ThreadRuns?
    ensures Inv(Step(s, a)) && Requests(Step(s, a)) == Requests(s)
  {
    EnvKeepsAll(s.sh, s.pc, a, Sum(s.history));
    SumExtendLog(s.history, EnvLog(s.sh, a));
  }

  lemma StepKeeps(s: State, a: Action)
    requires Inv(s) && Enabled(s.sh, a)
    ensures Inv(Step(s, a)) && Requests(s) <= Requests(Step(s, a))
  {
    if a.ThreadRuns? { SegmentKeeps(s); } else { EnvKeeps(s, a); }
  }

  lemma {:induction false} RunKeeps(s: State, schedule: seq<Action>)
    requires Inv(s) && Legal(s, schedule)
    ensures Inv(Exec(s, schedule)) && Requests(s) <= Requests(Exec(s, schedule))
    decreases |schedule|
  {
    if schedule != [] {
      var n := |schedule| - 1;
      RunKeeps(s, schedule[..n]);
      StepKeeps(Exec(s, schedule[..n]), schedule[n]);
    }
  }

  // ----- main results over every run -----------------------------------------------------------

  /** `s` is a state of some run. */
  ghost predicate Reached(s: State) { exists schedule :: Legal(INIT, schedule) && Exec(INIT, schedule) == s }

  lemma ReachedInv(s: State)
    requires Reached(s)
    ensures Inv(s)
  {
    var schedule :| Legal(INIT, schedule) && Exec(INIT, schedule) == s;
    RunKeeps(INIT, schedule);
  }

  /** A step from a reachable state leads to one. */
  lemma ReachedOn(s: State, a: Action)
    requires Reached(s) && Enabled(s.sh, a)
    ensures Reached(Step(s, a))
  {
    var schedule :| Legal(INIT, schedule) && Exec(INIT, schedule) == s;
    var longer := schedule + [a];
    assert longer[..|schedule|] == schedule;
    assert Legal(INIT, longer) && Exec(INIT, longer) == Step(s, a);
  }

  lemma InitReached()
    ensures Reached(INIT)
  {
    assert Legal(INIT, []) && Exec(INIT, []) == INIT;
  }

  /** The flags are exactly what the history says: `connectResult` that a result arrived since the
      last clear, `connected` that a success did and no disconnect followed it. */
  lemma FlagsRefineHistory(s: State)
    requires Reached(s)
    ensures s.sh.flags.connectResult <==> ResultSinceClear(s.history)
    ensures s.sh.flags.connected <==> LinkUp(s.history)
    ensures s.sh.flags.connected ==> s.sh.flags.connectResult
    ensures !s.sh.flags.disconnectRequested
  {
    ReachedInv(s);
    SumMeans(s.history);
  }

  /** `got_ip` is exactly "the latest of all DHCP-bound and disconnect events is a DHCP-bound",
      except while the disconnect handler has not returned, when that is false already. If DHCP
      binds only while the link is up, an address without a link means that the thread cleared the
      flags after the last bind. */
  lemma AddressRefinesHistory(s: State)
    requires Reached(s)
    ensures s.sh.gotIp <==> AddressHeld(s.history)
    ensures !s.sh.inDisconnect ==> (s.sh.gotIp <==> BoundLast(s.history))
    ensures s.sh.inDisconnect ==> !BoundLast(s.history)
    ensures BoundOnlyWhileUp(s.history) && !s.sh.inDisconnect && s.sh.gotIp && !s.sh.flags.connected
            ==> ClearedSinceBound(s.history)
  {
    ReachedInv(s);
    SumMeans(s.history);
  }

  /** Whenever the thread is blocked and no callback is half done, the readiness it examined last
      is the readiness written last. */
  lemma NoLostWakeUp(s: State)
    requires Reached(s) && s.sh.waiter.Waiting? && s.sh.halfDone == 0
    ensures s.sh.ready == LastWritten(s.history) == LastExamined(s.history)
  {
    ReachedInv(s);
    SumMeans(s.history);
  }

  /** Conservation of gives; every callback that wrote either gave or is half done; every request has
      its own take. */
  lemma RequestAccounting(s: State)
    requires Reached(s)
    ensures Count(s.history, IsGiven) ==
            Count(s.history, IsTaken) + s.sh.count + (if s.sh.waiter.Granted? then 1 else 0)
            + Count(s.history, IsCoalesced)
    ensures Count(s.history, IsWritten) == Count(s.history, IsGiven) + s.sh.halfDone
    ensures Count(s.history, IsCleared) <= Count(s.history, IsTaken)
  {
    ReachedInv(s);
    SumCounts(s.history);
  }

  /** In every reachable state each actor can do what its own history allows, and nothing else holds it up;
      the thread itself is held up exactly if it waits with every give taken or coalesced. */
  lemma ActorsFree(s: State)
    requires Reached(s)
    ensures EnvironmentFree(s.sh, s.history)
    ensures Enabled(s.sh, ThreadRuns) <==>
            (s.pc.AtTake? ==> Count(s.history, IsGiven) > Count(s.history, IsTaken) + Count(s.history, IsCoalesced))
  {
    ReachedInv(s);
    KeptIsFree(s.sh, s.history);
    RequestAccounting(s);
  }

  // ----- why the thread did what it did --------------------------------------------------------

  lemma LogJustified(s: State, e: Event)
    requires Midway(s) && Justified(s.history)
    requires
      || (e == ReadyRead(s.sh.ready) && s.history != [] && s.history[|s.history| - 1].Taken?)
      || (e == PollLeft(s.sh.flags.connected) && s.sh.flags.connectResult)
      || (e == Queried(true) && !s.sh.flags.connectResult)
      || (e == Queried(false) && s.sh.flags.connected)
    ensures Justified(Log(s, e).history)
  {
    SumMeans(s.history);
    JustifiedRecorded(s.history, e);
  }

  lemma TakenMidway(s: State)
    requires Midway(s) && s.sh.count > 0
    ensures
      var s' := Log(s.(sh := s.sh.(count := s.sh.count - 1)), Taken);
      Midway(s') && Requests(s') < Sum(s'.history).takes && s'.history[|s.history|] == Taken
  {
    SumExtend(s.history, Taken);
  }

  lemma {:induction false} CheckJustified(s: State)
    requires Midway(s) && Requests(s) < Sum(s.history).takes && Justified(s.history)
    requires s.history != [] && s.history[|s.history| - 1].Taken?
    ensures Justified(Check(s).history)
    decreases s.sh.count, 1
  {
    var s1 := Log(s, ReadyRead(s.sh.ready));
    LogJustified(s, ReadyRead(s.sh.ready));
    LogKeeps(s, ReadyRead(s.sh.ready));
    if s.sh.ready {
      JustifiedRecorded(s1.history, Cleared);
    } else {
      TakeJustified(s1, Top);
    }
  }

  lemma {:induction false} TakeJustified(s: State, site: Site)
    requires Midway(s) && Justified(s.history)
    ensures Justified(Take(s, site).history)
    decreases s.sh.count, 0
  {
    if s.sh.count > 0 {
      JustifiedRecorded(s.history, Taken);
      TakenMidway(s);
      CheckJustified(Log(s.(sh := s.sh.(count := s.sh.count - 1)), Taken));
    }
  }

  lemma PollJustified(s: State)
    requires Midway(s) && Justified(s.history)
    ensures Justified(Poll(s).history)
  {
    if s.sh.flags.connectResult {
      var e := PollLeft(s.sh.flags.connected);
      LogJustified(s, e);
      LogKeeps(s, e);
      if s.sh.flags.connected { LogJustified(Log(s, e), Queried(false)); } else { TakeJustified(Log(s, e), Top); }
    } else {
      LogJustified(s, Queried(true));
    }
  }

  lemma ResumeJustified(s: State)
    requires Inv(s) && s.sh.waiter.Granted? && Justified(s.history)
    ensures Justified(Segment(s).history)
  {
    JustifiedRecorded(s.history, Taken);
    SumExtend(s.history, Taken);
    CheckJustified(Log(s.(sh := s.sh.(waiter := Running)), Taken));
  }

  lemma SegmentJustified(s: State)
    requires Inv(s) && !s.sh.waiter.Waiting? && Justified(s.history)
    ensures Justified(Segment(s).history)
  {
    match s.pc
    case Start => TakeJustified(s, Top);
    case AtTake(_) => ResumeJustified(s);
    case Requesting => PollJustified(s);
    case PollingStatus =>
    case PollSleeping => PollJustified(s);
    case ReportingConnected => TakeJustified(s, AfterConnect);
  }

  lemma EnvJustified(s: State, a: Action)
    requires Justified(s.history) && Enabled(s.sh, a) && !a.ThreadRuns?
    ensures Justified(Step(s, a).history)
  {
    var h, log := s.history, EnvLog(s.sh, a);
    JustifiedRecorded(h, log[0]);
    if |log| == 2 {
      assert h + log == h + [log[0]] + [log[1]];
      JustifiedRecorded(h + [log[0]], log[1]);
    } else {
      assert log == [log[0]];
    }
  }

  lemma StepJustified(s: State, a: Action)
    requires Inv(s) && Enabled(s.sh, a) && Justified(s.history)
    ensures Justified(Step(s, a).history)
  {
    if a.ThreadRuns? { SegmentJustified(s); } else { EnvJustified(s, a); }
  }

  lemma InitInv()
    ensures Inv(INIT) && Justified(INIT.history)
  {
  }

  lemma {:induction false} RunJustified(s: State, schedule: seq<Action>)
    requires Inv(s) && Justified(s.history) && Legal(s, schedule)
    ensures Justified(Exec(s, schedule).history)
    decreases |schedule|
  {
    if schedule != [] {
      var n := |schedule| - 1;
      RunJustified(s, schedule[..n]);
      RunKeeps(s, schedule[..n]);
      StepJustified(Exec(s, schedule[..n]), schedule[n]);
    }
  }

  /** Every read, request and exit from the poll loop in the history of every run is justified. */
  lemma EveryStepJustified(s: State)
    requires Reached(s)
    ensures Justified(s.history)
  {
    var schedule :| Legal(INIT, schedule) && Exec(INIT, schedule) == s;
    InitInv();
    RunJustified(INIT, schedule);
  }

  // ----- control flow ------------------------------------------------------------------------------

  /** Which event of the thread may come after which. */
  predicate Follows(last: Last, e: Event) {
    match e
    case Taken =>
      last == Nothing || last == Latest(ReadyRead(false)) || last == Latest(PollLeft(false)) || last == Latest(Queried(false))
    case ReadyRead(_) => last == Latest(Taken)
    case Cleared => last == Latest(ReadyRead(true))
    case Queried(true) => last == Latest(Cleared) || last == Latest(Queried(true))
    case PollLeft(_) => last == Latest(Cleared) || last == Latest(Queried(true))
    case Queried(false) => last == Latest(PollLeft(true))
    case _ => false
  }

  /** Where the thread is, by what it recorded last. */
  predicate Located(pc: Pc, last: Last) {
    match pc
    case Start => last == Nothing
    case AtTake(Top) => last == Nothing || last == Latest(ReadyRead(false)) || last == Latest(PollLeft(false))
    case AtTake(AfterConnect) => last == Latest(Queried(false))
    case Requesting => last == Latest(Cleared)
    case PollingStatus => last == Latest(Queried(true))
    case PollSleeping => last == Latest(Queried(true))
    case ReportingConnected => last == Latest(Queried(false))
  }

  ghost predicate Flowing(s: State) { InFlow(s.history, Follows) && Located(s.pc, LastOwn(s.history)) }

  lemma LogFlows(s: State, e: Event)
    requires InFlow(s.history, Follows) && IsOwn(e) && Follows(LastOwn(s.history), e)
    ensures InFlow(Log(s, e).history, Follows) && LastOwn(Log(s, e).history) == Latest(e)
  {
    InFlowExtend(s.history, e, Follows);
    LastOwnExtend(s.history, e);
  }

  lemma {:induction false} TakeFlows(s: State, site: Site)
    requires InFlow(s.history, Follows) && Located(AtTake(site), LastOwn(s.history))
    ensures Flowing(Take(s, site))
    decreases s.sh.count, 0
  {
    if s.sh.count > 0 {
      var s1 := s.(sh := s.sh.(count := s.sh.count - 1));
      LogFlows(s1, Taken);
      CheckFlows(Log(s1, Taken));
    }
  }

  lemma {:induction false} CheckFlows(s: State)
    requires InFlow(s.history, Follows) && LastOwn(s.history) == Latest(Taken)
    ensures Flowing(Check(s))
    decreases s.sh.count, 1
  {
    LogFlows(s, ReadyRead(s.sh.ready));
    var s1 := Log(s, ReadyRead(s.sh.ready));
    if !s.sh.ready { TakeFlows(s1, Top); } else { LogFlows(s1, Cleared); }
  }

  lemma PollFlows(s: State)
    requires Flowing(s) && (s.pc.Requesting? || s.pc.PollSleeping?)
    ensures Flowing(Poll(s))
  {
    if s.sh.flags.connectResult {
      var s1 := Log(s, PollLeft(s.sh.flags.connected));
      LogFlows(s, PollLeft(s.sh.flags.connected));
      if s.sh.flags.connected { LogFlows(s1, Queried(false)); } else { TakeFlows(s1, Top); }
    } else {
      LogFlows(s, Queried(true));
    }
  }

  lemma StepFlows(s: State, a: Action)
    requires Flowing(s) && Enabled(s.sh, a)
    ensures Flowing(Step(s, a))
  {
    if !a.ThreadRuns? {
      EnvInFlow(s.history, s.sh, a, Follows);
    } else {
      match s.pc
      case Start => TakeFlows(s, Top);
      case AtTake(_) =>
        var s1 := s.(sh := s.sh.(waiter := Running));
        LogFlows(s1, Taken);
        CheckFlows(Log(s1, Taken));
      case Requesting => PollFlows(s);
      case PollingStatus =>
      case PollSleeping => PollFlows(s);
      case ReportingConnected => TakeFlows(s, AfterConnect);
    }
  }

  lemma {:induction false} RunFlows(schedule: seq<Action>)
    requires Legal(INIT, schedule)
    ensures Flowing(Exec(INIT, schedule))
    decreases |schedule|
  {
    if schedule != [] {
      var n := |schedule| - 1;
      RunFlows(schedule[..n]);
      StepFlows(Exec(INIT, schedule[..n]), schedule[n]);
    }
  }

  /** In every run the thread's events come in the order of the program, and what it recorded last says
      where it is. */
  lemma ControlFollowsProgram(s: State)
    requires Reached(s)
    ensures InFlow(s.history, Follows) && Located(s.pc, LastOwn(s.history))
  {
    var schedule :| Legal(INIT, schedule) && Exec(INIT, schedule) == s;
    RunFlows(schedule);
  }

  // ----- progress ----------------------------------------------------------------------------------

  predicate InPoll(pc: Pc) { pc.Requesting? || pc.PollingStatus? || pc.PollSleeping? }

  function ThreadSteps(schedule: seq<Action>): nat {
    if schedule == [] then 0
    else ThreadSteps(schedule[..|schedule| - 1]) + (if schedule[|schedule| - 1].ThreadRuns? then 1 else 0)
  }

  /** A wake-up for a ready radio is under way, and the thread is not waiting for a connect result. */
  predicate Armed(s: State) {
    && s.sh.ready
    && (s.sh.count > 0 || s.sh.waiter.Granted?)
    && (InPoll(s.pc) ==> s.sh.flags.connectResult)
  }

  /** A bound on the thread steps before the next request. */
  function Distance(s: State): nat {
    if s.pc.PollingStatus? then 3 else if InPoll(s.pc) then 2 else 1
  }

  lemma ArmedSegment(s: State)
    requires Inv(s) && Armed(s)
    ensures
      var s' := Segment(s);
      Requests(s') > Requests(s) || (Armed(s') && Distance(s') < Distance(s))
  {
    if s.pc.Requesting? || s.pc.PollSleeping? {
      PollKeeps(s);
    } else {
      SegmentKeeps(s);
    }
  }

  lemma ArmedStep(s: State, a: Action)
    requires Inv(s) && Armed(s) && Enabled(s.sh, a) && a != ReadyWrites(false)
    ensures
      var s' := Step(s, a);
      || Requests(s') > Requests(s)
      || (Armed(s') && Distance(s') + (if a.ThreadRuns? then 1 else 0) <= Distance(s))
  {
    if a.ThreadRuns? { ArmedSegment(s); }
  }

  lemma {:induction false} ArmedRun(s: State, schedule: seq<Action>)
    requires Inv(s) && Armed(s) && Legal(s, schedule) && ReadyWrites(false) !in schedule
    ensures
      var s' := Exec(s, schedule);
      || Requests(s') > Requests(s)
      || (Armed(s') && Distance(s') + ThreadSteps(schedule) <= Distance(s))
    decreases |schedule|
  {
    if schedule != [] {
      var n := |schedule| - 1;
      ArmedRun(s, schedule[..n]);
      RunKeeps(s, schedule[..n]);
      StepKeeps(Exec(s, schedule[..n]), schedule[n]);
      if Requests(Exec(s, schedule[..n])) <= Requests(s) {
        ArmedStep(Exec(s, schedule[..n]), schedule[n]);
      }
    }
  }

  /** A completed ready=true callback that no ready=false overtakes leads to a new connect request
      within `Distance` (at most 3) thread steps, whatever else happens in between and however many
      gives coalesce, unless the thread is in the poll loop with no connect result. */
  lemma WakeUpServed(s: State, schedule: seq<Action>)
    requires Reached(s) && s.sh.halfDone > 0 && s.sh.ready
    requires InPoll(s.pc) ==> s.sh.flags.connectResult
    requires Legal(Step(s, ReadyGives), schedule) && ReadyWrites(false) !in schedule
    requires ThreadSteps(schedule) >= Distance(s)
    ensures Requests(Exec(Step(s, ReadyGives), schedule)) > Requests(s)
  {
    var s1 := Step(s, ReadyGives);
    ReachedInv(s);
    EnvKeeps(s, ReadyGives);
    GiveArms(s);
    ArmedRun(s1, schedule);
  }

  lemma GiveArms(s: State)
    requires s.sh.halfDone > 0 && s.sh.ready && (InPoll(s.pc) ==> s.sh.flags.connectResult)
    ensures Armed(Step(s, ReadyGives)) && Distance(Step(s, ReadyGives)) == Distance(s)
  {
  }

  /** The poll loop ignores readiness: with no connect result the thread stays in it, and issues no
      request, through every run that delivers none, whatever the callbacks do. */
  lemma {:induction false} PollHeld(s: State, schedule: seq<Action>)
    requires Reached(s) && InPoll(s.pc) && !s.sh.flags.connectResult && Legal(s, schedule)
    requires forall a :: a in schedule ==> !a.ConnectResultArrives?
    ensures
      var s' := Exec(s, schedule);
      InPoll(s'.pc) && !s'.sh.flags.connectResult && Requests(s') == Requests(s)
    decreases |schedule|
  {
    if schedule != [] {
      var n := |schedule| - 1;
      PollHeld(s, schedule[..n]);
      ReachedInv(s);
      RunKeeps(s, schedule[..n]);
      var s1 := Exec(s, schedule[..n]);
      if !schedule[n].ThreadRuns? { EnvKeeps(s1, schedule[n]); }
    }
  }

  lemma {:induction false} TakeGrows(s: State, site: Site)
    ensures s.history <= Take(s, site).history
    decreases s.sh.count, 0
  {
    if s.sh.count > 0 { CheckGrows(Log(s.(sh := s.sh.(count := s.sh.count - 1)), Taken)); }
  }

  lemma {:induction false} CheckGrows(s: State)
    ensures s.history <= Check(s).history
    decreases s.sh.count, 1
  {
    if !s.sh.ready { TakeGrows(Log(s, ReadyRead(s.sh.ready)), Top); }
  }

  lemma StepGrows(s: State, a: Action)
    requires Enabled(s.sh, a)
    ensures s.history <= Step(s, a).history
  {
    if a.ThreadRuns? {
      TakeGrows(s, Top);
      TakeGrows(s, AfterConnect);
      TakeGrows(Log(s, PollLeft(s.sh.flags.connected)), Top);
      CheckGrows(Log(s.(sh := s.sh.(waiter := Running)), Taken));
    }
  }

  lemma {:induction false} TakeExternal(s: State, site: Site)
    ensures External(Take(s, site).history) == External(s.history)
    decreases s.sh.count, 0
  {
    if s.sh.count > 0 {
      ExternalExtend(s.history, Taken);
      CheckExternal(Log(s.(sh := s.sh.(count := s.sh.count - 1)), Taken));
    }
  }

  lemma {:induction false} CheckExternal(s: State)
    ensures External(Check(s).history) == External(s.history)
    decreases s.sh.count, 1
  {
    var e := ReadyRead(s.sh.ready);
    ExternalExtend(s.history, e);
    if !s.sh.ready { TakeExternal(Log(s, e), Top); } else { ExternalExtend(s.history + [e], Cleared); }
  }

  lemma PollExternal(s: State)
    ensures External(Poll(s).history) == External(s.history)
  {
    var e := PollLeft(s.sh.flags.connected);
    ExternalExtend(s.history, e);
    ExternalExtend(s.history, Queried(true));
    ExternalExtend(s.history + [e], Queried(false));
    TakeExternal(Log(s, e), Top);
  }

  lemma SegmentExternal(s: State)
    requires !s.sh.waiter.Waiting?
    ensures External(Segment(s).history) == External(s.history)
  {
    match s.pc
    case Start => TakeExternal(s, Top);
    case AtTake(_) =>
      ExternalExtend(s.history, Taken);
      CheckExternal(Log(s.(sh := s.sh.(waiter := Running)), Taken));
    case Requesting => PollExternal(s);
    case PollingStatus =>
    case PollSleeping => PollExternal(s);
    case ReportingConnected => TakeExternal(s, AfterConnect);
  }

  lemma EnvRecorded(s: State, a: Action)
    requires Enabled(s.sh, a) && !a.ThreadRuns?
    ensures External(Step(s, a).history) == External(s.history) + Announcement(a)
  {
    ExternalLog(s.history, EnvLog(s.sh, a));
    EnvAnnounces(External(s.history), s.sh, a);
  }

  /** What the history records of the outside is what the schedule announced, in that order. */
  lemma {:induction false} HistoryIsAnnounced(schedule: seq<Action>)
    requires Legal(INIT, schedule)
    ensures External(Exec(INIT, schedule).history) == Announced(schedule)
    decreases |schedule|
  {
    if schedule != [] {
      var n := |schedule| - 1;
      HistoryIsAnnounced(schedule[..n]);
      var s, a := Exec(INIT, schedule[..n]), schedule[n];
      if a.ThreadRuns? { SegmentExternal(s); } else { EnvRecorded(s, a); }
    }
  }

  predicate LeftPollAfter(h: seq<Event>, from: nat) {
    exists i :: from <= i < |h| && h[i].PollLeft?
  }

  function PollDistance(pc: Pc): nat { if pc.PollingStatus? then 2 else 1 }

  lemma WakeReachable() returns (s: State)
    ensures Reached(s) && s.pc == AtTake(Top) && s.sh == INITIAL.(ready := true, waiter := Granted)
  {
    InitReached();
    s := INIT;
    ReachedOn(s, ThreadRuns);
    s := Step(s, ThreadRuns);
    ReachedOn(s, ReadyWrites(true));
    s := Step(s, ReadyWrites(true));
    ReachedOn(s, ReadyGives);
    s := Step(s, ReadyGives);
  }

  /** The state from which `PollHeld` starts occurs: one callback and one pass of the thread lead there. */
  lemma PollReachable() returns (s: State)
    ensures Reached(s) && InPoll(s.pc) && !s.sh.flags.connectResult
  {
    s := WakeReachable();
    ReachedOn(s, ThreadRuns);
    s := Step(s, ThreadRuns);
  }

  /** Once a result is in, the thread leaves the poll loop within two of its own steps. */
  lemma {:induction false} PollLeavesOnResult(s: State, schedule: seq<Action>)
    requires Legal(s, schedule)
    requires InPoll(s.pc) && s.sh.flags.connectResult
    ensures
      var s' := Exec(s, schedule);
      && s.history <= s'.history
      && (LeftPollAfter(s'.history, |s.history|)
          || (InPoll(s'.pc) && s'.sh.flags.connectResult
              && PollDistance(s'.pc) + ThreadSteps(schedule) <= PollDistance(s.pc)))
    ensures ThreadSteps(schedule) >= 2 ==> LeftPollAfter(Exec(s, schedule).history, |s.history|)
    decreases |schedule|
  {
    if schedule != [] {
      var n := |schedule| - 1;
      PollLeavesOnResult(s, schedule[..n]);
      var s1, a := Exec(s, schedule[..n]), schedule[n];
      var s' := Step(s1, a);
      StepGrows(s1, a);
      if LeftPollAfter(s1.history, |s.history|) {
        var i :| |s.history| <= i < |s1.history| && s1.history[i].PollLeft?;
        assert s'.history[i].PollLeft?;
      } else if a.ThreadRuns? && !s1.pc.PollingStatus? {
        var s2 := Log(s1, PollLeft(s1.sh.flags.connected));
        TakeGrows(s2, Top);
        assert s2.history <= s'.history;
        assert s'.history[|s1.history|] == s2.history[|s1.history|];
      }
    }
  }

  /** A thread that waits with no callback half done stays where it is until a new callback: a
      failed attempt is never retried on its own. */
  lemma {:induction false} NoRetryWithoutCallback(s: State, schedule: seq<Action>)
    requires Reached(s) && s.sh.waiter.Waiting? && s.sh.halfDone == 0 && Legal(s, schedule)
    requires forall a :: a in schedule ==> !a.ReadyWrites?
    ensures
      var s' := Exec(s, schedule);
      s'.sh.waiter.Waiting? && s'.sh.halfDone == 0 && Requests(s') == Requests(s)
    decreases |schedule|
  {
    if schedule != [] {
      var n := |schedule| - 1;
      NoRetryWithoutCallback(s, schedule[..n]);
      ReachedInv(s);
      RunKeeps(s, schedule[..n]);
      EnvKeeps(Exec(s, schedule[..n]), schedule[n]);
    }
  }
}
