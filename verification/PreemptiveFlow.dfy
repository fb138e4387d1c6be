/** The preemptible thread's own course through its program: the order of what it does, the causes of what
    it sees, and how soon it gets on. */
module PreemptiveFlow {
  import opened Histories
  import opened Station
  import opened PreemptiveThread

  // ----- control flow and causes -----------------------------------------------------------------

  /** Which event of the thread may come after which. */
  predicate Follows(last: Last, e: Event) {
    match e
    case Taken => last == Nothing || last == Latest(ReadyRead(false))
    case ReadyRead(_) => last == Latest(Taken)
    case ClearStep(LoadForConnected) => last == Latest(ReadyRead(true))
    case ClearStep(StoreConnected) => last == Latest(ClearStep(LoadForConnected))
    case ClearStep(LoadForResult) => last == Latest(ClearStep(StoreConnected))
    case ClearStep(StoreResult) => last == Latest(ClearStep(LoadForResult))
    case Requested => last == Latest(ClearStep(StoreResult))
    case Queried(true) => last == Latest(Requested) || last == Latest(Queried(true))
    case PollLeft(_) => last == Latest(Requested) || last == Latest(Queried(true))
    case Queried(false) => last == Latest(PollLeft(true))
    case HttpEntered => last == Latest(Queried(false))
    case _ => false
  }

  /** Where the thread is, by what it recorded last. */
  predicate Located(pc: Pc, last: Last) {
    match pc
    case CallTake(site) => last == if site.First? then Nothing else Latest(ReadyRead(false))
    case Blocked(site) => last == if site.First? then Nothing else Latest(ReadyRead(false))
    case CheckReady => last == Latest(Taken)
    case LoadA => last == Latest(ReadyRead(true))
    case StoreA => last == Latest(ClearStep(LoadForConnected))
    case LoadB => last == Latest(ClearStep(StoreConnected))
    case StoreB => last == Latest(ClearStep(LoadForResult))
    case Request => last == Latest(ClearStep(StoreResult))
    case PollTest => last == Latest(Requested) || last == Latest(Queried(true))
    case PollWait => last == Latest(Requested) || last == Latest(Queried(true))
    case ConnectedTest => last == Latest(Requested) || last == Latest(Queried(true))
    case Report => last == Latest(PollLeft(true))
    case CallHttp => last == Latest(Queried(false))
    case HttpLoop => last == Latest(HttpEntered)
    case Ended => last == Latest(PollLeft(false))
  }

  ghost predicate Flowing(s: State) { InFlow(s.history, Follows) && Located(s.pc, LastOwn(s.history)) }

  lemma ThreadFlows(s: State, last: Last)
    requires Located(s.pc, last) && CanRun(s, ThreadRuns)
    ensures
      var pc', log := ThreadStep(s).pc, ThreadLog(s);
      if log == [] then Located(pc', last)
      else |log| == 1 && IsOwn(log[0]) && Follows(last, log[0]) && Located(pc', Latest(log[0]))
  {
  }

  lemma StepFlows(s: State, a: Action)
    requires Flowing(s) && CanRun(s, a)
    ensures Flowing(Step(s, a))
  {
    if !a.ThreadRuns? {
      EnvInFlow(s.history, s.sh, a, Follows);
    } else {
      ThreadFlows(s, LastOwn(s.history));
      var log := ThreadLog(s);
      if log == [] {
        assert s.history + log == s.history;
      } else {
        assert s.history + log == s.history + [log[0]];
        InFlowExtend(s.history, log[0], Follows);
        LastOwnExtend(s.history, log[0]);
      }
    }
  }

  lemma {:induction false} RunFlows(schedule: seq<Action>)
    requires Legal(INIT, schedule)
    ensures Flowing(Exec(INIT, schedule))
    decreases |schedule|
  {
    if schedule != [] {
      var n := |schedule| - 1;
      RunFlows(schedule[..n]);
      StepFlows(Exec(INIT, schedule[..n]), schedule[n]);
    }
  }

  /** In every run the thread's events come in the order of the program: in particular a read of false
      is followed by a new take and by no clear and no request. What the thread recorded last says where
      it is. */
  lemma ControlFollowsProgram(s: State)
    requires Reached(s)
    ensures InFlow(s.history, Follows) && Located(s.pc, LastOwn(s.history))
  {
    var schedule :| Legal(INIT, schedule) && Exec(INIT, schedule) == s;
    RunFlows(schedule);
  }

  lemma ThreadExternal(s: State)
    ensures External(s.history + ThreadLog(s)) == External(s.history)
  {
    var log := ThreadLog(s);
    if log == [] {
      assert s.history + log == s.history;
    } else {
      assert s.history + log == s.history + [log[0]];
      ExternalExtend(s.history, log[0]);
    }
  }

  lemma EnvRecorded(s: State, a: Action)
    requires CanRun(s, a) && !a.ThreadRuns?
    ensures External(Step(s, a).history) == External(s.history) + Announcement(a)
  {
    ExternalLog(s.history, EnvLog(s.sh, a));
    EnvAnnounces(External(s.history), s.sh, a);
  }

  /** What the history records of the outside is what the schedule announced, in that order. */
  lemma {:induction false} HistoryIsAnnounced(schedule: seq<Action>)
    requires Legal(INIT, schedule)
    ensures External(Exec(INIT, schedule).history) == Announced(schedule)
    decreases |schedule|
  {
    if schedule != [] {
      var n := |schedule| - 1;
      HistoryIsAnnounced(schedule[..n]);
      var s, a := Exec(INIT, schedule[..n]), schedule[n];
      if a.ThreadRuns? { ThreadExternal(s); } else { EnvRecorded(s, a); }
    }
  }

  /** Why the thread may record `e` after `past`: a read returns the value last written; the poll loop is
      left only on a result newer than the clears, and then sees the link as it is. */
  ghost predicate CausedBy(past: seq<Event>, e: Event) {
    match e
    case ReadyRead(value) => value == LastWritten(past)
    case PollLeft(connected) => ResultSinceB(past) && connected == UpSinceB(past)
    case _ => true
  }

  ghost predicate Caused(h: seq<Event>) { forall i :: 0 <= i < |h| ==> CausedBy(h[..i], h[i]) }

  lemma CausedExtend(h: seq<Event>, e: Event)
    requires Caused(h) && CausedBy(h, e)
    ensures Caused(h + [e])
  {
    var g := h + [e];
    assert g[|h|] == e && g[..|h|] == h;
    assert forall i :: 0 <= i < |h| ==> g[i] == h[i] && g[..i] == h[..i];
  }

  lemma ReadCaused(s: State)
    requires Inv(s) && s.pc.CheckReady?
    ensures s.sh.ready == LastWritten(s.history)
  {
    SumMeans(s.history);
  }

  lemma ExitCaused(s: State)
    requires Inv(s) && s.pc.ConnectedTest?
    ensures ResultSinceB(s.history) && s.sh.flags.connected == UpSinceB(s.history)
  {
    DigestMeans(s.history);
  }

  lemma EnvCaused(h: seq<Event>, sh: Shared, a: Action)
    requires Caused(h) && Enabled(sh, a) && !a.ThreadRuns?
    ensures Caused(h + EnvLog(sh, a))
  {
    var log := EnvLog(sh, a);
    CausedExtend(h, log[0]);
    if |log| == 1 {
      assert h + log == h + [log[0]];
    } else {
      assert h + log == h + [log[0]] + [log[1]];
      CausedExtend(h + [log[0]], log[1]);
    }
  }

  /** Other events of the thread need no cause. */
  lemma ThreadEvent(s: State)
    requires ThreadLog(s) != []
    ensures ThreadLog(s) == [ThreadLog(s)[0]]
    ensures
      var e := ThreadLog(s)[0];
      && (e.ReadyRead? ==> s.pc.CheckReady? && e == ReadyRead(s.sh.ready))
      && (e.PollLeft? ==> s.pc.ConnectedTest? && e == PollLeft(s.sh.flags.connected))
  {
  }

  lemma ThreadCaused(s: State)
    requires Inv(s) && ThreadLog(s) != []
    ensures CausedBy(s.history, ThreadLog(s)[0])
  {
    ThreadEvent(s);
    var e := ThreadLog(s)[0];
    if e.ReadyRead? { ReadCaused(s); } else if e.PollLeft? { ExitCaused(s); }
  }

  lemma LogCaused(h: seq<Event>, log: seq<Event>)
    requires Caused(h) && |log| <= 1 && (log != [] ==> CausedBy(h, log[0]))
    ensures Caused(h + log)
  {
    if log == [] {
      assert h + log == h;
    } else {
      assert h + log == h + [log[0]];
      CausedExtend(h, log[0]);
    }
  }

  lemma StepCaused(s: State, a: Action)
    requires Caused(s.history) && CanRun(s, a)
    requires a.ThreadRuns? && ThreadLog(s) != [] ==> CausedBy(s.history, ThreadLog(s)[0])
    ensures Caused(Step(s, a).history)
  {
    if !a.ThreadRuns? {
      EnvCaused(s.history, s.sh, a);
    } else {
      LogCaused(s.history, ThreadLog(s));
    }
  }

  lemma {:induction false} RunCaused(s: State, schedule: seq<Action>)
    requires Inv(s) && Caused(s.history) && Legal(s, schedule)
    ensures Caused(Exec(s, schedule).history)
    decreases |schedule|
  {
    if schedule != [] {
      var n := |schedule| - 1;
      RunCaused(s, schedule[..n]);
      RunKeeps(s, schedule[..n]);
      var s1 := Exec(s, schedule[..n]);
      if schedule[n].ThreadRuns? && ThreadLog(s1) != [] { ThreadCaused(s1); }
      StepCaused(s1, schedule[n]);
    }
  }

  lemma InitCaused()
    ensures Caused(INIT.history)
  {
  }

  /** Every read and every exit from the poll loop in the history of every run has its cause. */
  lemma EveryStepCaused(s: State)
    requires Reached(s)
    ensures Caused(s.history)
  {
    var schedule :| Legal(INIT, schedule) && Exec(INIT, schedule) == s;
    InitInv();
    InitCaused();
    RunCaused(INIT, schedule);
  }

  // ----- progress to the request, into the HTTP loop or to the end ---------------------------------

  /** Own steps until the connect request has been made; 0 once it has. */
  function RequestDistance(pc: Pc): nat {
    match pc
    case CallTake(_) => 7
    case Blocked(_) => 7
    case CheckReady => 6
    case LoadA => 5
    case StoreA => 4
    case LoadB => 3
    case StoreB => 2
    case Request => 1
    case _ => 0
  }

  /** A wake-up for a ready radio is under way, or the thread is past it. */
  predicate Armed(s: State) {
    && (RequestDistance(s.pc) >= 6 ==> s.sh.ready)
    && (s.pc.CallTake? ==> s.sh.count > 0)
    && (s.pc.Blocked? ==> s.sh.waiter.Granted?)
  }

  lemma ArmedStep(s: State, a: Action)
    requires Armed(s) && CanRun(s, a) && a != ReadyWrites(false)
    ensures
      var d, d' := RequestDistance(s.pc), RequestDistance(Step(s, a).pc);
      Armed(Step(s, a)) && d' <= (if a.ThreadRuns? && d > 0 then d - 1 else d)
  {
  }

  lemma {:induction false} ArmedRun(s: State, schedule: seq<Action>)
    requires Armed(s) && Legal(s, schedule) && ReadyWrites(false) !in schedule
    ensures Armed(Exec(s, schedule))
    ensures
      var d := RequestDistance(Exec(s, schedule).pc);
      d == 0 || d + ThreadSteps(schedule) <= RequestDistance(s.pc)
    decreases |schedule|
  {
    if schedule != [] {
      var n := |schedule| - 1;
      ArmedRun(s, schedule[..n]);
      ArmedStep(Exec(s, schedule[..n]), schedule[n]);
    }
  }

  lemma GiveArms(s: State)
    requires Inv(s) && s.sh.halfDone > 0 && s.sh.ready
    ensures Armed(Step(s, ReadyGives)) && Step(s, ReadyGives).pc == s.pc
  {
  }

  lemma RequestedOnce(s: State)
    requires Inv(s)
    ensures Count(s.history, IsRequested) == (if RequestDistance(s.pc) == 0 then 1 else 0)
  {
    DigestCounts(s.history);
  }

  /** A completed ready=true callback that no ready=false overtakes leads to the request within seven
      thread steps, whatever else happens in between. */
  lemma WakeUpServed(s: State, schedule: seq<Action>)
    requires Reached(s) && s.sh.halfDone > 0 && s.sh.ready
    requires Legal(Step(s, ReadyGives), schedule) && ReadyWrites(false) !in schedule
    requires ThreadSteps(schedule) >= 7
    ensures Count(Exec(Step(s, ReadyGives), schedule).history, IsRequested) == 1
  {
    ReachedInv(s);
    GiveArms(s);
    StepKeeps(s, ReadyGives);
    ArmedServed(Step(s, ReadyGives), schedule);
  }

  lemma ArmedServed(s: State, schedule: seq<Action>)
    requires Inv(s) && Armed(s) && Legal(s, schedule) && ReadyWrites(false) !in schedule
    requires ThreadSteps(schedule) >= 7
    ensures Count(Exec(s, schedule).history, IsRequested) == 1
  {
    ArmedRun(s, schedule);
    RunKeeps(s, schedule);
    RequestedOnce(Exec(s, schedule));
  }

  lemma {:induction false} ReportRun(s: State, schedule: seq<Action>)
    requires (s.pc.Report? || s.pc.Ended?) && Legal(s, schedule)
    ensures
      var pc' := Exec(s, schedule).pc;
      var k := ThreadSteps(schedule);
      pc' == if s.pc.Ended? || k == 0 then s.pc else if k == 1 then CallHttp else HttpLoop
    ensures s.pc.Ended? ==> ThreadSteps(schedule) == 0
    decreases |schedule|
  {
    if schedule != [] { ReportRun(s, schedule[..|schedule| - 1]); }
  }

  lemma {:induction false} ReachedRun(s: State, schedule: seq<Action>)
    requires Reached(s) && Legal(s, schedule)
    ensures Reached(Exec(s, schedule))
    decreases |schedule|
  {
    if schedule != [] {
      var n := |schedule| - 1;
      ReachedRun(s, schedule[..n]);
      ReachedOn(Exec(s, schedule[..n]), schedule[n]);
    }
  }

  /** After the poll loop was left with a link, the second thread step of every continuation enters the HTTP
      loop; left without one, the thread has ended and takes no step at all. */
  lemma OutcomeDecides(s: State, schedule: seq<Action>, link: bool)
    requires Reached(s) && LastOwn(s.history) == Latest(PollLeft(link)) && Legal(s, schedule)
    ensures
      var s' := Exec(s, schedule);
      LastOwn(s'.history) ==
      if !link || ThreadSteps(schedule) == 0 then Latest(PollLeft(link))
      else if ThreadSteps(schedule) == 1 then Latest(Queried(false)) else Latest(HttpEntered)
    ensures !link ==> s.pc.Ended? && ThreadSteps(schedule) == 0
  {
    ControlFollowsProgram(s);
    ReportRun(s, schedule);
    ReachedRun(s, schedule);
    ControlFollowsProgram(Exec(s, schedule));
  }
}
