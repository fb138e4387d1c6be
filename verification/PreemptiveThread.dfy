/**
 The station of src/wifi/wifi_sta.c: the Wi-Fi thread is preemptible, so the event thread can run
 between any two of its memory accesses. A bit-field assignment is a load of the shared byte and a
 store of the changed byte, hence two steps. The HTTP loop runs inside this thread.
 */
module PreemptiveThread {
  import opened Histories
  import opened Station

  /** The two places where the thread waits for the readiness semaphore. */
  datatype Site = First | Again

  /** The statement that the thread executes next. */
  datatype Pc =
    | CallTake(site: Site)
    | Blocked(site: Site)
    | CheckReady
    | LoadA | StoreA           // connected = false
    | LoadB | StoreB           // connect_result = false
    | Request
    | PollTest
    | PollWait                 // status query and sleep
    | ConnectedTest
    | Report                   // status query after a successful attempt
    | CallHttp
    | HttpLoop
    | Ended

  datatype State = State(sh: Shared, pc: Pc, reg: Flags, history: seq<Event>)

  const INIT := State(INITIAL, CallTake(First), INITIAL.flags, [])

  predicate CanRun(s: State, a: Action) {
    Enabled(s.sh, a) && (a.ThreadRuns? ==> !s.pc.Ended?)
  }

  /** One step of the thread, without what it records. */
  function ThreadStep(s: State): State
    requires CanRun(s, ThreadRuns)
  {
    var sh := s.sh;
    match s.pc
    case CallTake(site) =>
      if sh.count > 0 then s.(sh := sh.(count := sh.count - 1), pc := CheckReady)
      else s.(sh := sh.(waiter := Waiting), pc := Blocked(site))
    case Blocked(_) => s.(sh := sh.(waiter := Running), pc := CheckReady)
    case CheckReady => s.(pc := if sh.ready then LoadA else CallTake(Again))
    case LoadA => s.(reg := sh.flags, pc := StoreA)
    case StoreA => s.(sh := sh.(flags := s.reg.(connected := false)), pc := LoadB)
    case LoadB => s.(reg := sh.flags, pc := StoreB)
    case StoreB => s.(sh := sh.(flags := s.reg.(connectResult := false)), pc := Request)
    case Request => s.(pc := PollTest)
    case PollTest => s.(pc := if sh.flags.connectResult then ConnectedTest else PollWait)
    case PollWait => s.(pc := PollTest)
    case ConnectedTest => s.(pc := if sh.flags.connected then Report else Ended)
    case Report => s.(pc := CallHttp)
    case CallHttp => s.(pc := HttpLoop)
    case HttpLoop => s // the session's own steps are those of `ComposedSystem`; the loop has no exit
  }

  function ThreadLog(s: State): seq<Event> {
    match s.pc
    case CallTake(_) => if s.sh.count > 0 then [Taken] else []
    case Blocked(_) => [Taken]
    case CheckReady => [ReadyRead(s.sh.ready)]
    case LoadA => [ClearStep(LoadForConnected)]
    case StoreA => [ClearStep(StoreConnected)]
    case LoadB => [ClearStep(LoadForResult)]
    case StoreB => [ClearStep(StoreResult)]
    case Request => [Requested]
    case PollWait => [Queried(true)]
    case ConnectedTest => [PollLeft(s.sh.flags.connected)]
    case Report => [Queried(false)]
    case CallHttp => [HttpEntered]
    case _ => []
  }

  function Move(s: State, a: Action): State
    requires CanRun(s, a)
  {
    if a.ThreadRuns? then ThreadStep(s) else s.(sh := EnvStep(s.sh, a))
  }

  function MoveLog(s: State, a: Action): (log: seq<Event>)
    requires CanRun(s, a)
    ensures |log| <= 2
  {
    if a.ThreadRuns? then ThreadLog(s) else EnvLog(s.sh, a)
  }

  function Step(s: State, a: Action): State
    requires CanRun(s, a)
  {
    Move(s, a).(history := s.history + MoveLog(s, a))
  }

  ghost predicate Legal(s: State, schedule: seq<Action>)
    decreases |schedule|, 0
  {
    schedule == [] ||
    (var n := |schedule| - 1;
     Legal(s, schedule[..n]) && CanRun(Exec(s, schedule[..n]), schedule[n]))
  }

  ghost function Exec(s: State, schedule: seq<Action>): State
    requires Legal(s, schedule)
    decreases |schedule|, 1
  {
    if schedule == [] then s
    else var n := |schedule| - 1; Step(Exec(s, schedule[..n]), schedule[n])
  }

  /** A prefix of a run is a run, and the next action continues it. */
  lemma {:induction false} PrefixStep(s: State, schedule: seq<Action>, k: nat)
    requires Legal(s, schedule) && k < |schedule|
    ensures Legal(s, schedule[..k]) && Legal(s, schedule[..k + 1])
    ensures CanRun(Exec(s, schedule[..k]), schedule[k])
    ensures Exec(s, schedule[..k + 1]) == Step(Exec(s, schedule[..k]), schedule[k])
    decreases |schedule|
  {
    var n := |schedule| - 1;
    if k < n {
      PrefixStep(s, schedule[..n], k);
      assert schedule[..n][..k] == schedule[..k] && schedule[..n][..k + 1] == schedule[..k + 1];
    } else {
      assert schedule[..k + 1] == schedule;
    }
  }

  // ----- what a history says -------------------------------------------------------------------

  predicate IsStoreB(e: Event) { e == ClearStep(StoreResult) }
  predicate EndsLinkAtA(e: Event) { e.Disconnected? || e == ClearStep(StoreConnected) }
  predicate EndsLinkAtB(e: Event) { e.Disconnected? || e == ClearStep(StoreResult) }
  predicate IsRequested(e: Event) { e.Requested? }
  predicate IsHttpEntered(e: Event) { e.HttpEntered? }

  /** A success since the first clear, with no disconnect after it. */
  ghost predicate UpSinceA(h: seq<Event>) { Since(h, IsSuccess, EndsLinkAtA) }

  /** The same since the second clear: what `connected` should mean once both are done. */
  ghost predicate UpSinceB(h: seq<Event>) { Since(h, IsSuccess, EndsLinkAtB) }
  ghost predicate ResultSinceB(h: seq<Event>) { Since(h, IsResult, IsStoreB) }

  /** The clears are done and no disconnect has arrived since. */
  ghost predicate StoredUndisturbed(h: seq<Event>) { Since(h, IsStoreB, IsDisconnected) }

  /** A success fell between the two clears: it arrived after the first clear's store and was still
      in force when the second clear loaded the byte. */
  ghost predicate HitBetweenClears(h: seq<Event>) {
    exists l :: 0 <= l < |h| && h[l] == ClearStep(LoadForResult) && UpSinceA(h[..l])
  }

  lemma HitRecorded(h: seq<Event>, e: Event)
    ensures HitBetweenClears(h + [e]) <==>
            HitBetweenClears(h) || (e == ClearStep(LoadForResult) && UpSinceA(h))
  {
    var g := h + [e];
    assert g[|h|] == e && g[..|h|] == h;
    assert forall i :: 0 <= i < |h| ==> g[i] == h[i] && g[..i] == h[..i];
    if HitBetweenClears(h) {
      var l :| 0 <= l < |h| && h[l] == ClearStep(LoadForResult) && UpSinceA(h[..l]);
      assert g[l] == ClearStep(LoadForResult) && UpSinceA(g[..l]);
    }
    if e == ClearStep(LoadForResult) && UpSinceA(h) {
      assert g[|h|] == ClearStep(LoadForResult) && UpSinceA(g[..|h|]);
    }
  }

  /** What the invariant needs to know about a history besides `Summary`, and how one event changes it. */
  datatype Digest = Digest(
    upSinceA: bool, upSinceB: bool, resultSinceB: bool, undisturbed: bool, hit: bool,
    requests: nat, entries: nat)
  {
    function After(e: Event): Digest {
      Digest(e == ConnectResult(true) || (upSinceA && !EndsLinkAtA(e)),
             e == ConnectResult(true) || (upSinceB && !EndsLinkAtB(e)),
             e.ConnectResult? || (resultSinceB && !IsStoreB(e)),
             IsStoreB(e) || (undisturbed && !e.Disconnected?),
             hit || (e == ClearStep(LoadForResult) && upSinceA),
             requests + (if e.Requested? then 1 else 0),
             entries + (if e.HttpEntered? then 1 else 0))
    }

    function AfterAll(log: seq<Event>): Digest
      requires |log| <= 2
    {
      if log == [] then this else if |log| == 1 then After(log[0]) else After(log[0]).After(log[1])
    }
  }

  const NO_DIGEST := Digest(false, false, false, false, false, 0, 0)

  ghost function DigestOf(h: seq<Event>): Digest {
    if h == [] then NO_DIGEST else DigestOf(h[..|h| - 1]).After(h[|h| - 1])
  }

  lemma DigestExtend(h: seq<Event>, e: Event)
    ensures DigestOf(h + [e]) == DigestOf(h).After(e)
  {
    assert (h + [e])[..|h|] == h;
  }

  lemma DigestExtendAll(h: seq<Event>, log: seq<Event>)
    requires |log| <= 2
    ensures DigestOf(h + log) == DigestOf(h).AfterAll(log)
  {
    if log == [] {
      assert h + log == h;
    } else if |log| == 1 {
      assert h + log == h + [log[0]];
      DigestExtend(h, log[0]);
    } else {
      assert h + log == h + [log[0]] + [log[1]];
      DigestExtend(h, log[0]);
      DigestExtend(h + [log[0]], log[1]);
    }
  }

  lemma Recorded(h: seq<Event>, e: Event)
    ensures UpSinceA(h + [e]) <==> e == ConnectResult(true) || (UpSinceA(h) && !EndsLinkAtA(e))
    ensures UpSinceB(h + [e]) <==> e == ConnectResult(true) || (UpSinceB(h) && !EndsLinkAtB(e))
    ensures ResultSinceB(h + [e]) <==> e.ConnectResult? || (ResultSinceB(h) && !IsStoreB(e))
    ensures StoredUndisturbed(h + [e]) <==> IsStoreB(e) || (StoredUndisturbed(h) && !e.Disconnected?)
  {
    SinceExtend(h, e, IsSuccess, EndsLinkAtA);
    SinceExtend(h, e, IsSuccess, EndsLinkAtB);
    SinceExtend(h, e, IsResult, IsStoreB);
    SinceExtend(h, e, IsStoreB, IsDisconnected);
  }

  /** The digest of a history says what the history says. */
  lemma {:induction false} DigestMeans(h: seq<Event>)
    ensures DigestOf(h).upSinceA == UpSinceA(h) && DigestOf(h).upSinceB == UpSinceB(h)
    ensures DigestOf(h).resultSinceB == ResultSinceB(h) && DigestOf(h).undisturbed == StoredUndisturbed(h)
    ensures DigestOf(h).hit == HitBetweenClears(h)
    decreases |h|
  {
    if h != [] {
      var n := |h| - 1;
      assert h == h[..n] + [h[n]];
      DigestMeans(h[..n]);
      Recorded(h[..n], h[n]);
      HitRecorded(h[..n], h[n]);
    }
  }

  lemma {:induction false} DigestCounts(h: seq<Event>)
    ensures DigestOf(h).requests == Count(h, IsRequested) && DigestOf(h).entries == Count(h, IsHttpEntered)
    decreases |h|
  {
    if h != [] { DigestCounts(h[..|h| - 1]); }
  }

  // ----- what every step keeps -------------------------------------------------------------------

  predicate BeforeClears(pc: Pc) { pc.CallTake? || pc.Blocked? || pc.CheckReady? || pc.LoadA? || pc.StoreA? }
  predicate BetweenClears(pc: Pc) { pc.LoadB? || pc.StoreB? }
  predicate AfterClears(pc: Pc) { !BeforeClears(pc) && !BetweenClears(pc) }
  predicate InPoll(pc: Pc) { pc.Request? || pc.PollTest? || pc.PollWait? }

  predicate Trapped(s: State) { s.sh.flags.connected && !s.sh.flags.connectResult }

  predicate FlagsAgree(f: Flags, pc: Pc, reg: Flags, v: Digest) {
    && !f.disconnectRequested && !reg.disconnectRequested
    && (f.connected && !f.connectResult <==> v.hit && v.undisturbed)
    && (!BetweenClears(pc) && !v.hit ==> f.connectResult == v.resultSinceB && f.connected == v.upSinceB)
    && (BeforeClears(pc) ==> !v.hit && !v.undisturbed)
    && (pc.LoadB? ==> f.connected == v.upSinceA && !v.hit)
    && (BetweenClears(pc) ==> !v.undisturbed)
    && (pc.StoreB? ==> reg.connected == v.hit)
    && (AfterClears(pc) && !InPoll(pc) ==> f.connectResult)
    && (AfterClears(pc) ==> f.connected == ((v.hit && v.undisturbed) || v.upSinceB))
    && (AfterClears(pc) && f.connectResult ==> v.resultSinceB)
  }

  function RequestsAt(pc: Pc): nat { if AfterClears(pc) && !pc.Request? then 1 else 0 }
  function EntriesAt(pc: Pc): nat { if pc.HttpLoop? then 1 else 0 }

  predicate OneAttempt(pc: Pc, v: Digest) { v.requests == RequestsAt(pc) && v.entries == EntriesAt(pc) }

  /** What concerns `got_ip` and the semaphore; the thread may be about to examine the readiness. */
  predicate SharedKept(sh: Shared, pc: Pc, w: Summary) {
    && (sh.waiter.Running? <==> !pc.Blocked?)
    && AddressKept(sh, w) && GivesKept(sh, w)
    && sh.ready == w.written && (pc.CheckReady? || Awake(sh, w))
  }

  predicate Agreed(s: State, v: Digest, w: Summary) {
    FlagsAgree(s.sh.flags, s.pc, s.reg, v) && OneAttempt(s.pc, v) && SharedKept(s.sh, s.pc, w)
  }

  ghost predicate Inv(s: State) { Agreed(s, DigestOf(s.history), Sum(s.history)) }

  predicate Clearing(pc: Pc) { pc.LoadA? || pc.StoreA? || pc.LoadB? || pc.StoreB? }

  lemma ClearKeepsFlags(s: State, v: Digest)
    requires FlagsAgree(s.sh.flags, s.pc, s.reg, v) && CanRun(s, ThreadRuns) && Clearing(s.pc)
    ensures
      var s' := ThreadStep(s);
      FlagsAgree(s'.sh.flags, s'.pc, s'.reg, v.AfterAll(ThreadLog(s)))
  {
  }

  /** An event of the thread other than a clear changes nothing that the flags are about. */
  lemma OtherEventNeutral(v: Digest, e: Event)
    requires e.Taken? || e.ReadyRead? || e.Requested? || e.Queried? || e.PollLeft? || e.HttpEntered?
    ensures v.After(e) == v.(requests := v.After(e).requests, entries := v.After(e).entries)
  {
  }

  lemma OtherStepKeepsFlags(s: State, v: Digest)
    requires FlagsAgree(s.sh.flags, s.pc, s.reg, v) && CanRun(s, ThreadRuns) && !Clearing(s.pc)
    ensures
      var s' := ThreadStep(s);
      FlagsAgree(s'.sh.flags, s'.pc, s'.reg, v.AfterAll(ThreadLog(s)))
  {
    var s', log := ThreadStep(s), ThreadLog(s);
    assert s'.sh.flags == s.sh.flags && s'.reg == s.reg;
    assert BeforeClears(s.pc) <==> BeforeClears(s'.pc) || s.pc.StoreA?;
    if log != [] { OtherEventNeutral(v, log[0]); }
  }

  lemma ResultKeepsFlags(f: Flags, pc: Pc, reg: Flags, v: Digest, status: int)
    requires FlagsAgree(f, pc, reg, v)
    ensures FlagsAgree(OnConnectResult(f, status), pc, reg, v.After(ConnectResult(status == 0)))
  {
  }

  lemma DisconnectKeepsFlags(f: Flags, pc: Pc, reg: Flags, v: Digest)
    requires FlagsAgree(f, pc, reg, v)
    ensures FlagsAgree(OnDisconnect(f), pc, reg, v.After(Disconnected))
  {
  }

  /** Nothing else that an event or a callback records is about the flags. */
  lemma OtherEnvEventNeutral(v: Digest, e: Event)
    requires e.AddressLost? || e.DhcpBound? || e.ReadyWritten? || e.Given?
    ensures v.After(e) == v
  {
  }

  lemma EnvKeepsFlags(s: State, a: Action, v: Digest)
    requires FlagsAgree(s.sh.flags, s.pc, s.reg, v) && CanRun(s, a) && !a.ThreadRuns?
    ensures FlagsAgree(EnvStep(s.sh, a).flags, s.pc, s.reg, v.AfterAll(EnvLog(s.sh, a)))
  {
    if a.ConnectResultArrives? {
      ResultKeepsFlags(s.sh.flags, s.pc, s.reg, v, a.status);
    } else if a.DisconnectArrives? {
      DisconnectKeepsFlags(s.sh.flags, s.pc, s.reg, v);
      OtherEnvEventNeutral(v.After(Disconnected), AddressLost);
    } else {
      OtherEnvEventNeutral(v, EnvLog(s.sh, a)[0]);
    }
  }

  lemma MoveKeepsFlags(s: State, a: Action, v: Digest)
    requires FlagsAgree(s.sh.flags, s.pc, s.reg, v) && CanRun(s, a)
    ensures
      var s' := Move(s, a);
      FlagsAgree(s'.sh.flags, s'.pc, s'.reg, v.AfterAll(MoveLog(s, a)))
  {
    if !a.ThreadRuns? {
      EnvKeepsFlags(s, a, v);
    } else if Clearing(s.pc) {
      ClearKeepsFlags(s, v);
    } else {
      OtherStepKeepsFlags(s, v);
    }
  }

  lemma EnvRequestsNothing(sh: Shared, a: Action, v: Digest)
    requires Enabled(sh, a) && !a.ThreadRuns?
    ensures v.AfterAll(EnvLog(sh, a)).requests == v.requests && v.AfterAll(EnvLog(sh, a)).entries == v.entries
  {
  }

  lemma MoveKeepsOneAttempt(s: State, a: Action, v: Digest)
    requires OneAttempt(s.pc, v) && CanRun(s, a)
    ensures OneAttempt(Move(s, a).pc, v.AfterAll(MoveLog(s, a)))
  {
    if a.ThreadRuns? { ThreadCounts(s); } else { EnvRequestsNothing(s.sh, a, v); }
  }

  /** The thread records one event at most, and counts change with the place that it goes to. */
  lemma ThreadCounts(s: State)
    requires CanRun(s, ThreadRuns)
    ensures |ThreadLog(s)| <= 1
    ensures RequestsAt(ThreadStep(s).pc) ==
            RequestsAt(s.pc) + (if ThreadLog(s) != [] && ThreadLog(s)[0].Requested? then 1 else 0)
    ensures EntriesAt(ThreadStep(s).pc) ==
            EntriesAt(s.pc) + (if ThreadLog(s) != [] && ThreadLog(s)[0].HttpEntered? then 1 else 0)
  {
  }

  lemma EnvLeavesWaiter(sh: Shared, a: Action)
    requires Enabled(sh, a) && !a.ThreadRuns?
    ensures EnvStep(sh, a).waiter.Running? <==> sh.waiter.Running?
  {
  }

  lemma EnvKeepsShared(sh: Shared, pc: Pc, a: Action, w: Summary)
    requires SharedKept(sh, pc, w) && Enabled(sh, a) && !a.ThreadRuns?
    ensures SharedKept(EnvStep(sh, a), pc, AfterLog(w, EnvLog(sh, a)))
  {
    Station.EnvKeepsAddress(sh, a, w);
    Station.EnvKeepsGives(sh, a, w);
    Station.EnvKeepsAwake(sh, a, w);
    EnvLeavesWaiter(sh, a);
  }

  lemma TakeKeepsShared(s: State, w: Summary)
    requires SharedKept(s.sh, s.pc, w) && CanRun(s, ThreadRuns) && (s.pc.CallTake? || s.pc.Blocked?)
    ensures SharedKept(ThreadStep(s).sh, ThreadStep(s).pc, AfterLog(w, ThreadLog(s)))
  {
  }

  lemma ReadKeepsShared(s: State, w: Summary)
    requires SharedKept(s.sh, s.pc, w) && CanRun(s, ThreadRuns) && s.pc.CheckReady?
    ensures SharedKept(ThreadStep(s).sh, ThreadStep(s).pc, AfterLog(w, ThreadLog(s)))
  {
  }

  lemma QuietEventNeutral(sh: Shared, pc: Pc, w: Summary, e: Event)
    requires e.ClearStep? || e.Requested? || e.Queried? || e.PollLeft? || e.HttpEntered?
    ensures SharedKept(sh, pc, w) ==> SharedKept(sh, pc, w.After(e))
  {
  }

  /** A step that neither takes nor reads changes at most the flags. */
  lemma QuietStep(s: State)
    requires CanRun(s, ThreadRuns) && !s.pc.CallTake? && !s.pc.Blocked? && !s.pc.CheckReady?
    ensures
      var s' := ThreadStep(s);
      s'.sh == s.sh.(flags := s'.sh.flags) && !s'.pc.CheckReady? && !s'.pc.Blocked?
    ensures |ThreadLog(s)| <= 1
    ensures ThreadLog(s) != [] ==>
      var e := ThreadLog(s)[0]; e.ClearStep? || e.Requested? || e.Queried? || e.PollLeft? || e.HttpEntered?
  {
  }

  lemma QuietKeepsShared(s: State, w: Summary)
    requires SharedKept(s.sh, s.pc, w) && CanRun(s, ThreadRuns)
    requires !s.pc.CallTake? && !s.pc.Blocked? && !s.pc.CheckReady?
    ensures SharedKept(ThreadStep(s).sh, ThreadStep(s).pc, AfterLog(w, ThreadLog(s)))
  {
    QuietStep(s);
    if ThreadLog(s) != [] { QuietEventNeutral(ThreadStep(s).sh, ThreadStep(s).pc, w, ThreadLog(s)[0]); }
  }

  lemma MoveKeepsShared(s: State, a: Action, w: Summary)
    requires SharedKept(s.sh, s.pc, w) && CanRun(s, a)
    ensures SharedKept(Move(s, a).sh, Move(s, a).pc, AfterLog(w, MoveLog(s, a)))
  {
    if !a.ThreadRuns? {
      EnvKeepsShared(s.sh, s.pc, a, w);
    } else if s.pc.CallTake? || s.pc.Blocked? {
      TakeKeepsShared(s, w);
    } else if s.pc.CheckReady? {
      ReadKeepsShared(s, w);
    } else {
      QuietKeepsShared(s, w);
    }
  }

  lemma MoveKeeps(s: State, a: Action, v: Digest, w: Summary)
    requires Agreed(s, v, w) && CanRun(s, a)
    ensures Agreed(Move(s, a), v.AfterAll(MoveLog(s, a)), AfterLog(w, MoveLog(s, a)))
  {
    MoveKeepsFlags(s, a, v);
    MoveKeepsOneAttempt(s, a, v);
    MoveKeepsShared(s, a, w);
  }

  lemma MoveRecorded(s: State, h: seq<Event>, log: seq<Event>)
    requires |log| <= 2 && Agreed(s, DigestOf(h).AfterAll(log), AfterLog(Sum(h), log))
    ensures Inv(s.(history := h + log))
  {
    DigestExtendAll(h, log);
    SumExtendLog(h, log);
  }

  lemma StepKeeps(s: State, a: Action)
    requires Inv(s) && CanRun(s, a)
    ensures Inv(Step(s, a))
  {
    MoveKeeps(s, a, DigestOf(s.history), Sum(s.history));
    MoveRecorded(Move(s, a), s.history, MoveLog(s, a));
  }

  lemma {:induction false} RunKeeps(s: State, schedule: seq<Action>)
    requires Inv(s) && Legal(s, schedule)
    ensures Inv(Exec(s, schedule))
    decreases |schedule|
  {
    if schedule != [] {
      var n := |schedule| - 1;
      RunKeeps(s, schedule[..n]);
      StepKeeps(Exec(s, schedule[..n]), schedule[n]);
    }
  }

  // ----- main results over every run -----------------------------------------------------------

  /** `s` is a state of some run. */
  ghost predicate Reached(s: State) { exists schedule :: Legal(INIT, schedule) && Exec(INIT, schedule) == s }

  lemma InitInv()
    ensures Inv(INIT)
  {
  }

  lemma ReachedInv(s: State)
    requires Reached(s)
    ensures Inv(s)
  {
    var schedule :| Legal(INIT, schedule) && Exec(INIT, schedule) == s;
    RunKeeps(INIT, schedule);
  }

  /** The trap, exactly: `connected` without `connect_result` holds in a reachable state if and only
      if a success fell between the two clears (and was still in force when the second one loaded
      the byte), both clears are done, and no disconnect has arrived since. */
  lemma TrapExactly(s: State)
    requires Reached(s)
    ensures Trapped(s) <==> HitBetweenClears(s.history) && StoredUndisturbed(s.history)
    ensures Trapped(s) ==> InPoll(s.pc)
    ensures !s.sh.flags.disconnectRequested
  {
    ReachedInv(s);
    DigestMeans(s.history);
  }

  /** Without that interleaving the flags mean what they mean in the cooperative design, except
      between the two clears themselves. */
  lemma FlagsRefineHistoryWithoutHit(s: State)
    requires Reached(s) && !HitBetweenClears(s.history)
    ensures s.sh.flags.connected ==> s.sh.flags.connectResult
    ensures !BetweenClears(s.pc) ==> s.sh.flags.connectResult == ResultSinceB(s.history)
    ensures !BetweenClears(s.pc) ==> s.sh.flags.connected == UpSinceB(s.history)
  {
    ReachedInv(s);
    DigestMeans(s.history);
  }

  /** At most one connect request and one entry into the HTTP loop in any run. */
  lemma OneAttemptPerRun(s: State)
    requires Reached(s)
    ensures Count(s.history, IsHttpEntered) <= Count(s.history, IsRequested) <= 1
    ensures s.pc.HttpLoop? <==> Count(s.history, IsHttpEntered) == 1
  {
    ReachedInv(s);
    DigestCounts(s.history);
  }

  /** No wake-up is lost here either, although callbacks can run between the take and the read. */
  lemma NoLostWakeUp(s: State)
    requires Reached(s) && s.sh.waiter.Waiting? && s.sh.halfDone == 0
    ensures s.sh.ready == LastWritten(s.history) == LastExamined(s.history)
  {
    ReachedInv(s);
    SumMeans(s.history);
  }

  /** `got_ip` means here what it means in the cooperative design. */
  lemma AddressRefinesHistory(s: State)
    requires Reached(s)
    ensures s.sh.gotIp <==> AddressHeld(s.history)
    ensures !s.sh.inDisconnect ==> (s.sh.gotIp <==> BoundLast(s.history))
    ensures s.sh.inDisconnect ==> !BoundLast(s.history)
  {
    ReachedInv(s);
    SumMeans(s.history);
  }

  /** In every reachable state each actor can do what its own history allows, and nothing else holds it up;
      the thread itself is held up exactly if it waits with every give taken or coalesced, or has ended. */
  lemma ActorsFree(s: State)
    requires Reached(s)
    ensures EnvironmentFree(s.sh, s.history)
    ensures CanRun(s, ThreadRuns) <==>
            !s.pc.Ended? &&
            (s.pc.Blocked? ==> Count(s.history, IsGiven) > Count(s.history, IsTaken) + Count(s.history, IsCoalesced))
  {
    ReachedInv(s);
    KeptIsFree(s.sh, s.history);
    GiveAccounting(s);
  }

  /** Conservation of gives; every callback that wrote either gave or is half done. */
  lemma GiveAccounting(s: State)
    requires Reached(s)
    ensures Count(s.history, IsGiven) ==
            Count(s.history, IsTaken) + s.sh.count + (if s.sh.waiter.Granted? then 1 else 0)
            + Count(s.history, IsCoalesced)
    ensures Count(s.history, IsWritten) == Count(s.history, IsGiven) + s.sh.halfDone
  {
    ReachedInv(s);
    SumCounts(s.history);
  }

  // ----- leaving the poll loop -------------------------------------------------------------------

  function ThreadSteps(schedule: seq<Action>): nat {
    if schedule == [] then 0
    else ThreadSteps(schedule[..|schedule| - 1]) + (if schedule[|schedule| - 1].ThreadRuns? then 1 else 0)
  }

  /** Own steps until the thread has tested the result and then the link; 0 once it has. */
  function PollDistance(pc: Pc): nat {
    match pc
    case Request => 3
    case PollWait => 3
    case PollTest => 2
    case ConnectedTest => 1
    case _ => 0
  }

  predicate Settled(s: State) { AfterClears(s.pc) && s.sh.flags.connectResult }

  lemma SettledStep(s: State, a: Action)
    requires Settled(s) && CanRun(s, a)
    ensures
      var s' := Step(s, a);
      && Settled(s')
      && PollDistance(s'.pc) <= (if a.ThreadRuns? && PollDistance(s.pc) > 0 then PollDistance(s.pc) - 1
                                 else PollDistance(s.pc))
  {
  }

  /** Once a result is in, every continuation in which the thread makes three steps has it out of the
      poll loop, on its way into the HTTP loop or at its end. */
  lemma {:induction false} PollLeavesOnResult(s: State, schedule: seq<Action>)
    requires Settled(s) && Legal(s, schedule)
    ensures Settled(Exec(s, schedule))
    ensures PollDistance(Exec(s, schedule).pc) + ThreadSteps(schedule) <= PollDistance(s.pc)
            || PollDistance(Exec(s, schedule).pc) == 0
    decreases |schedule|
  {
    if schedule != [] {
      var n := |schedule| - 1;
      PollLeavesOnResult(s, schedule[..n]);
      SettledStep(Exec(s, schedule[..n]), schedule[n]);
    }
  }

  // ----- leaving the trap --------------------------------------------------------------------------

  /** A disconnect, and a connect result later. */
  ghost predicate DisconnectThenResult(schedule: seq<Action>) {
    exists i, j :: 0 <= i < j < |schedule| && schedule[i].DisconnectArrives? && schedule[j].ConnectResultArrives?
  }

  ghost predicate SomeDisconnect(schedule: seq<Action>) {
    exists i :: 0 <= i < |schedule| && schedule[i].DisconnectArrives?
  }

  lemma ScheduleExtend(schedule: seq<Action>, a: Action)
    ensures SomeDisconnect(schedule + [a]) <==> SomeDisconnect(schedule) || a.DisconnectArrives?
    ensures DisconnectThenResult(schedule + [a]) <==>
            DisconnectThenResult(schedule) || (SomeDisconnect(schedule) && a.ConnectResultArrives?)
  {
    var g, n := schedule + [a], |schedule|;
    assert g[n] == a && forall i :: 0 <= i < n ==> g[i] == schedule[i];
    if SomeDisconnect(schedule) {
      var i :| 0 <= i < n && schedule[i].DisconnectArrives?;
      assert g[i].DisconnectArrives?;
      if a.ConnectResultArrives? { assert g[n].ConnectResultArrives?; }
    }
    if DisconnectThenResult(schedule) {
      var i, j :| 0 <= i < j < n && schedule[i].DisconnectArrives? && schedule[j].ConnectResultArrives?;
      assert g[i].DisconnectArrives? && g[j].ConnectResultArrives?;
    }
  }

  /** Where a run that began in the trap can be, by whether it has seen a disconnect and, after it, a
      connect result. */
  predicate AfterTrap(s: State, disconnect: bool, freed: bool) {
    && AfterClears(s.pc) && !s.sh.flags.disconnectRequested
    && s.sh.flags.connectResult == freed
    && (!disconnect ==> s.sh.flags.connected)
    && (disconnect && !freed ==> !s.sh.flags.connected)
    && (!freed ==> InPoll(s.pc))
    && (freed ==> disconnect)
  }

  lemma AfterTrapStep(s: State, a: Action, disconnect: bool, freed: bool)
    requires AfterTrap(s, disconnect, freed) && CanRun(s, a)
    ensures AfterTrap(Step(s, a), disconnect || a.DisconnectArrives?,
                      freed || (disconnect && a.ConnectResultArrives?))
  {
  }

  lemma {:induction false} AfterTrapRun(s: State, schedule: seq<Action>)
    requires AfterTrap(s, false, false) && Legal(s, schedule)
    ensures AfterTrap(Exec(s, schedule), SomeDisconnect(schedule), DisconnectThenResult(schedule))
    decreases |schedule|
  {
    if schedule != [] {
      var n := |schedule| - 1;
      var before := schedule[..n];
      AfterTrapRun(s, before);
      ScheduleExtend(before, schedule[n]);
      assert before + [schedule[n]] == schedule;
      AfterTrapStep(Exec(s, before), schedule[n], SomeDisconnect(before), DisconnectThenResult(before));
    }
  }

  /** From the trap, in every continuation: `connect_result` is set if and only if a disconnect and
      then a connect result arrive; until then the thread is in the poll loop. */
  lemma TrapLeftExactly(s: State, schedule: seq<Action>)
    requires Reached(s) && Trapped(s) && Legal(s, schedule)
    ensures Exec(s, schedule).sh.flags.connectResult <==> DisconnectThenResult(schedule)
    ensures !DisconnectThenResult(schedule) ==> InPoll(Exec(s, schedule).pc)
    ensures !SomeDisconnect(schedule) ==> Trapped(Exec(s, schedule))
  {
    TrapExactly(s);
    AfterTrapRun(s, schedule);
  }

  /** A step from a reachable state leads to one. */
  lemma ReachedOn(s: State, a: Action)
    requires Reached(s) && CanRun(s, a)
    ensures Reached(Step(s, a))
  {
    var schedule :| Legal(INIT, schedule) && Exec(INIT, schedule) == s;
    var longer := schedule + [a];
    assert longer[..|schedule|] == schedule;
    assert Legal(INIT, longer) && Exec(INIT, longer) == Step(s, a);
  }

  lemma InitReached()
    ensures Reached(INIT)
  {
    assert Legal(INIT, []) && Exec(INIT, []) == INIT;
  }

  /** The next state of a run, without its history. */
  lemma ReachedNext(s: State, a: Action) returns (s': State)
    requires Reached(s) && CanRun(s, a)
    ensures Reached(s') && s'.sh == Move(s, a).sh && s'.pc == Move(s, a).pc && s'.reg == Move(s, a).reg
  {
    ReachedOn(s, a);
    s' := Step(s, a);
  }

  lemma WakeReachable() returns (s: State)
    ensures Reached(s) && s.pc == Blocked(First) && s.sh == INITIAL.(ready := true, waiter := Granted)
  {
    InitReached();
    s := INIT;
    s := ReachedNext(s, ThreadRuns);
    s := ReachedNext(s, ReadyWrites(true));
    s := ReachedNext(s, ReadyGives);
  }

  lemma LoadReachable() returns (s: State)
    ensures Reached(s) && s.pc == LoadA && s.sh == INITIAL.(ready := true)
  {
    s := WakeReachable();
    s := ReachedNext(s, ThreadRuns);
    s := ReachedNext(s, ThreadRuns);
  }

  lemma BetweenReachable() returns (s: State)
    ensures Reached(s) && s.pc == LoadB && s.sh == INITIAL.(ready := true)
  {
    s := LoadReachable();
    s := ReachedNext(s, ThreadRuns);
    s := ReachedNext(s, ThreadRuns);
  }

  lemma HitReachable() returns (s: State)
    ensures Reached(s) && s.pc == LoadB && s.sh.waiter.Running? && s.sh.flags == Flags(true, true, false)
  {
    s := BetweenReachable();
    s := ReachedNext(s, ConnectResultArrives(0));
  }

  /** The trap is reachable: the success arrives between the two clears. */
  lemma TrapReachable() returns (s: State)
    ensures Reached(s) && Trapped(s)
  {
    s := HitReachable();
    s := ReachedNext(s, ThreadRuns);
    s := ReachedNext(s, ThreadRuns);
  }

  lemma StoreReachable() returns (s: State)
    ensures Reached(s) && s.pc == StoreB && s.sh == INITIAL.(ready := true) && s.reg == INITIAL.flags
  {
    s := BetweenReachable();
    s := ReachedNext(s, ThreadRuns);
  }

  lemma RequestReachable() returns (s: State)
    ensures Reached(s) && s.pc == Request && s.sh == INITIAL.(ready := true)
  {
    s := StoreReachable();
    s := ReachedNext(s, ThreadRuns);
  }

  lemma LinkReachable() returns (s: State)
    ensures Reached(s) && s.pc == PollTest && s.sh == LINKED
  {
    s := RequestReachable();
    s := ReachedNext(s, ThreadRuns);
    s := ReachedNext(s, ConnectResultArrives(0));
  }

  const LINKED := INITIAL.(ready := true, flags := Flags(true, true, false))

  lemma ExitReachable() returns (s: State)
    ensures Reached(s) && s.pc == ConnectedTest && s.sh == LINKED
  {
    s := LinkReachable();
    s := ReachedNext(s, ThreadRuns);
  }

  lemma ReportReachable() returns (s: State)
    ensures Reached(s) && s.pc == Report && s.sh == LINKED
  {
    s := ExitReachable();
    s := ReachedNext(s, ThreadRuns);
  }

  lemma CallReachable() returns (s: State)
    ensures Reached(s) && s.pc == CallHttp && s.sh == LINKED
  {
    s := ReportReachable();
    s := ReachedNext(s, ThreadRuns);
  }

  lemma LoopReachable() returns (s: State)
    ensures Reached(s) && s.pc == HttpLoop && s.sh == LINKED
  {
    s := CallReachable();
    s := ReachedNext(s, ThreadRuns);
  }

  /** The HTTP loop can run on after the link is gone. */
  lemma QuietLoopReachable() returns (s: State)
    ensures Reached(s) && s.pc == HttpLoop && !s.sh.flags.connected && !s.sh.inDisconnect
  {
    s := LoopReachable();
    s := ReachedNext(s, DisconnectArrives(0));
    s := ReachedNext(s, DisconnectReturns);
  }
}
