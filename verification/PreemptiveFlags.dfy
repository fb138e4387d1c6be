/** What the two flags of the preemptible design are in every reachable state. */
module PreemptiveFlags {
  import opened Histories
  import opened Station
  import opened PreemptiveThread

  // ----- the flags in every state -------------------------------------------------------------------

  predicate IsStoreA(e: Event) { e == ClearStep(StoreConnected) }
  predicate Never(e: Event) { false }

  ghost predicate AnyResult(h: seq<Event>) { Since(h, IsResult, Never) }
  ghost predicate ResultSinceA(h: seq<Event>) { Since(h, IsResult, IsStoreA) }

  /** A disconnect has arrived since both clears were done. */
  ghost predicate Disturbed(h: seq<Event>) { Since(h, IsDisconnected, IsStoreB) }

  /** The first clear loaded a byte with a result in it, and so stores that result back. */
  ghost predicate ResultAtLoad(h: seq<Event>) {
    exists l :: 0 <= l < |h| && h[l] == ClearStep(LoadForConnected) && AnyResult(h[..l])
  }

  /** Since the clears a result arrived after a disconnect. */
  ghost predicate FreedSinceB(h: seq<Event>) {
    exists r :: 0 <= r < |h| && h[r].ConnectResult? && Disturbed(h[..r]) && forall i :: r < i < |h| ==> !IsStoreB(h[i])
  }

  lemma ResultAtLoadExtend(h: seq<Event>, e: Event)
    ensures ResultAtLoad(h + [e]) <==>
            ResultAtLoad(h) || (e == ClearStep(LoadForConnected) && AnyResult(h))
  {
    var g := h + [e];
    assert g[|h|] == e && g[..|h|] == h;
    assert forall i :: 0 <= i < |h| ==> g[i] == h[i] && g[..i] == h[..i];
    if ResultAtLoad(h) {
      var l :| 0 <= l < |h| && h[l] == ClearStep(LoadForConnected) && AnyResult(h[..l]);
      assert g[l] == ClearStep(LoadForConnected) && AnyResult(g[..l]);
    }
    if e == ClearStep(LoadForConnected) && AnyResult(h) {
      assert g[|h|] == ClearStep(LoadForConnected) && AnyResult(g[..|h|]);
    }
  }

  lemma FreedExtend(h: seq<Event>, e: Event)
    ensures FreedSinceB(h + [e]) <==> (e.ConnectResult? && Disturbed(h)) || (FreedSinceB(h) && !IsStoreB(e))
  {
    var g := h + [e];
    assert g[|h|] == e && g[..|h|] == h;
    assert forall i :: 0 <= i < |h| ==> g[i] == h[i] && g[..i] == h[..i];
    if FreedSinceB(g) && !(e.ConnectResult? && Disturbed(h)) {
      var r :| 0 <= r < |g| && g[r].ConnectResult? && Disturbed(g[..r]) && forall i :: r < i < |g| ==> !IsStoreB(g[i]);
      assert h[r].ConnectResult? && Disturbed(h[..r]);
    }
    if FreedSinceB(h) && !IsStoreB(e) {
      var r :| 0 <= r < |h| && h[r].ConnectResult? && Disturbed(h[..r]) && forall i :: r < i < |h| ==> !IsStoreB(h[i]);
      assert g[r].ConnectResult? && Disturbed(g[..r]);
    }
    if e.ConnectResult? && Disturbed(h) { assert g[|h|].ConnectResult? && Disturbed(g[..|h|]); }
  }

  /** These five in one value that changes with each event. */
  datatype Window = Window(any: bool, atLoad: bool, sinceA: bool, disturbed: bool, freed: bool) {
    function After(e: Event): Window {
      Window(any || e.ConnectResult?,
             atLoad || (e == ClearStep(LoadForConnected) && any),
             e.ConnectResult? || (sinceA && !IsStoreA(e)),
             e.Disconnected? || (disturbed && !IsStoreB(e)),
             (e.ConnectResult? && disturbed) || (freed && !IsStoreB(e)))
    }

    function AfterAll(log: seq<Event>): Window
      requires |log| <= 2
    {
      if log == [] then this else if |log| == 1 then After(log[0]) else After(log[0]).After(log[1])
    }
  }

  ghost function WindowOf(h: seq<Event>): Window {
    if h == [] then Window(false, false, false, false, false) else WindowOf(h[..|h| - 1]).After(h[|h| - 1])
  }

  lemma WindowExtend(h: seq<Event>, e: Event)
    ensures WindowOf(h + [e]) == WindowOf(h).After(e)
  {
    assert (h + [e])[..|h|] == h;
  }

  lemma {:induction false} WindowMeans(h: seq<Event>)
    ensures WindowOf(h) == Window(AnyResult(h), ResultAtLoad(h), ResultSinceA(h), Disturbed(h), FreedSinceB(h))
    decreases |h|
  {
    if h != [] {
      var n := |h| - 1;
      var e := h[n];
      assert h == h[..n] + [e];
      WindowMeans(h[..n]);
      SinceExtend(h[..n], e, IsResult, Never);
      SinceExtend(h[..n], e, IsResult, IsStoreA);
      SinceExtend(h[..n], e, IsDisconnected, IsStoreB);
      ResultAtLoadExtend(h[..n], e);
      FreedExtend(h[..n], e);
    }
  }

  lemma WindowExtendAll(h: seq<Event>, log: seq<Event>)
    requires |log| <= 2
    ensures WindowOf(h + log) == WindowOf(h).AfterAll(log)
  {
    if log == [] {
      assert h + log == h;
    } else if |log| == 1 {
      assert h + log == h + [log[0]];
      WindowExtend(h, log[0]);
    } else {
      assert h + log == h + [log[0]] + [log[1]];
      WindowExtend(h, log[0]);
      WindowExtend(h + [log[0]], log[1]);
    }
  }

  /** What the flags are before, between and after the clears. */
  predicate WindowAgrees(f: Flags, pc: Pc, reg: Flags, v: Digest, w: Window) {
    && (BeforeClears(pc) ==> f.connectResult == w.any)
    && (pc.StoreA? ==> reg.connectResult == w.atLoad)
    && (BeforeClears(pc) && !pc.StoreA? ==> !w.atLoad)
    && (BetweenClears(pc) ==> f.connectResult == (w.atLoad || w.sinceA) && f.connected == v.upSinceA)
    && (AfterClears(pc) ==> v.undisturbed == !w.disturbed)
    && (AfterClears(pc) && v.hit ==> f.connectResult == w.freed)
  }

  lemma LoadsKeepWindow(f: Flags, reg: Flags, v: Digest, w: Window)
    ensures
      var e := ClearStep(LoadForConnected);
      WindowAgrees(f, LoadA, reg, v, w) ==> WindowAgrees(f, StoreA, f, v.After(e), w.After(e))
    ensures
      var e := ClearStep(LoadForResult);
      WindowAgrees(f, LoadB, reg, v, w) ==> WindowAgrees(f, StoreB, f, v.After(e), w.After(e))
  {
  }

  lemma StoresKeepWindow(f: Flags, reg: Flags, v: Digest, w: Window)
    ensures
      var e := ClearStep(StoreConnected);
      WindowAgrees(f, StoreA, reg, v, w) ==>
      WindowAgrees(reg.(connected := false), LoadB, reg, v.After(e), w.After(e))
    ensures
      var e := ClearStep(StoreResult);
      WindowAgrees(f, StoreB, reg, v, w) ==>
      WindowAgrees(reg.(connectResult := false), Request, reg, v.After(e), w.After(e))
  {
  }

  lemma ClearKeepsWindow(s: State, v: Digest, w: Window)
    requires WindowAgrees(s.sh.flags, s.pc, s.reg, v, w) && CanRun(s, ThreadRuns) && Clearing(s.pc)
    ensures
      var s', log := ThreadStep(s), ThreadLog(s);
      WindowAgrees(s'.sh.flags, s'.pc, s'.reg, v.AfterAll(log), w.AfterAll(log))
  {
    if s.pc.LoadA? || s.pc.LoadB? {
      LoadsKeepWindow(s.sh.flags, s.reg, v, w);
    } else {
      StoresKeepWindow(s.sh.flags, s.reg, v, w);
    }
  }

  lemma OtherEventSameWindow(w: Window, e: Event)
    requires !e.ConnectResult? && !e.Disconnected? && !e.ClearStep?
    ensures w.After(e) == w
  {
  }

  lemma OtherStepKeepsWindow(s: State, v: Digest, w: Window)
    requires WindowAgrees(s.sh.flags, s.pc, s.reg, v, w)
    requires CanRun(s, ThreadRuns) && !Clearing(s.pc)
    ensures
      var s', log := ThreadStep(s), ThreadLog(s);
      WindowAgrees(s'.sh.flags, s'.pc, s'.reg, v.AfterAll(log), w.AfterAll(log))
  {
    var s', log := ThreadStep(s), ThreadLog(s);
    OtherStep(s);
    OtherLogNeutral(v, w, log);
    SameSide(s.sh.flags, s.pc, s'.pc, s.reg, v, v.AfterAll(log), w);
  }

  lemma SameSide(f: Flags, pc: Pc, pc': Pc, reg: Flags, v: Digest, v': Digest, w: Window)
    requires WindowAgrees(f, pc, reg, v, w) && !pc.StoreA? && !pc'.StoreA?
    requires BeforeClears(pc) == BeforeClears(pc') && BetweenClears(pc) == BetweenClears(pc')
    requires v' == v.(requests := v'.requests, entries := v'.entries)
    ensures WindowAgrees(f, pc', reg, v', w)
  {
  }

  /** A step outside the clears leaves the flags and the register alone, and stays on its side of them. */
  lemma OtherStep(s: State)
    requires CanRun(s, ThreadRuns) && !Clearing(s.pc)
    ensures
      var s' := ThreadStep(s);
      && s'.sh.flags == s.sh.flags && s'.reg == s.reg && !s'.pc.StoreA?
      && BeforeClears(s.pc) == BeforeClears(s'.pc) && BetweenClears(s.pc) == BetweenClears(s'.pc)
    ensures
      var log := ThreadLog(s);
      |log| <= 1 && (log != [] ==> OtherOwn(log[0]))
  {
  }

  predicate OtherOwn(e: Event) { e.Taken? || e.ReadyRead? || e.Requested? || e.Queried? || e.PollLeft? || e.HttpEntered? }

  lemma OtherLogNeutral(v: Digest, w: Window, log: seq<Event>)
    requires |log| <= 1 && (log != [] ==> OtherOwn(log[0]))
    ensures v.AfterAll(log) == v.(requests := v.AfterAll(log).requests, entries := v.AfterAll(log).entries)
    ensures w.AfterAll(log) == w
  {
    if log != [] {
      OtherEventNeutral(v, log[0]);
      OtherEventSameWindow(w, log[0]);
    }
  }

  lemma ResultKeepsWindow(f: Flags, pc: Pc, reg: Flags, v: Digest, w: Window, status: int)
    requires FlagsAgree(f, pc, reg, v) && WindowAgrees(f, pc, reg, v, w)
    ensures
      var e := ConnectResult(status == 0);
      WindowAgrees(OnConnectResult(f, status), pc, reg, v.After(e), w.After(e))
  {
  }

  lemma DisconnectKeepsWindow(f: Flags, pc: Pc, reg: Flags, v: Digest, w: Window)
    requires FlagsAgree(f, pc, reg, v) && WindowAgrees(f, pc, reg, v, w)
    ensures WindowAgrees(OnDisconnect(f), pc, reg, v.After(Disconnected), w.After(Disconnected))
  {
  }

  lemma EnvKeepsWindow(s: State, a: Action, v: Digest, w: Window)
    requires FlagsAgree(s.sh.flags, s.pc, s.reg, v) && WindowAgrees(s.sh.flags, s.pc, s.reg, v, w)
    requires CanRun(s, a) && !a.ThreadRuns?
    ensures
      var log := EnvLog(s.sh, a);
      WindowAgrees(EnvStep(s.sh, a).flags, s.pc, s.reg, v.AfterAll(log), w.AfterAll(log))
  {
    if a.ConnectResultArrives? {
      ResultKeepsWindow(s.sh.flags, s.pc, s.reg, v, w, a.status);
    } else if a.DisconnectArrives? {
      DisconnectKeepsWindow(s.sh.flags, s.pc, s.reg, v, w);
      OtherEnvEventNeutral(v.After(Disconnected), AddressLost);
      OtherEventSameWindow(w.After(Disconnected), AddressLost);
    } else {
      OtherEnvEventNeutral(v, EnvLog(s.sh, a)[0]);
      OtherEventSameWindow(w, EnvLog(s.sh, a)[0]);
    }
  }

  lemma MoveKeepsWindow(s: State, a: Action, v: Digest, w: Window)
    requires FlagsAgree(s.sh.flags, s.pc, s.reg, v) && WindowAgrees(s.sh.flags, s.pc, s.reg, v, w) && CanRun(s, a)
    ensures
      var s', log := Move(s, a), MoveLog(s, a);
      WindowAgrees(s'.sh.flags, s'.pc, s'.reg, v.AfterAll(log), w.AfterAll(log))
  {
    if !a.ThreadRuns? {
      EnvKeepsWindow(s, a, v, w);
    } else if Clearing(s.pc) {
      ClearKeepsWindow(s, v, w);
    } else {
      OtherStepKeepsWindow(s, v, w);
    }
  }

  ghost predicate Windowed(s: State) {
    WindowAgrees(s.sh.flags, s.pc, s.reg, DigestOf(s.history), WindowOf(s.history))
  }

  lemma WindowRecorded(s: State, h: seq<Event>, log: seq<Event>)
    requires |log| <= 2
    requires WindowAgrees(s.sh.flags, s.pc, s.reg, DigestOf(h).AfterAll(log), WindowOf(h).AfterAll(log))
    ensures Windowed(s.(history := h + log))
  {
    DigestExtendAll(h, log);
    WindowExtendAll(h, log);
  }

  lemma StepWindowed(s: State, a: Action)
    requires Inv(s) && Windowed(s) && CanRun(s, a)
    ensures Windowed(Step(s, a))
  {
    MoveKeepsWindow(s, a, DigestOf(s.history), WindowOf(s.history));
    WindowRecorded(Move(s, a), s.history, MoveLog(s, a));
  }

  lemma {:induction false} RunWindowed(s: State, schedule: seq<Action>)
    requires Inv(s) && Windowed(s) && Legal(s, schedule)
    ensures Windowed(Exec(s, schedule))
    decreases |schedule|
  {
    if schedule != [] {
      var n := |schedule| - 1;
      RunWindowed(s, schedule[..n]);
      RunKeeps(s, schedule[..n]);
      StepWindowed(Exec(s, schedule[..n]), schedule[n]);
    }
  }

  /** Both flags in terms of the history. Before the clears they mean the whole history; between them a
      result that the first load saw is stored back, and one that came between that load and its store is
      lost; after them the trap is the only exception to what they mean in the cooperative design. */
  ghost predicate FlagsSay(f: Flags, pc: Pc, h: seq<Event>) {
    if BeforeClears(pc) then
      (f.connectResult <==> AnyResult(h)) && (f.connected <==> UpSinceB(h))
    else if BetweenClears(pc) then
      (f.connectResult <==> ResultAtLoad(h) || ResultSinceA(h)) && (f.connected <==> UpSinceA(h))
    else
      && (f.connectResult <==> if HitBetweenClears(h) then FreedSinceB(h) else ResultSinceB(h))
      && (f.connected <==> (HitBetweenClears(h) && StoredUndisturbed(h)) || UpSinceB(h))
  }

  predicate Determined(f: Flags, pc: Pc, v: Digest, w: Window) {
    if BeforeClears(pc) then f.connectResult == w.any && f.connected == v.upSinceB
    else if BetweenClears(pc) then f.connectResult == (w.atLoad || w.sinceA) && f.connected == v.upSinceA
    else
      && f.connectResult == (if v.hit then w.freed else v.resultSinceB)
      && f.connected == ((v.hit && v.undisturbed) || v.upSinceB)
  }

  lemma FlagsDetermined(f: Flags, pc: Pc, reg: Flags, v: Digest, w: Window)
    requires FlagsAgree(f, pc, reg, v) && WindowAgrees(f, pc, reg, v, w)
    ensures Determined(f, pc, v, w)
  {
  }

  lemma InitWindowed()
    ensures Windowed(INIT)
  {
  }

  lemma ReachedDetermined(s: State)
    requires Reached(s)
    ensures Determined(s.sh.flags, s.pc, DigestOf(s.history), WindowOf(s.history))
  {
    var schedule :| Legal(INIT, schedule) && Exec(INIT, schedule) == s;
    InitInv();
    InitWindowed();
    RunKeeps(INIT, schedule);
    RunWindowed(INIT, schedule);
    FlagsDetermined(s.sh.flags, s.pc, s.reg, DigestOf(s.history), WindowOf(s.history));
  }

  /** In every reachable state. */
  lemma FlagsExactly(s: State)
    requires Reached(s)
    ensures FlagsSay(s.sh.flags, s.pc, s.history)
  {
    ReachedDetermined(s);
    DigestMeans(s.history);
    WindowMeans(s.history);
  }
}
