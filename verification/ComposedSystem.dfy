/**
 The whole firmware: the station and the HTTP session as one system, in both thread designs. The
 session samples the `got_ip` that the station's handlers write; between its test and its pass, and
 between any two of its steps, the station's actors may run.
 */
module ComposedSystem {
  import opened Histories
  import opened JointHistory
  import opened TokenText
  import St = Station
  import Hs = HttpSession
  import Order = SessionOrder
  import Co = CooperativeThread
  import Pre = PreemptiveThread

  datatype Act =
    | StationActs(a: St.Action)
    | HttpTests
    | HttpServes(tick: Hs.Tick)

  // ----- src/app.c: the HTTP loop has a thread of its own ------------------------------------------

  datatype CoSystem = CoSystem(station: Co.State, http: Http, joint: seq<Joint>)

  const CO_INIT := CoSystem(Co.INIT, IDLE, [])

  predicate CoEnabled(c: CoSystem, act: Act) {
    match act
    case StationActs(a) => St.Enabled(c.station.sh, a)
    case HttpTests => !c.http.serving
    case HttpServes(tick) => c.http.serving && tick.Online?
  }

  /** What a station step has added to its history. */
  function News(before: seq<St.Event>, after: seq<St.Event>): seq<St.Event> {
    if |before| <= |after| then after[|before|..] else []
  }

  function CoStep(c: CoSystem, act: Act): CoSystem
    requires CoEnabled(c, act)
  {
    match act
    case StationActs(a) =>
      var s := Co.Step(c.station, a);
      c.(station := s, joint := AddStation(c.joint, News(c.station.history, s.history)))
    case HttpTests =>
      c.(http := Test(c.http, c.station.sh.gotIp), joint := TestLog(c.joint, c.station.sh.gotIp))
    case HttpServes(tick) => c.(http := Serve(c.http, tick), joint := ServeLog(c.joint, c.http, tick))
  }

  predicate CoNext(c: CoSystem, act: Act, c': CoSystem) { CoEnabled(c, act) && c' == CoStep(c, act) }

  /** The states that a sequence of actions passes through. */
  ghost predicate CoRun(states: seq<CoSystem>, acts: seq<Act>) {
    && |states| == |acts| + 1 && states[0] == CO_INIT
    && forall i :: 0 <= i < |acts| ==> CoNext(states[i], acts[i], states[i + 1])
  }

  ghost predicate CoKept(c: CoSystem) {
    Co.Reached(c.station) && StationOf(c.joint) == c.station.history && HttpKept(c.http, c.joint)
  }

  lemma StationStepKept(c: CoSystem, a: St.Action)
    requires CoKept(c) && St.Enabled(c.station.sh, a)
    ensures CoKept(CoStep(c, StationActs(a)))
  {
    var s := Co.Step(c.station, a);
    Co.ReachedOn(c.station, a);
    Co.StepGrows(c.station, a);
    var es := News(c.station.history, s.history);
    assert c.station.history + es == s.history;
    AddStationProjects(c.joint, es);
    StationKeepsHttp(c.http, c.joint, es);
  }

  lemma CoStepKept(c: CoSystem, act: Act)
    requires CoKept(c) && CoEnabled(c, act)
    ensures CoKept(CoStep(c, act))
  {
    match act
    case StationActs(a) => StationStepKept(c, a);
    case HttpTests =>
      Co.AddressRefinesHistory(c.station);
      TestKeepsHttp(c.http, c.joint, c.station.sh.gotIp);
    case HttpServes(tick) => ServeKeepsHttp(c.http, c.joint, tick);
  }

  lemma {:induction false} CoRunKept(states: seq<CoSystem>, acts: seq<Act>, n: nat)
    requires CoRun(states, acts) && n < |states|
    ensures CoKept(states[n])
  {
    if n == 0 {
      Co.InitReached();
      IdleKept();
    } else {
      CoRunKept(states, acts, n - 1);
      assert CoNext(states[n - 1], acts[n - 1], states[n - 1 + 1]);
      CoStepKept(states[n - 1], acts[n - 1]);
    }
  }

  /** In every run of the whole system: each test of `got_ip` finds exactly whether the station holds an
      address, each reset follows a test that found none, and everything else of the session, each post in
      particular, belongs to a pass whose test found one; the session is a run of the ticks that the
      samples dictate, in its own order. */
  lemma PostsOnlyWithAddress(states: seq<CoSystem>, acts: seq<Act>, n: nat)
    requires CoRun(states, acts) && n < |states|
    ensures Sound(states[n].joint) && Driven(states[n].http, Samples(states[n].joint))
    ensures StationOf(states[n].joint) == states[n].station.history
    ensures SessionOf(states[n].joint) == states[n].http.session.trace
    ensures Order.PostsOrdered(SessionOf(states[n].joint))
  {
    CoRunKept(states, acts, n);
  }

  ghost predicate CoReached(c: CoSystem) {
    exists states, acts :: CoRun(states, acts) && states[|acts|] == c
  }

  lemma CoInitReached()
    ensures CoReached(CO_INIT)
  {
    var acts: seq<Act> := [];
    assert CoRun([CO_INIT], acts) && [CO_INIT][|acts|] == CO_INIT;
  }

  lemma CoReachedOn(c: CoSystem, act: Act)
    requires CoReached(c) && CoEnabled(c, act)
    ensures CoReached(CoStep(c, act))
  {
    var states, acts :| CoRun(states, acts) && states[|acts|] == c;
    var longer, more := states + [CoStep(c, act)], acts + [act];
    forall i | 0 <= i < |more| ensures CoNext(longer[i], more[i], longer[i + 1]) {
      if i < |acts| { assert CoNext(states[i], acts[i], states[i + 1]); }
    }
    assert CoRun(longer, more) && longer[|more|] == CoStep(c, act);
  }

  /** The handlers can give or take the address between any two passes. */
  predicate Quiet(sh: St.Shared) { !sh.inDisconnect && !sh.flags.connected }

  lemma CoSetAddress(c: CoSystem, up: bool) returns (c': CoSystem)
    requires CoReached(c) && Quiet(c.station.sh)
    ensures CoReached(c') && Quiet(c'.station.sh) && c'.station.sh.gotIp == up && c'.http == c.http
  {
    var act := StationActs(if up then St.DhcpBoundArrives else St.DisconnectArrives(0));
    CoReachedOn(c, act);
    c' := CoStep(c, act);
  }

  lemma CoTick(c: CoSystem, tick: Hs.Tick) returns (c': CoSystem)
    requires CoReached(c) && Quiet(c.station.sh) && !c.http.serving
    ensures CoReached(c') && Quiet(c'.station.sh) && c'.http == Http(false, Hs.Step(c.http.session, tick))
  {
    c' := CoSetAddress(c, tick.Online?);
    CoReachedOn(c', HttpTests);
    c' := CoStep(c', HttpTests);
    if tick.Online? {
      CoReachedOn(c', HttpServes(tick));
      c' := CoStep(c', HttpServes(tick));
    }
  }

  /** And the other way round: every run of the session is the session's part of a run of the system. */
  lemma {:induction false} EverySessionOccurs(ticks: seq<Hs.Tick>) returns (c: CoSystem)
    ensures CoReached(c) && Quiet(c.station.sh) && c.http == Http(false, Hs.Run(Hs.INIT, ticks))
    decreases |ticks|
  {
    if ticks == [] {
      CoInitReached();
      c := CO_INIT;
    } else {
      var n := |ticks| - 1;
      c := EverySessionOccurs(ticks[..n]);
      c := CoTick(c, ticks[n]);
    }
  }

  /** A test is no guarantee: a disconnect between the test and the post leaves a post without an address. */
  lemma PostWithoutAddress() returns (c: CoSystem)
    ensures CoReached(c) && !St.AddressHeld(StationOf(c.joint))
    ensures c.joint != [] && c.joint[|c.joint| - 1].OfSession? && c.joint[|c.joint| - 1].session.PostTried?
  {
    c := PassBegins();
    var act := StationActs(St.DisconnectArrives(0));
    CoReachedOn(c, act);
    c := CoStep(c, act);
    CoReachedKept(c);
    Co.AddressRefinesHistory(c.station);
    var s, pass := c.http.session, Hs.Online(None, Hs.NoSocket, Hs.NoSocket);
    CoReachedOn(c, HttpServes(pass));
    var e := Hs.PostTried(s.server, s.token);
    assert Hs.Step(s, pass).trace[|s.trace|..] == [e];
    AddSessionOne(c.joint, e);
    c := CoStep(c, HttpServes(pass));
  }

  lemma AddSessionOne(j: seq<Joint>, e: Hs.Event)
    ensures AddSession(j, [e]) == j + [OfSession(e)] && StationOf(j + [OfSession(e)]) == StationOf(j)
  {
    assert [e][..0] == [];
    ProjectExtend(j, OfSession(e));
  }

  /** A pass begins that will post. */
  lemma PassBegins() returns (c: CoSystem)
    ensures CoReached(c) && Quiet(c.station.sh) && c.http.serving && c.http.session.httpState == 2
  {
    var pass := Hs.Online(Some(0), Hs.NoSocket, Hs.NoSocket);
    var ticks := [pass, pass];
    assert ticks[..1] == [pass] && [pass][..0] == [];
    assert Hs.Run(Hs.INIT, [pass]) == Hs.Step(Hs.Run(Hs.INIT, []), pass);
    c := EverySessionOccurs(ticks);
    c := CoSetAddress(c, true);
    CoReachedOn(c, HttpTests);
    c := CoStep(c, HttpTests);
  }

  lemma CoReachedKept(c: CoSystem)
    requires CoReached(c)
    ensures CoKept(c)
  {
    var states, acts :| CoRun(states, acts) && states[|acts|] == c;
    CoRunKept(states, acts, |acts|);
  }

  // ----- src/wifi/wifi_sta.c: the HTTP loop runs inside the Wi-Fi thread ---------------------------

  datatype PreSystem = PreSystem(station: Pre.State, http: Http, joint: seq<Joint>)

  const PRE_INIT := PreSystem(Pre.INIT, IDLE, [])

  predicate PreEnabled(c: PreSystem, act: Act) {
    match act
    case StationActs(a) => Pre.CanRun(c.station, a) && (a.ThreadRuns? ==> !c.station.pc.HttpLoop?)
    case HttpTests => c.station.pc.HttpLoop? && !c.http.serving
    case HttpServes(tick) => c.station.pc.HttpLoop? && c.http.serving && tick.Online?
  }

  function PreStep(c: PreSystem, act: Act): PreSystem
    requires PreEnabled(c, act)
  {
    match act
    case StationActs(a) =>
      c.(station := Pre.Step(c.station, a), joint := AddStation(c.joint, Pre.MoveLog(c.station, a)))
    case HttpTests =>
      c.(http := Test(c.http, c.station.sh.gotIp), joint := TestLog(c.joint, c.station.sh.gotIp))
    case HttpServes(tick) => c.(http := Serve(c.http, tick), joint := ServeLog(c.joint, c.http, tick))
  }

  predicate PreNext(c: PreSystem, act: Act, c': PreSystem) { PreEnabled(c, act) && c' == PreStep(c, act) }

  ghost predicate PreRun(states: seq<PreSystem>, acts: seq<Act>) {
    && |states| == |acts| + 1 && states[0] == PRE_INIT
    && forall i :: 0 <= i < |acts| ==> PreNext(states[i], acts[i], states[i + 1])
  }

  /** The thread has left the poll loop with a link. */
  predicate Connected(pc: Pre.Pc) { pc.Report? || pc.CallHttp? || pc.HttpLoop? }

  /** The poll loop was left with a link. */
  predicate LeftConnected(j: seq<Joint>) { OfStation(St.PollLeft(true)) in j }

  /** So was it before every test of `got_ip` and everything of the session. */
  ghost predicate HttpAfterLink(j: seq<Joint>) {
    forall i :: 0 <= i < |j| && !j[i].OfStation? ==> LeftConnected(j[..i])
  }

  ghost predicate PreKept(c: PreSystem) {
    && Pre.Reached(c.station) && StationOf(c.joint) == c.station.history && HttpKept(c.http, c.joint)
    && (Connected(c.station.pc) ==> LeftConnected(c.joint))
    && HttpAfterLink(c.joint)
  }

  lemma HttpAfterLinkExtend(j: seq<Joint>, e: Joint)
    requires HttpAfterLink(j) && (!e.OfStation? ==> LeftConnected(j))
    ensures HttpAfterLink(j + [e]) && (LeftConnected(j) ==> LeftConnected(j + [e]))
  {
    var g := j + [e];
    assert g[|j|] == e && g[..|j|] == j;
    assert forall i :: 0 <= i < |j| ==> g[i] == j[i] && g[..i] == j[..i];
  }

  lemma {:induction false} StationAfterLink(j: seq<Joint>, es: seq<St.Event>)
    requires HttpAfterLink(j)
    ensures HttpAfterLink(AddStation(j, es)) && (LeftConnected(j) ==> LeftConnected(AddStation(j, es)))
    ensures St.PollLeft(true) in es ==> LeftConnected(AddStation(j, es))
    decreases |es|
  {
    if es != [] {
      var n := |es| - 1;
      StationAfterLink(j, es[..n]);
      HttpAfterLinkExtend(AddStation(j, es[..n]), OfStation(es[n]));
      assert es == es[..n] + [es[n]];
      assert AddStation(j, es)[|AddStation(j, es[..n])|] == OfStation(es[n]);
    }
  }

  lemma {:induction false} SessionAfterLink(j: seq<Joint>, es: seq<Hs.Event>)
    requires HttpAfterLink(j) && LeftConnected(j)
    ensures HttpAfterLink(AddSession(j, es)) && LeftConnected(AddSession(j, es))
    decreases |es|
  {
    if es != [] {
      var n := |es| - 1;
      SessionAfterLink(j, es[..n]);
      HttpAfterLinkExtend(AddSession(j, es[..n]), OfSession(es[n]));
    }
  }

  /** Only a poll loop left with a link leads to the HTTP loop. */
  lemma LinkBeforeHttp(s: Pre.State, a: St.Action)
    requires Pre.CanRun(s, a)
    ensures
      var s' := Pre.Step(s, a);
      Connected(s'.pc) ==> Connected(s.pc) || St.PollLeft(true) in Pre.MoveLog(s, a)
  {
  }

  lemma PreStationStepKept(c: PreSystem, a: St.Action)
    requires PreKept(c) && PreEnabled(c, StationActs(a))
    ensures PreKept(PreStep(c, StationActs(a)))
  {
    var es := Pre.MoveLog(c.station, a);
    Pre.ReachedOn(c.station, a);
    AddStationProjects(c.joint, es);
    StationKeepsHttp(c.http, c.joint, es);
    StationAfterLink(c.joint, es);
    LinkBeforeHttp(c.station, a);
  }

  lemma PreTestKept(c: PreSystem)
    requires PreKept(c) && PreEnabled(c, HttpTests)
    ensures PreKept(PreStep(c, HttpTests))
  {
    var up := c.station.sh.gotIp;
    Pre.AddressRefinesHistory(c.station);
    TestKeepsHttp(c.http, c.joint, up);
    HttpAfterLinkExtend(c.joint, Sampled(up));
    if !up { HttpAfterLinkExtend(c.joint + [Sampled(up)], OfSession(Hs.Reset)); }
  }

  lemma PreServeKept(c: PreSystem, tick: Hs.Tick)
    requires PreKept(c) && PreEnabled(c, HttpServes(tick))
    ensures PreKept(PreStep(c, HttpServes(tick)))
  {
    var before, after := c.http.session.trace, Hs.Step(c.http.session, tick).trace;
    ServeKeepsHttp(c.http, c.joint, tick);
    PassGrows(c.http.session, tick);
    SessionAfterLink(c.joint, after[|before|..]);
  }

  lemma {:induction false} PreRunKept(states: seq<PreSystem>, acts: seq<Act>, n: nat)
    requires PreRun(states, acts) && n < |states|
    ensures PreKept(states[n])
  {
    if n == 0 {
      Pre.InitReached();
      IdleKept();
    } else {
      PreRunKept(states, acts, n - 1);
      assert PreNext(states[n - 1], acts[n - 1], states[n - 1 + 1]);
      match acts[n - 1]
      case StationActs(a) => PreStationStepKept(states[n - 1], a);
      case HttpTests => PreTestKept(states[n - 1]);
      case HttpServes(tick) => PreServeKept(states[n - 1], tick);
    }
  }

  /** The same in every run of the preemptible design, and everything that the HTTP loop does comes after
      the one poll loop was left with a link. */
  lemma PostsOnlyAfterLink(states: seq<PreSystem>, acts: seq<Act>, n: nat)
    requires PreRun(states, acts) && n < |states|
    ensures Sound(states[n].joint) && Driven(states[n].http, Samples(states[n].joint))
    ensures HttpAfterLink(states[n].joint)
    ensures StationOf(states[n].joint) == states[n].station.history
    ensures SessionOf(states[n].joint) == states[n].http.session.trace
    ensures Order.PostsOrdered(SessionOf(states[n].joint))
  {
    PreRunKept(states, acts, n);
  }

  /** The HTTP loop has no exit: from then on the thread's only steps are the session's, in every
      continuation of every run. */
  lemma {:induction false} HttpLoopIsForGood(states: seq<PreSystem>, acts: seq<Act>, i: nat, n: nat)
    requires PreRun(states, acts) && i <= n < |states| && states[i].station.pc.HttpLoop?
    ensures states[n].station.pc.HttpLoop?
    decreases n
  {
    if i < n {
      HttpLoopIsForGood(states, acts, i, n - 1);
      assert PreNext(states[n - 1], acts[n - 1], states[n - 1 + 1]);
    }
  }

  ghost predicate PreReached(c: PreSystem) {
    exists states, acts :: PreRun(states, acts) && states[|acts|] == c
  }

  lemma PreReachedOn(c: PreSystem, act: Act)
    requires PreReached(c) && PreEnabled(c, act)
    ensures PreReached(PreStep(c, act))
  {
    var states, acts :| PreRun(states, acts) && states[|acts|] == c;
    var longer, more := states + [PreStep(c, act)], acts + [act];
    forall i | 0 <= i < |more| ensures PreNext(longer[i], more[i], longer[i + 1]) {
      if i < |acts| { assert PreNext(states[i], acts[i], states[i + 1]); }
    }
    assert PreRun(longer, more) && longer[|more|] == PreStep(c, act);
  }

  lemma PreInitReached()
    ensures PreReached(PRE_INIT)
  {
    var acts: seq<Act> := [];
    assert PreRun([PRE_INIT], acts) && [PRE_INIT][|acts|] == PRE_INIT;
  }

  lemma HttpLoopIdles(s: Pre.State)
    requires Pre.CanRun(s, St.ThreadRuns) && s.pc.HttpLoop?
    ensures Pre.Step(s, St.ThreadRuns) == s
  {
    assert s.history + [] == s.history;
  }

  lemma EmbedStep(c: PreSystem, a: St.Action) returns (c': PreSystem)
    requires PreReached(c) && Pre.CanRun(c.station, a)
    ensures PreReached(c') && c'.station == Pre.Step(c.station, a) && c'.http == c.http
  {
    if a.ThreadRuns? && c.station.pc.HttpLoop? {
      HttpLoopIdles(c.station);
      c' := c;
    } else {
      PreReachedOn(c, StationActs(a));
      c' := PreStep(c, StationActs(a));
    }
  }

  /** Every run of the station alone is one of the whole system in which the session has not begun. */
  lemma {:induction false} StationEmbeds(schedule: seq<St.Action>) returns (c: PreSystem)
    requires Pre.Legal(Pre.INIT, schedule)
    ensures PreReached(c) && c.station == Pre.Exec(Pre.INIT, schedule) && c.http == IDLE
    decreases |schedule|
  {
    if schedule == [] {
      PreInitReached();
      c := PRE_INIT;
    } else {
      var n := |schedule| - 1;
      c := StationEmbeds(schedule[..n]);
      c := EmbedStep(c, schedule[n]);
    }
  }

  lemma PreSetAddress(c: PreSystem, up: bool) returns (c': PreSystem)
    requires PreReached(c) && Quiet(c.station.sh) && c.station.pc.HttpLoop?
    ensures PreReached(c') && Quiet(c'.station.sh) && c'.station.pc.HttpLoop?
    ensures c'.station.sh.gotIp == up && c'.http == c.http
  {
    var act := StationActs(if up then St.DhcpBoundArrives else St.DisconnectArrives(0));
    PreReachedOn(c, act);
    c' := PreStep(c, act);
  }

  lemma PreTick(c: PreSystem, tick: Hs.Tick) returns (c': PreSystem)
    requires PreReached(c) && Quiet(c.station.sh) && c.station.pc.HttpLoop? && !c.http.serving
    ensures PreReached(c') && Quiet(c'.station.sh) && c'.station.pc.HttpLoop?
    ensures c'.http == Http(false, Hs.Step(c.http.session, tick))
  {
    c' := PreSetAddress(c, tick.Online?);
    PreReachedOn(c', HttpTests);
    c' := PreStep(c', HttpTests);
    if tick.Online? {
      PreReachedOn(c', HttpServes(tick));
      c' := PreStep(c', HttpServes(tick));
    }
  }

  lemma LoopReached() returns (c: PreSystem)
    ensures PreReached(c) && Quiet(c.station.sh) && c.station.pc.HttpLoop? && c.http == IDLE
  {
    var s := Pre.QuietLoopReachable();
    var schedule :| Pre.Legal(Pre.INIT, schedule) && Pre.Exec(Pre.INIT, schedule) == s;
    c := StationEmbeds(schedule);
  }

  /** Every run of the session occurs in the preemptible design too. */
  lemma {:induction false} EverySessionOccursHere(ticks: seq<Hs.Tick>) returns (c: PreSystem)
    ensures PreReached(c) && Quiet(c.station.sh) && c.station.pc.HttpLoop?
    ensures c.http == Http(false, Hs.Run(Hs.INIT, ticks))
    decreases |ticks|
  {
    if ticks == [] {
      c := LoopReached();
    } else {
      var n := |ticks| - 1;
      c := EverySessionOccursHere(ticks[..n]);
      c := PreTick(c, ticks[n]);
    }
  }

  /** So posts occur: two passes make one. */
  lemma PostHappens() returns (c: CoSystem, c': PreSystem)
    ensures CoReached(c) && PreReached(c') && c.http == c'.http
    ensures exists i :: 0 <= i < |c.http.session.trace| && c.http.session.trace[i].PostTried?
  {
    var pass := Hs.Online(Some(0), Hs.NoSocket, Hs.NoSocket);
    var s1, s2 := Hs.Run(Hs.INIT, [pass]), Hs.Run(Hs.INIT, [pass, pass]);
    assert [pass, pass][..1] == [pass] && [pass][..0] == [];
    assert s2 == Hs.Step(s1, pass) && s1 == Hs.Step(Hs.Run(Hs.INIT, []), pass);
    assert s2.trace == s1.trace + [Hs.LoginTried("")] + [Hs.PostTried(0, "")];
    assert s2.trace[|s1.trace| + 1].PostTried?;
    c := EverySessionOccurs([pass, pass]);
    c' := EverySessionOccursHere([pass, pass]);
  }
}
