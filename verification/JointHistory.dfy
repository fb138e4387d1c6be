/** The Wi-Fi station and the HTTP session in one history, and what the HTTP thread adds to it. */
module JointHistory {
  import opened Histories
  import St = Station
  import Hs = HttpSession
  import Order = SessionOrder

  /** One entry of the common history: an event of the station, a test of `got_ip`, or an event of the
      session. */
  datatype Joint = OfStation(station: St.Event) | Sampled(value: bool) | OfSession(session: Hs.Event)

  /** The HTTP thread: `serving` between a test that found an address and the end of the pass. */
  datatype Http = Http(serving: bool, session: Hs.Session)

  const IDLE := Http(false, Hs.INIT)

  // ----- projections -----------------------------------------------------------------------------

  function StationOf(j: seq<Joint>): seq<St.Event> {
    if j == [] then []
    else var n := |j| - 1; StationOf(j[..n]) + if j[n].OfStation? then [j[n].station] else []
  }

  function SessionOf(j: seq<Joint>): seq<Hs.Event> {
    if j == [] then []
    else var n := |j| - 1; SessionOf(j[..n]) + if j[n].OfSession? then [j[n].session] else []
  }

  lemma ProjectExtend(j: seq<Joint>, e: Joint)
    ensures StationOf(j + [e]) == StationOf(j) + if e.OfStation? then [e.station] else []
    ensures SessionOf(j + [e]) == SessionOf(j) + if e.OfSession? then [e.session] else []
  {
    assert (j + [e])[..|j|] == j;
  }

  /** Entries that come from `es`, one by one. */
  function AddStation(j: seq<Joint>, es: seq<St.Event>): seq<Joint> {
    if es == [] then j else var n := |es| - 1; AddStation(j, es[..n]) + [OfStation(es[n])]
  }

  function AddSession(j: seq<Joint>, es: seq<Hs.Event>): seq<Joint> {
    if es == [] then j else var n := |es| - 1; AddSession(j, es[..n]) + [OfSession(es[n])]
  }

  lemma {:induction false} AddStationProjects(j: seq<Joint>, es: seq<St.Event>)
    ensures StationOf(AddStation(j, es)) == StationOf(j) + es && SessionOf(AddStation(j, es)) == SessionOf(j)
    decreases |es|
  {
    if es == [] {
      assert StationOf(j) + es == StationOf(j);
    } else {
      var n := |es| - 1;
      AddStationProjects(j, es[..n]);
      ProjectExtend(AddStation(j, es[..n]), OfStation(es[n]));
      assert es == es[..n] + [es[n]];
    }
  }

  lemma {:induction false} AddSessionProjects(j: seq<Joint>, es: seq<Hs.Event>)
    ensures StationOf(AddSession(j, es)) == StationOf(j) && SessionOf(AddSession(j, es)) == SessionOf(j) + es
    decreases |es|
  {
    if es == [] {
      assert SessionOf(j) + es == SessionOf(j);
    } else {
      var n := |es| - 1;
      AddSessionProjects(j, es[..n]);
      ProjectExtend(AddSession(j, es[..n]), OfSession(es[n]));
      assert es == es[..n] + [es[n]];
    }
  }

  // ----- what each entry rests on ------------------------------------------------------------------

  /** The latest test of `got_ip` came out true, while the station's history said that an address was held. */
  ghost predicate SampledUp(j: seq<Joint>) {
    exists k :: 0 <= k < |j| && j[k] == Sampled(true) && St.AddressHeld(StationOf(j[..k]))
                && forall i :: k < i < |j| ==> !j[i].Sampled?
  }

  /** A test of `got_ip` finds exactly whether an address is held; a reset comes directly after a test that
      found none; everything else of the session belongs to a pass whose test found one. */
  ghost predicate RestsOn(past: seq<Joint>, e: Joint) {
    match e
    case OfStation(_) => true
    case Sampled(value) => value <==> St.AddressHeld(StationOf(past))
    case OfSession(event) =>
      if event.Reset? then past != [] && past[|past| - 1] == Sampled(false) else SampledUp(past)
  }

  ghost predicate Sound(j: seq<Joint>) { forall i :: 0 <= i < |j| ==> RestsOn(j[..i], j[i]) }

  lemma SampledUpExtend(j: seq<Joint>, e: Joint)
    ensures SampledUp(j) && !e.Sampled? ==> SampledUp(j + [e])
    ensures e == Sampled(true) && St.AddressHeld(StationOf(j)) ==> SampledUp(j + [e])
  {
    var g := j + [e];
    assert g[|j|] == e && g[..|j|] == j;
    if SampledUp(j) && !e.Sampled? {
      var k :| 0 <= k < |j| && j[k] == Sampled(true) && St.AddressHeld(StationOf(j[..k]))
               && forall i :: k < i < |j| ==> !j[i].Sampled?;
      assert g[k] == Sampled(true) && g[..k] == j[..k];
    }
  }

  lemma SoundExtend(j: seq<Joint>, e: Joint)
    requires Sound(j) && RestsOn(j, e)
    ensures Sound(j + [e])
  {
    var g := j + [e];
    assert g[|j|] == e && g[..|j|] == j;
    assert forall i :: 0 <= i < |j| ==> g[i] == j[i] && g[..i] == j[..i];
  }

  lemma {:induction false} AddStationSound(j: seq<Joint>, es: seq<St.Event>)
    requires Sound(j)
    ensures Sound(AddStation(j, es)) && (SampledUp(j) ==> SampledUp(AddStation(j, es)))
    decreases |es|
  {
    if es != [] {
      var n := |es| - 1;
      AddStationSound(j, es[..n]);
      SoundExtend(AddStation(j, es[..n]), OfStation(es[n]));
      SampledUpExtend(AddStation(j, es[..n]), OfStation(es[n]));
    }
  }

  lemma {:induction false} AddSessionSound(j: seq<Joint>, es: seq<Hs.Event>)
    requires Sound(j) && SampledUp(j) && Hs.Reset !in es
    ensures Sound(AddSession(j, es)) && SampledUp(AddSession(j, es))
    decreases |es|
  {
    if es != [] {
      var n := |es| - 1;
      AddSessionSound(j, es[..n]);
      SoundExtend(AddSession(j, es[..n]), OfSession(es[n]));
      SampledUpExtend(AddSession(j, es[..n]), OfSession(es[n]));
    }
  }

  // ----- the samples ---------------------------------------------------------------------------------

  /** What the tests of `got_ip` found, in order. */
  function Samples(j: seq<Joint>): seq<bool> {
    if j == [] then []
    else var n := |j| - 1; Samples(j[..n]) + if j[n].Sampled? then [j[n].value] else []
  }

  lemma SamplesExtend(j: seq<Joint>, e: Joint)
    ensures Samples(j + [e]) == Samples(j) + if e.Sampled? then [e.value] else []
  {
    assert (j + [e])[..|j|] == j;
  }

  lemma {:induction false} AddStationSamples(j: seq<Joint>, es: seq<St.Event>)
    ensures Samples(AddStation(j, es)) == Samples(j)
    decreases |es|
  {
    if es != [] {
      AddStationSamples(j, es[..|es| - 1]);
      SamplesExtend(AddStation(j, es[..|es| - 1]), OfStation(es[|es| - 1]));
    }
  }

  lemma {:induction false} AddSessionSamples(j: seq<Joint>, es: seq<Hs.Event>)
    ensures Samples(AddSession(j, es)) == Samples(j)
    decreases |es|
  {
    if es != [] {
      AddSessionSamples(j, es[..|es| - 1]);
      SamplesExtend(AddSession(j, es[..|es| - 1]), OfSession(es[|es| - 1]));
    }
  }

  /** The session is the run of `ticks`, one tick for each sample: an outage for each false one, a pass for
      each true one, except that the pass of the latest may still be to come. */
  ghost predicate RunsOn(http: Http, samples: seq<bool>, ticks: seq<Hs.Tick>) {
    && http.session == Hs.Run(Hs.INIT, ticks)
    && |samples| == |ticks| + (if http.serving then 1 else 0)
    && (forall k :: 0 <= k < |ticks| ==> (ticks[k].Online? <==> samples[k]))
    && (http.serving ==> samples[|ticks|])
  }

  ghost predicate Driven(http: Http, samples: seq<bool>) { exists ticks :: RunsOn(http, samples, ticks) }

  lemma RunExtend(ticks: seq<Hs.Tick>, tick: Hs.Tick)
    ensures Hs.Run(Hs.INIT, ticks + [tick]) == Hs.Step(Hs.Run(Hs.INIT, ticks), tick)
  {
    assert (ticks + [tick])[..|ticks|] == ticks;
  }

  lemma TestDriven(http: Http, samples: seq<bool>, gotIp: bool)
    requires Driven(http, samples) && !http.serving
    ensures Driven(Test(http, gotIp), samples + [gotIp])
  {
    var ticks :| RunsOn(http, samples, ticks);
    if gotIp {
      assert RunsOn(Test(http, gotIp), samples + [gotIp], ticks);
    } else {
      RunExtend(ticks, Hs.Outage);
      assert RunsOn(Test(http, gotIp), samples + [gotIp], ticks + [Hs.Outage]);
    }
  }

  lemma ServeDriven(http: Http, samples: seq<bool>, tick: Hs.Tick)
    requires Driven(http, samples) && http.serving && tick.Online?
    ensures Driven(Serve(http, tick), samples)
  {
    var ticks :| RunsOn(http, samples, ticks);
    RunExtend(ticks, tick);
    assert RunsOn(Serve(http, tick), samples, ticks + [tick]);
  }

  /** An address held is either the outcome of the latest of all binds and disconnects, or a disconnect
      handler has begun and not yet taken it away. */
  lemma HeldMeans(h: seq<St.Event>)
    requires St.AddressHeld(h)
    ensures St.BoundLast(h) || St.Handling(h)
  {
    var i :| 0 <= i < |h| && St.IsBound(h[i]) && forall j :: i < j < |h| ==> !St.IsAddressLost(h[j]);
    if !St.BoundLast(h) {
      var d :| i < d < |h| && St.IsDisconnected(h[d]);
      assert forall j :: d < j < |h| ==> !St.IsAddressLost(h[j]);
    }
  }

  // ----- the HTTP thread's steps ------------------------------------------------------------------

  /** The test of `got_ip`: with an address the pass begins, without one the session is reset. */
  function Test(http: Http, gotIp: bool): Http {
    if gotIp then http.(serving := true) else http.(session := Hs.Step(http.session, Hs.Outage))
  }

  function TestLog(j: seq<Joint>, gotIp: bool): seq<Joint> {
    if gotIp then j + [Sampled(true)] else j + [Sampled(false)] + [OfSession(Hs.Reset)]
  }

  /** One pass through the switch, with the answers of the network. */
  function Serve(http: Http, tick: Hs.Tick): Http { Http(false, Hs.Step(http.session, tick)) }

  function ServeLog(j: seq<Joint>, http: Http, tick: Hs.Tick): seq<Joint> {
    var after := Hs.Step(http.session, tick).trace;
    if |http.session.trace| <= |after| then AddSession(j, after[|http.session.trace|..]) else j
  }

  /** What the HTTP thread keeps, whatever the station does in between. */
  ghost predicate HttpKept(http: Http, j: seq<Joint>) {
    && SessionOf(j) == http.session.trace
    && Order.Ordered(http.session)
    && Sound(j)
    && (http.serving ==> SampledUp(j))
    && Driven(http, Samples(j))
  }

  lemma IdleKept()
    ensures HttpKept(IDLE, [])
  {
    assert RunsOn(IDLE, [], []);
  }

  lemma StationKeepsHttp(http: Http, j: seq<Joint>, es: seq<St.Event>)
    requires HttpKept(http, j)
    ensures HttpKept(http, AddStation(j, es))
  {
    AddStationProjects(j, es);
    AddStationSound(j, es);
    AddStationSamples(j, es);
  }

  lemma TestProjects(j: seq<Joint>, gotIp: bool)
    ensures
      var j' := TestLog(j, gotIp);
      && StationOf(j') == StationOf(j) && Samples(j') == Samples(j) + [gotIp]
      && SessionOf(j') == SessionOf(j) + if gotIp then [] else [Hs.Reset]
  {
    ProjectExtend(j, Sampled(gotIp));
    SamplesExtend(j, Sampled(gotIp));
    if !gotIp {
      ProjectExtend(j + [Sampled(gotIp)], OfSession(Hs.Reset));
      SamplesExtend(j + [Sampled(gotIp)], OfSession(Hs.Reset));
    }
  }

  lemma TestSound(j: seq<Joint>, gotIp: bool)
    requires Sound(j) && (gotIp <==> St.AddressHeld(StationOf(j)))
    ensures Sound(TestLog(j, gotIp)) && (gotIp ==> SampledUp(TestLog(j, gotIp)))
  {
    SoundExtend(j, Sampled(gotIp));
    SampledUpExtend(j, Sampled(gotIp));
    if !gotIp { SoundExtend(j + [Sampled(gotIp)], OfSession(Hs.Reset)); }
  }

  lemma TestKeepsHttp(http: Http, j: seq<Joint>, gotIp: bool)
    requires HttpKept(http, j) && !http.serving && (gotIp <==> St.AddressHeld(StationOf(j)))
    ensures HttpKept(Test(http, gotIp), TestLog(j, gotIp)) && StationOf(TestLog(j, gotIp)) == StationOf(j)
  {
    TestProjects(j, gotIp);
    TestSound(j, gotIp);
    TestDriven(http, Samples(j), gotIp);
    if !gotIp { Order.StepOrdered(http.session, Hs.Outage); }
  }

  // ----- a pass adds no reset ----------------------------------------------------------------------

  /** `t'` is `t` with more after it, and no reset in that. */
  predicate Grows(t: seq<Hs.Event>, t': seq<Hs.Event>) { t <= t' && Hs.Reset !in t'[|t|..] }

  lemma GrowsBy(t: seq<Hs.Event>, t': seq<Hs.Event>, e: Hs.Event)
    requires Grows(t, t') && e != Hs.Reset
    ensures Grows(t, t' + [e])
  {
    assert (t' + [e])[|t|..] == t'[|t|..] + [e];
  }

  lemma ConnectedGrows(t: seq<Hs.Event>, s: Hs.Session, a: Hs.Attempt)
    requires Grows(t, s.trace)
    ensures Grows(t, Hs.Connected(s, a).trace)
  {
    if !a.NoSocket? { GrowsBy(t, s.trace, Hs.Opened(a.fd)); }
  }

  lemma LoginGrows(t: seq<Hs.Event>, s: Hs.Session, a: Hs.Attempt)
    requires Grows(t, s.trace)
    ensures Grows(t, Hs.Login(s, a).trace)
  {
    var c, d := Hs.Connected(s, a), Order.LoginEnd(s, a);
    ConnectedGrows(t, s, a);
    if d.trace != c.trace { GrowsBy(t, c.trace, Hs.Closed(c.sockFd)); }
    GrowsBy(t, d.trace, Hs.LoginTried(d.token));
  }

  lemma PostGrows(t: seq<Hs.Event>, s: Hs.Session, a: Hs.Attempt)
    requires Grows(t, s.trace)
    ensures Grows(t, Hs.Post(s, a).trace)
  {
    var e := Hs.PostTried(s.server, s.token);
    var c := Hs.Connected(Hs.Log(s, e), a);
    GrowsBy(t, s.trace, e);
    ConnectedGrows(t, Hs.Log(s, e), a);
    if a.Talks? { GrowsBy(t, c.trace, Hs.Closed(c.sockFd)); }
  }

  lemma PassGrows(s: Hs.Session, tick: Hs.Tick)
    requires tick.Online?
    ensures Grows(s.trace, Hs.Step(s, tick).trace)
  {
    assert Grows(s.trace, s.trace);
    if s.httpState == 0 {
      GrowsBy(s.trace, s.trace, if tick.resolve.None? then Hs.ResolveFailed else Hs.Resolved(tick.resolve.value));
    } else if s.httpState == 1 {
      LoginGrows(s.trace, s, tick.login);
      PostGrows(s.trace, Hs.Login(s, tick.login).(httpState := 2), tick.post);
    } else if s.httpState == 2 {
      PostGrows(s.trace, s, tick.post);
    }
  }

  lemma ServeKeepsHttp(http: Http, j: seq<Joint>, tick: Hs.Tick)
    requires HttpKept(http, j) && http.serving && tick.Online?
    ensures HttpKept(Serve(http, tick), ServeLog(j, http, tick))
    ensures StationOf(ServeLog(j, http, tick)) == StationOf(j)
  {
    PassGrows(http.session, tick);
    Order.StepOrdered(http.session, tick);
    ServeDriven(http, Samples(j), tick);
    SessionKeepsHttp(http, Hs.Step(http.session, tick), j);
  }

  lemma SessionKeepsHttp(http: Http, after: Hs.Session, j: seq<Joint>)
    requires HttpKept(http, j) && http.serving && Order.Ordered(after) && Grows(http.session.trace, after.trace)
    requires Driven(Http(false, after), Samples(j))
    ensures
      var j' := AddSession(j, after.trace[|http.session.trace|..]);
      HttpKept(Http(false, after), j') && StationOf(j') == StationOf(j)
  {
    SessionProjects(http.session.trace, after.trace, j);
    AddSessionSound(j, after.trace[|http.session.trace|..]);
  }

  lemma SessionProjects(before: seq<Hs.Event>, after: seq<Hs.Event>, j: seq<Joint>)
    requires SessionOf(j) == before && before <= after
    ensures
      var j' := AddSession(j, after[|before|..]);
      SessionOf(j') == after && StationOf(j') == StationOf(j) && Samples(j') == Samples(j)
  {
    var es := after[|before|..];
    assert before + es == after;
    AddSessionProjects(j, es);
    AddSessionSamples(j, es);
  }
}
