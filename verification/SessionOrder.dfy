/** In what order a session resolves, logs in and posts; how many of each it makes; and which
    outages it notices. */
module SessionOrder {
  import opened Histories
  import opened TokenText
  import opened Fragments
  import opened HttpSession

  /** The trace since the last reset. */
  function Epoch(t: seq<Event>): seq<Event> {
    if t == [] then []
    else
      var n := |t| - 1;
      if t[n].Reset? then [] else Epoch(t[..n]) + [t[n]]
  }

  lemma EpochExtend(t: seq<Event>, e: Event)
    ensures Epoch(t + [e]) == if e.Reset? then [] else Epoch(t) + [e]
  {
    assert (t + [e])[..|t|] == t;
  }

  /** Nothing of the session has happened in `ep`. */
  predicate Unresolved(ep: seq<Event>) {
    forall k :: 0 <= k < |ep| ==> !ep[k].Resolved? && !ep[k].LoginTried? && !ep[k].PostTried?
  }

  /** Exactly one successful resolve, of `server`, and no login or post yet. */
  predicate ResolvedOnce(ep: seq<Event>, server: Address) {
    exists a :: 0 <= a < |ep| && ep[a] == Resolved(server) &&
      forall k :: 0 <= k < |ep| ==> (ep[k].Resolved? ==> k == a) && !ep[k].LoginTried? && !ep[k].PostTried?
  }

  /** Exactly one successful resolve, of `server`, then exactly one login attempt, leaving `token`;
      and no post before that login. */
  predicate LoggedInOnce(ep: seq<Event>, server: Address, token: string) {
    exists a, b :: 0 <= a < b < |ep| && ep[a] == Resolved(server) && ep[b] == LoginTried(token) &&
      forall k :: 0 <= k < |ep| ==>
        (ep[k].Resolved? ==> k == a) && (ep[k].LoginTried? ==> k == b) && (ep[k].PostTried? ==> k > b)
  }

  predicate IsSocketEvent(e: Event) { e.Opened? || e.Closed? }

  lemma UnresolvedGrows(ep: seq<Event>, e: Event)
    requires Unresolved(ep)
    ensures e.ResolveFailed? || IsSocketEvent(e) ==> Unresolved(ep + [e])
    ensures e.Resolved? ==> ResolvedOnce(ep + [e], e.address)
  {
    if e.Resolved? { assert (ep + [e])[|ep|] == Resolved(e.address); }
  }

  lemma ResolvedGrows(ep: seq<Event>, server: Address, e: Event)
    requires ResolvedOnce(ep, server)
    ensures IsSocketEvent(e) ==> ResolvedOnce(ep + [e], server)
    ensures e.LoginTried? ==> LoggedInOnce(ep + [e], server, e.token)
  {
    var a :| 0 <= a < |ep| && ep[a] == Resolved(server) &&
      forall k :: 0 <= k < |ep| ==> (ep[k].Resolved? ==> k == a) && !ep[k].LoginTried? && !ep[k].PostTried?;
    var g := ep + [e];
    assert g[a] == Resolved(server) && g[|ep|] == e;
  }

  lemma LoggedInGrows(ep: seq<Event>, server: Address, token: string, e: Event)
    requires LoggedInOnce(ep, server, token) && (IsSocketEvent(e) || e.PostTried?)
    ensures LoggedInOnce(ep + [e], server, token)
  {
    var a, b :| 0 <= a < b < |ep| && ep[a] == Resolved(server) && ep[b] == LoginTried(token) &&
      forall k :: 0 <= k < |ep| ==>
        (ep[k].Resolved? ==> k == a) && (ep[k].LoginTried? ==> k == b) && (ep[k].PostTried? ==> k > b);
    var g := ep + [e];
    assert g[a] == Resolved(server) && g[b] == LoginTried(token) && g[|ep|] == e;
  }

  /** Every post goes to the server resolved, with the token left by the login, of its own epoch. */
  predicate PostsOrdered(t: seq<Event>) {
    forall i :: 0 <= i < |t| && t[i].PostTried? ==> LoggedInOnce(Epoch(t[..i]), t[i].server, t[i].bearer)
  }

  lemma PostsOrderedExtend(t: seq<Event>, e: Event)
    requires PostsOrdered(t) && (e.PostTried? ==> LoggedInOnce(Epoch(t), e.server, e.bearer))
    ensures PostsOrdered(t + [e])
  {
    var g := t + [e];
    assert g[..|t|] == t && g[|t|] == e;
    assert forall i :: 0 <= i < |t| ==> g[i] == t[i] && g[..i] == t[..i];
  }

  predicate StateMeans(httpState: int, server: Address, token: string, ep: seq<Event>) {
    if httpState == 0 then Unresolved(ep)
    else if httpState == 1 then ResolvedOnce(ep, server)
    else httpState == 2 && LoggedInOnce(ep, server, token)
  }

  predicate Ordered(s: Session) {
    StateMeans(s.httpState, s.server, s.token, Epoch(s.trace)) && PostsOrdered(s.trace)
  }

  /** Socket events change nothing of this. */
  lemma SocketEventNeutral(httpState: int, server: Address, token: string, t: seq<Event>, e: Event)
    requires StateMeans(httpState, server, token, Epoch(t)) && PostsOrdered(t) && IsSocketEvent(e)
    ensures StateMeans(httpState, server, token, Epoch(t + [e])) && PostsOrdered(t + [e])
  {
    EpochExtend(t, e);
    PostsOrderedExtend(t, e);
    if httpState == 0 {
      UnresolvedGrows(Epoch(t), e);
    } else if httpState == 1 {
      ResolvedGrows(Epoch(t), server, e);
    } else {
      LoggedInGrows(Epoch(t), server, token, e);
    }
  }

  /** So a session that has only recorded a socket event is still ordered. */
  lemma LogOrdered(s: Session, s': Session, e: Event)
    requires Ordered(s) && IsSocketEvent(e) && s'.trace == s.trace + [e]
    requires s'.httpState == s.httpState && s'.server == s.server && s'.token == s.token
    ensures Ordered(s')
  {
    SocketEventNeutral(s.httpState, s.server, s.token, s.trace, e);
  }

  lemma ConnectedOrdered(s: Session, a: Attempt)
    requires Ordered(s)
    ensures Ordered(Connected(s, a))
  {
    if !a.NoSocket? { LogOrdered(s, Connected(s, a), Opened(a.fd)); }
  }

  /** The session just before a login attempt records that it was made. */
  function LoginEnd(s: Session, a: Attempt): Session {
    var c := Connected(s, a);
    if !a.Talks? then c else
      var r := c.(token := OnFragments(c.token, a.fragments));
      if r.sockFd > 0 then ClosedUp(r) else r
  }

  lemma LoginEndOrdered(s: Session, a: Attempt)
    requires Ordered(s) && s.httpState == 1
    ensures Ordered(LoginEnd(s, a)) && Login(s, a) == Log(LoginEnd(s, a), LoginTried(LoginEnd(s, a).token))
  {
    ConnectedOrdered(s, a);
    if a.Talks? && Connected(s, a).sockFd > 0 {
      var r := Connected(s, a).(token := OnFragments(s.token, a.fragments));
      LogOrdered(r, ClosedUp(r), Closed(r.sockFd));
    }
  }

  lemma LoginOrdered(s: Session, a: Attempt)
    requires Ordered(s) && s.httpState == 1
    ensures Ordered(Login(s, a).(httpState := 2))
  {
    var c := LoginEnd(s, a);
    var e := LoginTried(c.token);
    LoginEndOrdered(s, a);
    EpochExtend(c.trace, e);
    PostsOrderedExtend(c.trace, e);
    ResolvedGrows(Epoch(c.trace), s.server, e);
  }

  lemma PostOrdered(s: Session, a: Attempt)
    requires Ordered(s) && s.httpState == 2
    ensures Ordered(Post(s, a))
  {
    var e := PostTried(s.server, s.token);
    var p := Log(s, e);
    EpochExtend(s.trace, e);
    PostsOrderedExtend(s.trace, e);
    LoggedInGrows(Epoch(s.trace), s.server, s.token, e);
    ConnectedOrdered(p, a);
    if a.Talks? { LogOrdered(Connected(p, a), ClosedUp(Connected(p, a)), Closed(a.fd)); }
  }

  lemma StepOrdered(s: Session, tick: Tick)
    requires Ordered(s)
    ensures Ordered(Step(s, tick))
  {
    match tick
    case Outage =>
      EpochExtend(s.trace, Reset);
      PostsOrderedExtend(s.trace, Reset);
    case Online(resolve, login, post) =>
      if s.httpState == 0 {
        var e := if resolve.None? then ResolveFailed else Resolved(resolve.value);
        EpochExtend(s.trace, e);
        PostsOrderedExtend(s.trace, e);
        UnresolvedGrows(Epoch(s.trace), e);
      } else if s.httpState == 1 {
        LoginOrdered(s, login);
        PostOrdered(Login(s, login).(httpState := 2), post);
      } else {
        PostOrdered(s, post);
      }
  }

  /** In every run the state stays in {0, 1, 2}, and every post is preceded, since the last reset, by
      exactly one successful resolve and then exactly one login attempt; it goes to the address of
      that resolve with the token that this login left. */
  lemma {:induction false} PostsFollowLogin(ticks: seq<Tick>)
    ensures
      var s := Run(INIT, ticks);
      && 0 <= s.httpState <= 2
      && Ordered(s)
      && forall i :: 0 <= i < |s.trace| && s.trace[i].PostTried? ==>
           LoggedInOnce(Epoch(s.trace[..i]), s.trace[i].server, s.trace[i].bearer)
    decreases |ticks|
  {
    if ticks != [] {
      var n := |ticks| - 1;
      PostsFollowLogin(ticks[..n]);
      StepOrdered(Run(INIT, ticks[..n]), ticks[n]);
    }
  }

  // ----- progress -----------------------------------------------------------------------------------

  predicate IsPost(e: Event) { e.PostTried? }
  predicate IsLogin(e: Event) { e.LoginTried? }

  lemma SocketEventIsNeither(t: seq<Event>, e: Event)
    requires IsSocketEvent(e)
    ensures Count(t + [e], IsPost) == Count(t, IsPost) && Count(t + [e], IsLogin) == Count(t, IsLogin)
  {
    CountExtend(t, e, IsPost);
    CountExtend(t, e, IsLogin);
  }

  lemma LoginCounts(s: Session, a: Attempt)
    ensures Count(Login(s, a).trace, IsLogin) == Count(s.trace, IsLogin) + 1
    ensures Count(Login(s, a).trace, IsPost) == Count(s.trace, IsPost)
  {
    var c, d := Connected(s, a), LoginEnd(s, a);
    if !a.NoSocket? { SocketEventIsNeither(s.trace, Opened(a.fd)); }
    if d.trace != c.trace { SocketEventIsNeither(c.trace, Closed(c.sockFd)); }
    CountExtend(d.trace, LoginTried(d.token), IsLogin);
    CountExtend(d.trace, LoginTried(d.token), IsPost);
  }

  lemma PostCounts(s: Session, a: Attempt)
    ensures Count(Post(s, a).trace, IsLogin) == Count(s.trace, IsLogin)
    ensures Count(Post(s, a).trace, IsPost) == Count(s.trace, IsPost) + 1
  {
    var e := PostTried(s.server, s.token);
    var c := Connected(Log(s, e), a);
    CountExtend(s.trace, e, IsLogin);
    CountExtend(s.trace, e, IsPost);
    if !a.NoSocket? { SocketEventIsNeither(s.trace + [e], Opened(a.fd)); }
    if a.Talks? { SocketEventIsNeither(c.trace, Closed(c.sockFd)); }
  }

  lemma StepCounts(s: Session, tick: Tick)
    requires tick.Online? && 0 <= s.httpState <= 2
    ensures
      var s' := Step(s, tick);
      && s'.httpState == (if s.httpState == 0 then (if tick.resolve.None? then 0 else 1) else 2)
      && Count(s'.trace, IsPost) == Count(s.trace, IsPost) + (if s.httpState == 0 then 0 else 1)
      && Count(s'.trace, IsLogin) == Count(s.trace, IsLogin) + (if s.httpState == 1 then 1 else 0)
  {
    if s.httpState == 0 {
      var e := if tick.resolve.None? then ResolveFailed else Resolved(tick.resolve.value);
      CountExtend(s.trace, e, IsPost);
      CountExtend(s.trace, e, IsLogin);
    } else if s.httpState == 1 {
      LoginCounts(s, tick.login);
      PostCounts(Login(s, tick.login).(httpState := 2), tick.post);
    } else {
      PostCounts(s, tick.post);
    }
  }

  /** No outage is sampled, the first `f` resolves fail and the next one succeeds. */
  predicate Steady(ticks: seq<Tick>, f: nat) {
    forall i :: 0 <= i < |ticks| ==> ticks[i].Online? && (i <= f ==> (ticks[i].resolve.None? <==> i < f))
  }

  /** Where `n` such samples take a session that began as `s`. */
  ghost predicate Made(s: Session, s': Session, n: nat, f: nat) {
    var posts := if n <= f then 0 else n - f - 1;
    && s'.httpState == (if n <= f then 0 else if n == f + 1 then 1 else 2)
    && Count(s'.trace, IsPost) == Count(s.trace, IsPost) + posts
    && Count(s'.trace, IsLogin) == Count(s.trace, IsLogin) + (if posts > 0 then 1 else 0)
  }

  lemma MadeStep(s: Session, s1: Session, tick: Tick, n: nat, f: nat)
    requires Made(s, s1, n, f) && tick.Online? && (n <= f ==> (tick.resolve.None? <==> n < f))
    ensures Made(s, Step(s1, tick), n + 1, f)
  {
    StepCounts(s1, tick);
  }

  /** n samples with an address and f failing resolves make max(0, n - f - 1) post attempts and at most
      one login attempt. */
  lemma {:induction false} ProgressCount(s: Session, ticks: seq<Tick>, f: nat)
    requires s.httpState == 0 && Steady(ticks, f)
    ensures Made(s, Run(s, ticks), |ticks|, f)
    decreases |ticks|
  {
    if ticks != [] {
      var n := |ticks| - 1;
      ProgressCount(s, ticks[..n], f);
      MadeStep(s, Run(s, ticks[..n]), ticks[n], n, f);
    }
  }

  // ----- from the response to the posts ---------------------------------------------------------

  /** Every post recorded from position `from` on goes to `server` with the token `t`. */
  predicate PostsCarry(trace: seq<Event>, from: nat, server: Address, t: string) {
    forall i :: from <= i < |trace| && trace[i].PostTried? ==> trace[i] == PostTried(server, t)
  }

  lemma LogCarries(t: seq<Event>, from: nat, server: Address, token: string, e: Event)
    requires PostsCarry(t, from, server, token) && (e.PostTried? ==> e == PostTried(server, token))
    ensures PostsCarry(t + [e], from, server, token)
  {
  }

  lemma PostCarries(s: Session, a: Attempt, from: nat)
    requires PostsCarry(s.trace, from, s.server, s.token)
    ensures PostsCarry(Post(s, a).trace, from, s.server, s.token)
  {
    var p := Log(s, PostTried(s.server, s.token));
    LogCarries(s.trace, from, s.server, s.token, PostTried(s.server, s.token));
    if !a.NoSocket? { LogCarries(p.trace, from, s.server, s.token, Opened(a.fd)); }
    if a.Talks? { LogCarries(Connected(p, a).trace, from, s.server, s.token, Closed(a.fd)); }
  }

  lemma {:induction false} OnlineRunCarries(s: Session, ticks: seq<Tick>, from: nat)
    requires s.httpState == 2 && PostsCarry(s.trace, from, s.server, s.token)
    requires forall i :: 0 <= i < |ticks| ==> ticks[i].Online?
    ensures
      var s' := Run(s, ticks);
      && s'.httpState == 2 && s'.server == s.server && s'.token == s.token
      && PostsCarry(s'.trace, from, s.server, s.token)
    decreases |ticks|
  {
    if ticks != [] {
      var n := |ticks| - 1;
      OnlineRunCarries(s, ticks[..n], from);
      PostCarries(Run(s, ticks[..n]), ticks[n].post, from);
    }
  }

  /** End to end: if the login response has one marker, and one of its fragments holds it with the
      token and the closing quote, then every post from then on, until an outage is sampled, carries
      exactly that token, however often the posts themselves fail. */
  lemma TokenReachesPosts(s: Session, tick: Tick, later: seq<Tick>, k: nat, m: nat, t: string)
    requires s.httpState == 1 && tick.Online? && tick.login.Talks?
    requires forall i :: 0 <= i < |later| ==> later[i].Online?
    requires
      var fragments := tick.login.fragments;
      && NulFree(fragments) && TokenAt(Concat(fragments), m, t) && OnlyMarkerAt(Concat(fragments), m)
      && k < |fragments| && LiesIn(fragments, k, m, t)
    ensures PostsCarry(Run(Step(s, tick), later).trace, |s.trace|, s.server, t)
  {
    LoginGivesToken(s, tick.login, k, m, t);
    LoginPassCarries(s, tick);
    OnlineRunCarries(Step(s, tick), later, |s.trace|);
  }

  lemma LoginGivesToken(s: Session, a: Attempt, k: nat, m: nat, t: string)
    requires a.Talks? && NulFree(a.fragments)
    requires TokenAt(Concat(a.fragments), m, t) && OnlyMarkerAt(Concat(a.fragments), m)
    requires k < |a.fragments| && LiesIn(a.fragments, k, m, t)
    ensures Login(s, a).token == t
  {
    FragmentedExactly(s.token, a.fragments, m, t);
  }

  /** The pass that logs in posts with the token which that login left. */
  lemma LoginPassCarries(s: Session, tick: Tick)
    requires s.httpState == 1 && tick.Online?
    ensures
      var s', token := Step(s, tick), Login(s, tick.login).token;
      && s'.httpState == 2 && s'.server == s.server && s'.token == token
      && PostsCarry(s'.trace, |s.trace|, s.server, token)
  {
    LoginPostsNothing(s, tick.login);
    PostCarries(Login(s, tick.login).(httpState := 2), tick.post, |s.trace|);
  }

  lemma LoginPostsNothing(s: Session, a: Attempt)
    ensures PostsCarry(Login(s, a).trace, |s.trace|, Login(s, a).server, Login(s, a).token)
  {
    var c, d, from := Connected(s, a), LoginEnd(s, a), |s.trace|;
    if !a.NoSocket? { LogCarries(s.trace, from, d.server, d.token, Opened(a.fd)); }
    if d.trace != c.trace { LogCarries(c.trace, from, d.server, d.token, Closed(c.sockFd)); }
    LogCarries(d.trace, from, d.server, d.token, LoginTried(d.token));
  }

  // ----- sampling -----------------------------------------------------------------------------------

  const OUTAGE_SLEEP_MS: nat := 1000
  const LOOP_SLEEP_MS: nat := 10000

  /** What the network answers in one pass, and how long the calls take. */
  datatype Answers = Answers(resolve: Option<Address>, login: Attempt, post: Attempt, busyMs: nat)

  /** The times at which the loop tests `got_ip`, when it holds the values `gotIp` over time. */
  function SampleTimes(gotIp: nat -> bool, answers: seq<Answers>, now: nat): seq<nat> {
    if answers == [] then []
    else [now] + SampleTimes(gotIp, answers[1..], NextSample(gotIp, answers[0], now))
  }

  function NextSample(gotIp: nat -> bool, a: Answers, now: nat): nat {
    if gotIp(now) then now + a.busyMs + LOOP_SLEEP_MS else now + OUTAGE_SLEEP_MS
  }

  function Ticks(gotIp: nat -> bool, answers: seq<Answers>, now: nat): seq<Tick> {
    if answers == [] then []
    else
      [if gotIp(now) then Online(answers[0].resolve, answers[0].login, answers[0].post) else Outage]
      + Ticks(gotIp, answers[1..], NextSample(gotIp, answers[0], now))
  }

  /** A tick is a pass with the network's answers, unchanged, exactly if `up`. */
  predicate Decided(up: bool, a: Answers, tick: Tick) {
    if up then tick.Online? && tick.resolve == a.resolve && tick.login == a.login && tick.post == a.post
    else tick.Outage?
  }

  /** The sample after one that found no address is 1000 ms later, and after one that did 10000 ms after the
      end of its pass. */
  predicate Apart(up: bool, a: Answers, time: nat, next: nat) {
    if up then next == time + a.busyMs + 10000 else next == time + 1000
  }

  lemma {:induction false} SampleLengths(gotIp: nat -> bool, answers: seq<Answers>, now: nat)
    ensures |SampleTimes(gotIp, answers, now)| == |Ticks(gotIp, answers, now)| == |answers|
    ensures answers != [] ==> SampleTimes(gotIp, answers, now)[0] == now
    decreases |answers|
  {
    if answers != [] { SampleLengths(gotIp, answers[1..], NextSample(gotIp, answers[0], now)); }
  }

  /** Each sample decides its own tick by what `got_ip` is at that instant, and when the next one is. */
  lemma {:induction false} SamplesDecide(gotIp: nat -> bool, answers: seq<Answers>, now: nat, i: nat)
    requires i < |answers|
    ensures
      var times, ticks := SampleTimes(gotIp, answers, now), Ticks(gotIp, answers, now);
      && |times| == |ticks| == |answers| && times[0] == now
      && Decided(gotIp(times[i]), answers[i], ticks[i])
      && (i + 1 < |answers| ==> Apart(gotIp(times[i]), answers[i], times[i], times[i + 1]))
    decreases |answers|
  {
    var later, next := answers[1..], NextSample(gotIp, answers[0], now);
    SampleLengths(gotIp, answers, now);
    SampleLengths(gotIp, later, next);
    if i > 0 { SamplesDecide(gotIp, later, next, i - 1); }
  }

  /** Two courses of `got_ip` that agree at the sampled times give the same run: an outage that begins
      and ends between two samples leaves no trace. */
  lemma {:induction false} SamplingNonInterference(
    gotIp: nat -> bool, gotIp': nat -> bool, answers: seq<Answers>, now: nat, s: Session)
    requires forall t :: t in SampleTimes(gotIp, answers, now) ==> gotIp(t) == gotIp'(t)
    ensures SampleTimes(gotIp, answers, now) == SampleTimes(gotIp', answers, now)
    ensures Ticks(gotIp, answers, now) == Ticks(gotIp', answers, now)
    ensures Run(s, Ticks(gotIp, answers, now)) == Run(s, Ticks(gotIp', answers, now))
    decreases |answers|
  {
    if answers != [] {
      assert now in SampleTimes(gotIp, answers, now);
      SamplingNonInterference(gotIp, gotIp', answers[1..], NextSample(gotIp, answers[0], now), s);
    }
  }
}
