/**
 The HTTP session loop of src/http_app.c: resolve, log in, post, and the descriptors that the
 attempts open. What the network answers is given; one tick is one test of `got_ip`, followed, if
 it is set, by one pass through the switch.
 */
module HttpSession {
  import opened Histories
  import opened TokenText
  import opened Fragments

  type Address = nat
  type Errno = x: int | x > 0 witness 1

  /** How far one connection attempt gets. A socket descriptor is any natural number. */
  datatype Attempt =
    | NoSocket
    | TlsFails(fd: nat, errno: Errno)
    | ConnectFails(fd: nat, errno: Errno)
    | Talks(fd: nat, result: int, fragments: seq<string>)

  datatype Tick =
    | Outage
    | Online(resolve: Option<Address>, login: Attempt, post: Attempt)

  datatype Event =
    | Reset
    | ResolveFailed
    | Resolved(address: Address)
    | LoginTried(token: string)                   // with the token that it left
    | PostTried(server: Address, bearer: string)
    | Opened(fd: int)
    | Closed(fd: int)

  datatype Session = Session(
    httpState: int,
    sockFd: int,
    server: Address,
    token: string,
    open: set<int>,      // descriptors open in the system
    trace: seq<Event>)

  const INIT := Session(0, -1, 0, "", {}, [])

  // ----- one attempt --------------------------------------------------------------------------------

  function Log(s: Session, e: Event): Session { s.(trace := s.trace + [e]) }

  /** server_connect: whatever fails after `socket`, the descriptor stays in `sockFd`. */
  function Connected(s: Session, a: Attempt): Session {
    if a.NoSocket? then s.(sockFd := -1)
    else Log(s.(sockFd := a.fd, open := s.open + {a.fd}), Opened(a.fd))
  }

  function ClosedUp(s: Session): Session {
    Log(s.(open := s.open - {s.sockFd}, sockFd := -1), Closed(s.sockFd))
  }

  /** http_login: without a connection nothing is closed; with one, only a positive descriptor is. */
  function Login(s: Session, a: Attempt): Session {
    var c := Connected(s, a);
    if !a.Talks? then Log(c, LoginTried(c.token))
    else
      var r := c.(token := OnFragments(c.token, a.fragments));
      Log(if r.sockFd > 0 then ClosedUp(r) else r, LoginTried(r.token))
  }

  /** http_post_patient_data: without a connection nothing is closed. */
  function Post(s: Session, a: Attempt): Session {
    var c := Connected(Log(s, PostTried(s.server, s.token)), a);
    if a.Talks? then ClosedUp(c) else c
  }

  // ----- the loop -------------------------------------------------------------------------------------

  function Step(s: Session, tick: Tick): Session {
    match tick
    case Outage => s.(httpState := 0, trace := s.trace + [Reset])
    case Online(resolve, login, post) =>
      if s.httpState == 0 then
        match resolve
        case None => s.(trace := s.trace + [ResolveFailed])
        case Some(address) => s.(server := address, httpState := 1, trace := s.trace + [Resolved(address)])
      else if s.httpState == 1 then Post(Login(s, login).(httpState := 2), post)
      else if s.httpState == 2 then Post(s, post)
      else s
  }

  function Run(s: Session, ticks: seq<Tick>): Session {
    if ticks == [] then s else var n := |ticks| - 1; Step(Run(s, ticks[..n]), ticks[n])
  }

  /** The system has `pool` descriptors and never gives out one that is open. */
  predicate Feasible(pool: nat, open: set<int>, a: Attempt) {
    a.NoSocket? || (a.fd !in open && |open| < pool)
  }

  predicate FeasibleTick(pool: nat, s: Session, tick: Tick) {
    tick.Outage? ||
    (if s.httpState == 1 then
       Feasible(pool, s.open, tick.login) && Feasible(pool, Login(s, tick.login).open, tick.post)
     else s.httpState == 2 ==> Feasible(pool, s.open, tick.post))
  }

  predicate FeasibleRun(pool: nat, s: Session, ticks: seq<Tick>) {
    forall n :: 0 <= n < |ticks| ==> FeasibleTick(pool, Run(s, ticks[..n]), ticks[n])
  }

  lemma FeasiblePrefix(pool: nat, s: Session, ticks: seq<Tick>)
    requires FeasibleRun(pool, s, ticks) && ticks != []
    ensures
      var n := |ticks| - 1;
      FeasibleRun(pool, s, ticks[..n]) && FeasibleTick(pool, Run(s, ticks[..n]), ticks[n])
  {
    var n := |ticks| - 1;
    forall i | 0 <= i < n ensures FeasibleTick(pool, Run(s, ticks[..n][..i]), ticks[..n][i]) {
      assert ticks[..n][..i] == ticks[..i];
    }
  }

  lemma FeasibleExtend(pool: nat, s: Session, ticks: seq<Tick>, tick: Tick)
    requires FeasibleRun(pool, s, ticks) && FeasibleTick(pool, Run(s, ticks), tick)
    ensures FeasibleRun(pool, s, ticks + [tick]) && Run(s, ticks + [tick]) == Step(Run(s, ticks), tick)
  {
    var longer := ticks + [tick];
    assert longer[..|ticks|] == ticks;
    forall n | 0 <= n < |longer| ensures FeasibleTick(pool, Run(s, longer[..n]), longer[n]) {
      if n < |ticks| { assert longer[..n] == ticks[..n]; }
    }
  }

  // ----- the attempts that a run makes, and their outcomes --------------------------------------------

  datatype Try = LoginTry(attempt: Attempt) | PostTry(attempt: Attempt)

  function TickTries(s: Session, tick: Tick): seq<Try> {
    if tick.Outage? || s.httpState < 1 || s.httpState > 2 then []
    else if s.httpState == 1 then [LoginTry(tick.login), PostTry(tick.post)]
    else [PostTry(tick.post)]
  }

  function Tries(s: Session, ticks: seq<Tick>): seq<Try> {
    if ticks == [] then []
    else var n := |ticks| - 1; Tries(s, ticks[..n]) + TickTries(Run(s, ticks[..n]), ticks[n])
  }

  /** The outcomes that leave a socket behind: TLS setup or connect failed, or a login was given
      descriptor 0. */
  predicate Leaks(t: Try) {
    || t.attempt.TlsFails?
    || t.attempt.ConnectFails?
    || (t.LoginTry? && t.attempt.Talks? && t.attempt.fd == 0)
  }

  predicate LeakedFd(tries: seq<Try>, fd: int) {
    exists j :: 0 <= j < |tries| && Leaks(tries[j]) && tries[j].attempt.fd == fd
  }

  // ----- descriptors ------------------------------------------------------------------------------------

  function Opens(fd: int): Event -> bool { e => e == Opened(fd) }
  function Closes(fd: int): Event -> bool { e => e == Closed(fd) }
  predicate IsOpened(e: Event) { e.Opened? }
  predicate IsClosed(e: Event) { e.Closed? }

  /** `fd` was opened and has not been closed since. */
  ghost predicate Live(t: seq<Event>, fd: int) { Since(t, Opens(fd), Closes(fd)) }

  ghost predicate OpenIs(t: seq<Event>, open: set<int>) { forall fd :: fd in open <==> Live(t, fd) }

  /** Every close is of a descriptor that is open then: none is closed twice, and -1 never. */
  ghost predicate ClosesLive(t: seq<Event>) {
    forall i :: 0 <= i < |t| && t[i].Closed? ==> t[i].fd >= 0 && Live(t[..i], t[i].fd)
  }

  /** The system's set of open descriptors is what the trace says, and every opening but those was
      closed. */
  ghost predicate Books(t: seq<Event>, open: set<int>) {
    OpenIs(t, open) && ClosesLive(t) && Count(t, IsOpened) == Count(t, IsClosed) + |open|
  }

  function OpenAfter(open: set<int>, e: Event): set<int> {
    if e.Opened? then open + {e.fd} else if e.Closed? then open - {e.fd} else open
  }

  lemma OpenIsExtend(t: seq<Event>, open: set<int>, e: Event)
    requires OpenIs(t, open)
    ensures OpenIs(t + [e], OpenAfter(open, e))
  {
    forall fd
      ensures Live(t + [e], fd) <==> e == Opened(fd) || (Live(t, fd) && e != Closed(fd))
    {
      SinceExtend(t, e, Opens(fd), Closes(fd));
    }
  }

  lemma ClosesLiveExtend(t: seq<Event>, e: Event)
    requires ClosesLive(t) && (e.Closed? ==> e.fd >= 0 && Live(t, e.fd))
    ensures ClosesLive(t + [e])
  {
    var g := t + [e];
    assert g[..|t|] == t && g[|t|] == e;
    assert forall i :: 0 <= i < |t| ==> g[i] == t[i] && g[..i] == t[..i];
  }

  lemma BooksExtend(t: seq<Event>, open: set<int>, e: Event)
    requires Books(t, open)
    requires e.Opened? ==> e.fd !in open
    requires e.Closed? ==> e.fd >= 0 && e.fd in open
    ensures Books(t + [e], OpenAfter(open, e))
  {
    OpenIsExtend(t, open, e);
    ClosesLiveExtend(t, e);
    CountExtend(t, e, IsOpened);
    CountExtend(t, e, IsClosed);
  }

  predicate Fresh(open: set<int>, a: Attempt) { a.NoSocket? || a.fd !in open }

  lemma ConnectedBooks(s: Session, a: Attempt)
    requires Books(s.trace, s.open) && Fresh(s.open, a)
    ensures Books(Connected(s, a).trace, Connected(s, a).open)
  {
    if !a.NoSocket? { BooksExtend(s.trace, s.open, Opened(a.fd)); }
  }

  lemma ClosedUpBooks(s: Session)
    requires Books(s.trace, s.open) && s.sockFd >= 0 && s.sockFd in s.open
    ensures Books(ClosedUp(s).trace, ClosedUp(s).open)
  {
    BooksExtend(s.trace, s.open, Closed(s.sockFd));
  }

  lemma OpenThenClosed(open: set<int>, fd: int)
    requires fd !in open
    ensures open + {fd} - {fd} == open
  {
  }

  lemma LoginBooks(s: Session, a: Attempt)
    requires Books(s.trace, s.open) && Fresh(s.open, a)
    ensures Books(Login(s, a).trace, Login(s, a).open)
  {
    var c := Connected(s, a);
    ConnectedBooks(s, a);
    if !a.Talks? {
      BooksExtend(c.trace, c.open, LoginTried(c.token));
    } else {
      var r := c.(token := OnFragments(c.token, a.fragments));
      if r.sockFd > 0 {
        ClosedUpBooks(r);
        BooksExtend(ClosedUp(r).trace, ClosedUp(r).open, LoginTried(r.token));
      } else {
        BooksExtend(r.trace, r.open, LoginTried(r.token));
      }
    }
  }

  /** A login leaves one more socket open exactly if its outcome is a leaking one. */
  lemma LoginOpen(s: Session, a: Attempt)
    requires Fresh(s.open, a)
    ensures Login(s, a).open == if Leaks(LoginTry(a)) then s.open + {a.fd} else s.open
  {
    if !a.NoSocket? { OpenThenClosed(s.open, a.fd); }
  }

  lemma PostBooks(s: Session, a: Attempt)
    requires Books(s.trace, s.open) && Fresh(s.open, a)
    ensures Books(Post(s, a).trace, Post(s, a).open)
  {
    var p := Log(s, PostTried(s.server, s.token));
    BooksExtend(s.trace, s.open, PostTried(s.server, s.token));
    ConnectedBooks(p, a);
    if a.Talks? { ClosedUpBooks(Connected(p, a)); }
  }

  lemma PostOpen(s: Session, a: Attempt)
    requires Fresh(s.open, a)
    ensures Post(s, a).open == if Leaks(PostTry(a)) then s.open + {a.fd} else s.open
  {
    if !a.NoSocket? { OpenThenClosed(s.open, a.fd); }
  }

  /** What the attempts leave open is what their outcomes say. */
  ghost predicate Owed(open: set<int>, tries: seq<Try>) {
    && |open| == Count(tries, Leaks)
    && forall fd :: fd in open <==> LeakedFd(tries, fd)
  }

  lemma OwedExtend(open: set<int>, tries: seq<Try>, t: Try)
    requires Owed(open, tries) && Fresh(open, t.attempt)
    ensures Owed(if Leaks(t) then open + {t.attempt.fd} else open, tries + [t])
  {
    CountExtend(tries, t, Leaks);
    var g := tries + [t];
    assert g[|tries|] == t;
    forall fd ensures LeakedFd(g, fd) <==> LeakedFd(tries, fd) || (Leaks(t) && t.attempt.fd == fd) {
      if LeakedFd(tries, fd) {
        var j :| 0 <= j < |tries| && Leaks(tries[j]) && tries[j].attempt.fd == fd;
        assert g[j] == tries[j];
      }
      if Leaks(t) && t.attempt.fd == fd { assert Leaks(g[|tries|]); }
    }
  }

  ghost predicate Balanced(s: Session, tries: seq<Try>) { Books(s.trace, s.open) && Owed(s.open, tries) }

  lemma LoginBalanced(s: Session, a: Attempt, tries: seq<Try>)
    requires Balanced(s, tries) && Fresh(s.open, a)
    ensures Balanced(Login(s, a), tries + [LoginTry(a)])
  {
    LoginBooks(s, a);
    LoginOpen(s, a);
    OwedExtend(s.open, tries, LoginTry(a));
  }

  lemma PostBalanced(s: Session, a: Attempt, tries: seq<Try>)
    requires Balanced(s, tries) && Fresh(s.open, a)
    ensures Balanced(Post(s, a), tries + [PostTry(a)])
  {
    PostBooks(s, a);
    PostOpen(s, a);
    OwedExtend(s.open, tries, PostTry(a));
  }

  lemma OtherBalanced(s: Session, s': Session, e: Event, tries: seq<Try>)
    requires Balanced(s, tries) && !e.Opened? && !e.Closed?
    requires s'.trace == s.trace + [e] && s'.open == s.open
    ensures Balanced(s', tries)
  {
    BooksExtend(s.trace, s.open, e);
  }

  lemma StepBalanced(pool: nat, s: Session, tick: Tick, tries: seq<Try>)
    requires Balanced(s, tries) && FeasibleTick(pool, s, tick)
    ensures Balanced(Step(s, tick), tries + TickTries(s, tick))
  {
    assert tries + [] == tries;
    match tick
    case Outage => OtherBalanced(s, Step(s, tick), Reset, tries);
    case Online(resolve, login, post) =>
      if s.httpState == 0 {
        var e := if resolve.None? then ResolveFailed else Resolved(resolve.value);
        OtherBalanced(s, Step(s, tick), e, tries);
      } else if s.httpState == 1 {
        LoginBalanced(s, login, tries);
        PostBalanced(Login(s, login).(httpState := 2), post, tries + [LoginTry(login)]);
        assert tries + TickTries(s, tick) == tries + [LoginTry(login)] + [PostTry(post)];
      } else if s.httpState == 2 {
        PostBalanced(s, post, tries);
      }
  }

  lemma {:induction false} RunBalanced(pool: nat, ticks: seq<Tick>)
    requires FeasibleRun(pool, INIT, ticks)
    ensures Balanced(Run(INIT, ticks), Tries(INIT, ticks))
    decreases |ticks|
  {
    if ticks != [] {
      var n := |ticks| - 1;
      FeasiblePrefix(pool, INIT, ticks);
      RunBalanced(pool, ticks[..n]);
      StepBalanced(pool, Run(INIT, ticks[..n]), ticks[n], Tries(INIT, ticks[..n]));
    }
  }

  /** At every loop top of every run: the sockets opened and not closed are exactly those of the
      attempts whose outcome leaks, one each; and only open descriptors were ever closed. */
  lemma SocketConservation(pool: nat, ticks: seq<Tick>)
    requires FeasibleRun(pool, INIT, ticks)
    ensures
      var t, tries := Run(INIT, ticks).trace, Tries(INIT, ticks);
      && Count(t, IsOpened) == Count(t, IsClosed) + Count(tries, Leaks)
      && (forall fd :: Live(t, fd) <==> LeakedFd(tries, fd))
      && ClosesLive(t)
  {
    RunBalanced(pool, ticks);
  }

  // ----- leaks are for good ---------------------------------------------------------------------------

  lemma StepKeepsOpen(pool: nat, s: Session, tick: Tick)
    requires Books(s.trace, s.open) && FeasibleTick(pool, s, tick)
    ensures Books(Step(s, tick).trace, Step(s, tick).open) && s.open <= Step(s, tick).open
  {
    match tick
    case Outage => BooksExtend(s.trace, s.open, Reset);
    case Online(resolve, login, post) =>
      if s.httpState == 0 {
        BooksExtend(s.trace, s.open, if resolve.None? then ResolveFailed else Resolved(resolve.value));
      } else if s.httpState == 1 {
        LoginBooks(s, login);
        LoginOpen(s, login);
        PostBooks(Login(s, login).(httpState := 2), post);
        PostOpen(Login(s, login).(httpState := 2), post);
      } else if s.httpState == 2 {
        PostBooks(s, post);
        PostOpen(s, post);
      }
  }

  lemma {:induction false} RunKeepsOpen(pool: nat, s: Session, ticks: seq<Tick>)
    requires Books(s.trace, s.open) && FeasibleRun(pool, s, ticks)
    ensures Books(Run(s, ticks).trace, Run(s, ticks).open) && s.open <= Run(s, ticks).open
    decreases |ticks|
  {
    if ticks != [] {
      var n := |ticks| - 1;
      FeasiblePrefix(pool, s, ticks);
      RunKeepsOpen(pool, s, ticks[..n]);
      StepKeepsOpen(pool, Run(s, ticks[..n]), ticks[n]);
    }
  }

  /** A descriptor that is open at a loop top is open at every later one. */
  lemma LeakIsForGood(pool: nat, before: seq<Tick>, later: seq<Tick>, fd: int)
    requires FeasibleRun(pool, INIT, before) && FeasibleRun(pool, Run(INIT, before), later)
    requires Live(Run(INIT, before).trace, fd)
    ensures Live(Run(Run(INIT, before), later).trace, fd)
  {
    RunBalanced(pool, before);
    RunKeepsOpen(pool, Run(INIT, before), later);
  }

  // ----- the pool ---------------------------------------------------------------------------------------

  predicate AllNoSocket(tries: seq<Try>) { forall j :: 0 <= j < |tries| ==> tries[j].attempt.NoSocket? }

  lemma ExhaustedStep(pool: nat, s: Session, tick: Tick)
    requires FeasibleTick(pool, s, tick) && |s.open| >= pool
    ensures AllNoSocket(TickTries(s, tick)) && Step(s, tick).open == s.open
  {
  }

  lemma {:induction false} ExhaustedRun(pool: nat, s: Session, ticks: seq<Tick>)
    requires FeasibleRun(pool, s, ticks) && |s.open| >= pool
    ensures AllNoSocket(Tries(s, ticks)) && Run(s, ticks).open == s.open
    decreases |ticks|
  {
    if ticks != [] {
      FeasiblePrefix(pool, s, ticks);
      ExhaustedRun(pool, s, ticks[..|ticks| - 1]);
      ExhaustedStep(pool, Run(s, ticks[..|ticks| - 1]), ticks[|ticks| - 1]);
    }
  }

  /** Once as many attempts have leaked as the pool has descriptors, every later one fails at `socket`. */
  lemma PoolExhausted(pool: nat, before: seq<Tick>, later: seq<Tick>)
    requires FeasibleRun(pool, INIT, before) && FeasibleRun(pool, Run(INIT, before), later)
    requires Count(Tries(INIT, before), Leaks) >= pool
    ensures AllNoSocket(Tries(Run(INIT, before), later))
  {
    RunBalanced(pool, before);
    ExhaustedRun(pool, Run(INIT, before), later);
  }

  /** A connect failure on descriptor `k`. */
  function FailingPost(k: nat): Tick { Online(None, NoSocket, ConnectFails(k, 1)) }

  lemma FailingPostStep(pool: nat, s: Session, k: nat)
    requires s.httpState == 2 && k !in s.open && |s.open| < pool
    ensures FeasibleTick(pool, s, FailingPost(k))
    ensures Step(s, FailingPost(k)).httpState == 2 && Step(s, FailingPost(k)).open == s.open + {k}
  {
  }

  /** A run that is ready to post and has opened nothing. */
  lemma ReadyToPost(pool: nat) returns (ticks: seq<Tick>)
    ensures FeasibleRun(pool, INIT, ticks) && Run(INIT, ticks).httpState == 2 && Run(INIT, ticks).open == {}
  {
    var resolves, passes := Online(Some(0), NoSocket, NoSocket), Online(None, NoSocket, NoSocket);
    FeasibleExtend(pool, INIT, [], resolves);
    FeasibleExtend(pool, INIT, [] + [resolves], passes);
    ticks := [] + [resolves] + [passes];
  }

  lemma {:induction false} FillPool(pool: nat, k: nat) returns (ticks: seq<Tick>)
    requires k <= pool
    ensures FeasibleRun(pool, INIT, ticks)
    ensures Run(INIT, ticks).httpState == 2 && |Run(INIT, ticks).open| == k
    ensures forall fd :: fd in Run(INIT, ticks).open ==> 3 <= fd < k + 3
  {
    if k == 0 {
      ticks := ReadyToPost(pool);
    } else {
      ticks := FillPool(pool, k - 1);
      FailingPostStep(pool, Run(INIT, ticks), k + 2);
      FeasibleExtend(pool, INIT, ticks, FailingPost(k + 2));
      ticks := ticks + [FailingPost(k + 2)];
    }
  }

  /** A pool of any size can be used up, by connect failures on ordinary descriptors alone. */
  lemma PoolCanBeExhausted(pool: nat) returns (ticks: seq<Tick>)
    ensures FeasibleRun(pool, INIT, ticks) && Count(Tries(INIT, ticks), Leaks) == pool
  {
    ticks := FillPool(pool, pool);
    RunBalanced(pool, ticks);
  }
}
