/** What a session keeps from tick to tick, in terms of the attempts that it made: the token, the server,
    the descriptor; and what it told the server in each attempt. */
module SessionMemory {
  import opened Histories
  import opened TokenText
  import opened Fragments
  import opened HttpSession

  /** What the response callback got to see: the fragments of all logins that had a response, in order. */
  function Heard(tries: seq<Try>): seq<string> {
    if tries == [] then []
    else
      var n := |tries| - 1;
      Heard(tries[..n]) + HeardFrom(tries[n])
  }

  /** The token that those leave, from the empty one. */
  function TokenOf(tries: seq<Try>): string { OnFragments("", Heard(tries)) }

  /** An attempt as the trace tells it, with the token that the session has then. */
  datatype Told = ToldLogin(token: string) | ToldPost(bearer: string)

  function ToldIn(t: seq<Event>): seq<Told> {
    if t == [] then []
    else
      var n := |t| - 1;
      ToldIn(t[..n]) + (if t[n].LoginTried? then [ToldLogin(t[n].token)]
                        else if t[n].PostTried? then [ToldPost(t[n].bearer)] else [])
  }

  /** The same from the attempts: a login is told with the token it left, a post with the one it carried. */
  function ToldBy(tries: seq<Try>): seq<Told> {
    if tries == [] then []
    else
      var n := |tries| - 1;
      ToldBy(tries[..n]) + [if tries[n].LoginTry? then ToldLogin(TokenOf(tries)) else ToldPost(TokenOf(tries[..n]))]
  }

  /** The address resolved last, or 0. */
  function AddressOf(t: seq<Event>): Address {
    if t == [] then 0 else var n := |t| - 1; if t[n].Resolved? then t[n].address else AddressOf(t[..n])
  }

  /** The descriptor that the latest attempt left behind, or -1. */
  function DescriptorOf(tries: seq<Try>): int {
    if tries == [] then -1
    else var t := tries[|tries| - 1]; if Leaks(t) then t.attempt.fd else -1
  }

  predicate GotSocket(t: Try) { !t.attempt.NoSocket? }

  // ----- how each changes ----------------------------------------------------------------------------

  lemma {:induction false} OnFragmentsConcat(token: string, a: seq<string>, b: seq<string>)
    ensures OnFragments(token, a + b) == OnFragments(OnFragments(token, a), b)
    decreases |b|
  {
    if b == [] {
      assert a + b == a;
    } else {
      var n := |b| - 1;
      OnFragmentsConcat(token, a, b[..n]);
      assert (a + b)[..|a + b| - 1] == a + b[..n];
    }
  }

  function HeardFrom(t: Try): seq<string> {
    if t.LoginTry? && t.attempt.Talks? then t.attempt.fragments else []
  }

  lemma HeardExtend(tries: seq<Try>, t: Try)
    ensures Heard(tries + [t]) == Heard(tries) + HeardFrom(t)
  {
    assert (tries + [t])[..|tries|] == tries;
  }

  lemma TokenExtend(tries: seq<Try>, t: Try)
    ensures TokenOf(tries + [t]) ==
            if t.LoginTry? && t.attempt.Talks? then OnFragments(TokenOf(tries), t.attempt.fragments)
            else TokenOf(tries)
  {
    assert (tries + [t])[..|tries|] == tries;
    if t.LoginTry? && t.attempt.Talks? {
      OnFragmentsConcat("", Heard(tries), t.attempt.fragments);
    } else {
      assert Heard(tries) + [] == Heard(tries);
    }
  }

  lemma ToldByExtend(tries: seq<Try>, t: Try)
    ensures ToldBy(tries + [t]) ==
            ToldBy(tries) + [if t.LoginTry? then ToldLogin(TokenOf(tries + [t])) else ToldPost(TokenOf(tries))]
  {
    assert (tries + [t])[..|tries|] == tries;
  }

  /** What recording one event changes. */
  lemma Recorded(t: seq<Event>, e: Event)
    ensures ToldIn(t + [e]) == ToldIn(t) + (if e.LoginTried? then [ToldLogin(e.token)]
                                            else if e.PostTried? then [ToldPost(e.bearer)] else [])
    ensures AddressOf(t + [e]) == if e.Resolved? then e.address else AddressOf(t)
    ensures Count(t + [e], IsOpened) == Count(t, IsOpened) + (if e.Opened? then 1 else 0)
  {
    assert (t + [e])[..|t|] == t;
    CountExtend(t, e, IsOpened);
  }

  // ----- what every step keeps -----------------------------------------------------------------------

  /** The trace tells `told`, names `server` last and has `sockets` openings. */
  ghost predicate Tells(t: seq<Event>, told: seq<Told>, server: Address, sockets: nat) {
    ToldIn(t) == told && AddressOf(t) == server && Count(t, IsOpened) == sockets
  }

  ghost predicate Remembers(s: Session, tries: seq<Try>) {
    && s.token == TokenOf(tries)
    && s.sockFd == DescriptorOf(tries)
    && Tells(s.trace, ToldBy(tries), s.server, Count(tries, GotSocket))
  }

  lemma ConnectedTells(s: Session, a: Attempt, told: seq<Told>, sockets: nat)
    requires Tells(s.trace, told, s.server, sockets)
    ensures Tells(Connected(s, a).trace, told, s.server, sockets + (if a.NoSocket? then 0 else 1))
  {
    if !a.NoSocket? { Recorded(s.trace, Opened(a.fd)); }
  }

  lemma LoginTells(s: Session, a: Attempt, told: seq<Told>, sockets: nat)
    requires Tells(s.trace, told, s.server, sockets)
    ensures
      var s' := Login(s, a);
      Tells(s'.trace, told + [ToldLogin(s'.token)], s.server, sockets + (if a.NoSocket? then 0 else 1))
  {
    var c := Connected(s, a);
    ConnectedTells(s, a, told, sockets);
    if a.Talks? && c.sockFd > 0 {
      Recorded(c.trace, Closed(c.sockFd));
      Recorded(c.trace + [Closed(c.sockFd)], LoginTried(Login(s, a).token));
    } else {
      Recorded(c.trace, LoginTried(Login(s, a).token));
    }
  }

  lemma PostTells(s: Session, a: Attempt, told: seq<Told>, sockets: nat)
    requires Tells(s.trace, told, s.server, sockets)
    ensures Tells(Post(s, a).trace, told + [ToldPost(s.token)], s.server, sockets + (if a.NoSocket? then 0 else 1))
  {
    var e := PostTried(s.server, s.token);
    Recorded(s.trace, e);
    ConnectedTells(Log(s, e), a, told + [ToldPost(s.token)], sockets);
    if a.Talks? { Recorded(Connected(Log(s, e), a).trace, Closed(a.fd)); }
  }

  lemma DescriptorExtend(tries: seq<Try>, t: Try)
    ensures DescriptorOf(tries + [t]) == if Leaks(t) then t.attempt.fd else -1
  {
  }

  lemma LoginLeaves(s: Session, a: Attempt)
    ensures Login(s, a).token == (if a.Talks? then OnFragments(s.token, a.fragments) else s.token)
    ensures Login(s, a).sockFd == (if Leaks(LoginTry(a)) then a.fd else -1) && Login(s, a).server == s.server
  {
  }

  lemma PostLeaves(s: Session, a: Attempt)
    ensures Post(s, a).token == s.token && Post(s, a).server == s.server
    ensures Post(s, a).sockFd == if Leaks(PostTry(a)) then a.fd else -1
  {
  }

  lemma LoginRemembers(s: Session, a: Attempt, tries: seq<Try>)
    requires Remembers(s, tries)
    ensures Remembers(Login(s, a), tries + [LoginTry(a)])
  {
    LoginTells(s, a, ToldBy(tries), Count(tries, GotSocket));
    LoginLeaves(s, a);
    TokenExtend(tries, LoginTry(a));
    DescriptorExtend(tries, LoginTry(a));
    ToldByExtend(tries, LoginTry(a));
    CountExtend(tries, LoginTry(a), GotSocket);
  }

  lemma PostRemembers(s: Session, a: Attempt, tries: seq<Try>)
    requires Remembers(s, tries)
    ensures Remembers(Post(s, a), tries + [PostTry(a)])
  {
    PostTells(s, a, ToldBy(tries), Count(tries, GotSocket));
    PostLeaves(s, a);
    DescriptorExtend(tries, PostTry(a));
    TokenExtend(tries, PostTry(a));
    ToldByExtend(tries, PostTry(a));
    CountExtend(tries, PostTry(a), GotSocket);
  }

  /** An event that belongs to no attempt. */
  lemma OtherRemembers(s: Session, s': Session, e: Event, tries: seq<Try>)
    requires Remembers(s, tries) && !e.Opened? && !e.LoginTried? && !e.PostTried?
    requires s'.trace == s.trace + [e] && s'.token == s.token && s'.sockFd == s.sockFd
    requires s'.server == if e.Resolved? then e.address else s.server
    ensures Remembers(s', tries)
  {
    Recorded(s.trace, e);
  }

  lemma StateForgotten(s: Session, httpState: int, tries: seq<Try>)
    requires Remembers(s, tries)
    ensures Remembers(s.(httpState := httpState), tries)
  {
  }

  lemma PassRemembers(s: Session, login: Attempt, post: Attempt, tries: seq<Try>)
    requires Remembers(s, tries)
    ensures Remembers(Post(Login(s, login).(httpState := 2), post), tries + [LoginTry(login)] + [PostTry(post)])
  {
    LoginRemembers(s, login, tries);
    StateForgotten(Login(s, login), 2, tries + [LoginTry(login)]);
    PostRemembers(Login(s, login).(httpState := 2), post, tries + [LoginTry(login)]);
  }

  /** The attempts of a tick that makes none, one or two. */
  lemma TickCases(s: Session, tick: Tick, tries: seq<Try>)
    ensures tick.Online? && s.httpState == 1 ==>
      && Step(s, tick) == Post(Login(s, tick.login).(httpState := 2), tick.post)
      && tries + TickTries(s, tick) == tries + [LoginTry(tick.login)] + [PostTry(tick.post)]
    ensures tick.Online? && s.httpState == 2 ==>
      Step(s, tick) == Post(s, tick.post) && tries + TickTries(s, tick) == tries + [PostTry(tick.post)]
    ensures tick.Outage? || s.httpState < 1 || s.httpState > 2 ==> tries + TickTries(s, tick) == tries
  {
  }

  lemma QuietRemembers(s: Session, tick: Tick, tries: seq<Try>)
    requires Remembers(s, tries) && (tick.Outage? || s.httpState < 1 || s.httpState > 2)
    ensures Remembers(Step(s, tick), tries)
  {
    if tick.Outage? {
      OtherRemembers(s, Step(s, tick), Reset, tries);
    } else if s.httpState == 0 {
      var e := if tick.resolve.None? then ResolveFailed else Resolved(tick.resolve.value);
      OtherRemembers(s, Step(s, tick), e, tries);
    }
  }

  lemma StepRemembers(s: Session, tick: Tick, tries: seq<Try>)
    requires Remembers(s, tries)
    ensures Remembers(Step(s, tick), tries + TickTries(s, tick))
  {
    TickCases(s, tick, tries);
    if tick.Outage? || s.httpState < 1 || s.httpState > 2 {
      QuietRemembers(s, tick, tries);
    } else if s.httpState == 1 {
      PassRemembers(s, tick.login, tick.post, tries);
    } else {
      PostRemembers(s, tick.post, tries);
    }
  }

  // ----- main results --------------------------------------------------------------------------------

  /** In every run: the token is what the fragments of all logins leave; the server is the one resolved
      last; the descriptor is what the latest attempt left behind; the trace tells each attempt, in order,
      with the token of that moment; and each attempt that got a socket opened one. */
  lemma {:induction false} MemoryOfRun(ticks: seq<Tick>)
    ensures
      var s, tries := Run(INIT, ticks), Tries(INIT, ticks);
      && s.token == OnFragments("", Heard(tries))
      && s.server == AddressOf(s.trace)
      && s.sockFd == DescriptorOf(tries)
      && ToldIn(s.trace) == ToldBy(tries)
      && Count(s.trace, IsOpened) == Count(tries, GotSocket)
    decreases |ticks|
  {
    RunRemembers(ticks);
  }

  lemma {:induction false} RunRemembers(ticks: seq<Tick>)
    ensures Remembers(Run(INIT, ticks), Tries(INIT, ticks))
    decreases |ticks|
  {
    if ticks != [] {
      var n := |ticks| - 1;
      RunRemembers(ticks[..n]);
      StepRemembers(Run(INIT, ticks[..n]), ticks[n], Tries(INIT, ticks[..n]));
    }
  }

  /** What one tick lets the callback see. */
  function TickHeard(s: Session, tick: Tick): seq<string> {
    if tick.Online? && s.httpState == 1 then HeardFrom(LoginTry(tick.login)) else []
  }

  lemma TickToken(s: Session, tick: Tick)
    ensures Step(s, tick).token == OnFragments(s.token, TickHeard(s, tick))
  {
  }

  lemma HeardTick(s: Session, tick: Tick, tries: seq<Try>)
    ensures Heard(tries + TickTries(s, tick)) == Heard(tries) + TickHeard(s, tick)
  {
    if tick.Online? && s.httpState == 1 {
      HeardExtend(tries, LoginTry(tick.login));
      HeardExtend(tries + [LoginTry(tick.login)], PostTry(tick.post));
      assert tries + TickTries(s, tick) == tries + [LoginTry(tick.login)] + [PostTry(tick.post)];
    } else if tick.Online? && s.httpState == 2 {
      HeardExtend(tries, PostTry(tick.post));
    } else {
      assert tries + [] == tries;
    }
  }

  /** The same for the token from any state of a session. */
  lemma {:induction false} TokenOfRun(s: Session, ticks: seq<Tick>)
    ensures Run(s, ticks).token == OnFragments(s.token, Heard(Tries(s, ticks)))
    decreases |ticks|
  {
    if ticks != [] {
      var n := |ticks| - 1;
      TokenOfRun(s, ticks[..n]);
      var before, tries := Run(s, ticks[..n]), Tries(s, ticks[..n]);
      TickToken(before, ticks[n]);
      HeardTick(before, ticks[n], tries);
      OnFragmentsConcat(s.token, Heard(tries), TickHeard(before, ticks[n]));
    }
  }

  /** So only a login response with a complete token changes the token: outages, failed resolves, failed
      logins, logins without a complete token, and posts leave it as it was, in any number and order. */
  lemma TokenKept(s: Session, ticks: seq<Tick>)
    requires NoneHeld(Heard(Tries(s, ticks)), 0)
    ensures Run(s, ticks).token == s.token
  {
    TokenOfRun(s, ticks);
    NoTokenNoChange(s.token, Heard(Tries(s, ticks)));
  }
}
