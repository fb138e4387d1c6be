/** The HTTP thread as the program runs it, changing its variables in place. The answers of the
    network are parameters; `open` and `trace` only record. */
module HttpApp {
  import opened Histories
  import opened TokenText
  import opened Fragments
  import opened ResponseBuffers
  import opened HttpSession
  import SessionOrder
  import SessionMemory

  predicate FragmentsFit(a: Attempt) {
    a.Talks? ==> forall k :: 0 <= k < |a.fragments| ==> TokenFits(a.fragments[k])
  }

  predicate TickFits(tick: Tick) { tick.Online? ==> FragmentsFit(tick.login) }

  class HttpThread {
    var httpState: int
    var sockFd: int
    var server: Address
    const buffers: Buffers
    ghost var open: set<int>
    ghost var trace: seq<Event>

    ghost predicate Valid()
      reads this, buffers
    {
      buffers.Valid()
    }

    ghost function View(): Session
      reads this, buffers, buffers.token
    {
      Session(httpState, sockFd, server, buffers.Token(), open, trace)
    }

    constructor ()
      ensures Valid() && View() == INIT && fresh(buffers) && fresh(buffers.token)
    {
      httpState, sockFd, server := 0, -1, 0;
      open, trace := {}, [];
      buffers := new Buffers();
    }

    /** Returns 0 exactly if the socket is ready for the request. */
    method ServerConnect(a: Attempt) returns (code: int)
      requires Valid() && Fresh(open, a)
      modifies this`sockFd, this`open, this`trace
      ensures code == 0 <==> a.Talks?
      ensures a.NoSocket? ==> code == -1
      ensures a.TlsFails? ==> code == -(a.errno as int)
      ensures a.ConnectFails? ==> code == a.errno
      ensures View() == Connected(old(View()), a)
    {
      sockFd := if a.NoSocket? then -1 else a.fd;
      if sockFd == -1 {
        return sockFd;
      }
      open, trace := open + {sockFd}, trace + [Opened(sockFd)];
      var err := if a.TlsFails? then 0 - a.errno as int else 0;
      if err < 0 {
        return err;
      }
      err := if a.ConnectFails? then -1 else 0;
      if err < 0 {
        return a.errno;
      }
      return 0;
    }

    method Close()
      requires Valid() && sockFd in open
      modifies this`sockFd, this`open, this`trace
      ensures View() == ClosedUp(old(View()))
    {
      open, trace := open - {sockFd}, trace + [Closed(sockFd)];
      sockFd := -1;
    }

    method HttpLogin(a: Attempt) returns (err: int)
      requires Valid() && Fresh(open, a) && FragmentsFit(a)
      modifies this`sockFd, this`open, this`trace, buffers.token
      ensures View() == Login(old(View()), a)
      ensures err == if a.Talks? then a.result else -1
    {
      var code := ServerConnect(a);
      if code != 0 {
        trace := trace + [LoginTried(buffers.Token())];
        return -1;
      }
      buffers.DeliverFragments(a.fragments);
      if sockFd > 0 {
        Close();
      }
      trace := trace + [LoginTried(buffers.Token())];
      return a.result;
    }

    method HttpPostPatientData(a: Attempt) returns (err: int)
      requires Valid() && Fresh(open, a)
      modifies this`sockFd, this`open, this`trace
      ensures View() == Post(old(View()), a)
      ensures err == if a.Talks? then a.result else -1
    {
      trace := trace + [PostTried(server, buffers.Token())];
      var code := ServerConnect(a);
      if code != 0 {
        return -1;
      }
      Close();
      return a.result;
    }

    /** One test of `got_ip` and what follows it. */
    method Pass(tick: Tick, ghost pool: nat)
      requires Valid() && FeasibleTick(pool, View(), tick) && TickFits(tick)
      modifies this`httpState, this`sockFd, this`server, this`open, this`trace, buffers.token
      ensures View() == Step(old(View()), tick)
    {
      if tick.Outage? {
        httpState := 0;
        trace := trace + [Reset];
        return;
      }
      if httpState == 0 {
        if tick.resolve.Some? {
          server := tick.resolve.value;
          httpState := 1;
          trace := trace + [Resolved(server)];
        } else {
          trace := trace + [ResolveFailed];
        }
      } else if httpState == 1 {
        var _ := HttpLogin(tick.login);
        httpState := 2;
        var _ := HttpPostPatientData(tick.post);
      } else if httpState == 2 {
        var _ := HttpPostPatientData(tick.post);
      }
    }

    /** The endless loop, for as many tests of `got_ip` as there are ticks. */
    method RunLoop(ticks: seq<Tick>, ghost pool: nat)
      requires Valid() && FeasibleRun(pool, View(), ticks)
      requires forall i :: 0 <= i < |ticks| ==> TickFits(ticks[i])
      modifies this`httpState, this`sockFd, this`server, this`open, this`trace, buffers.token
      ensures View() == Run(old(View()), ticks)
    {
      for n := 0 to |ticks|
        invariant View() == Run(old(View()), ticks[..n])
      {
        assert ticks[..n + 1][..n] == ticks[..n];
        Pass(ticks[n], pool);
      }
      assert ticks[..|ticks|] == ticks;
    }
  }

  /** A new HTTP thread run through any feasible ticks: it has left open exactly the sockets of the
      attempts whose outcome leaks, and its posts follow resolve and login. */
  method DriveSession(ticks: seq<Tick>, ghost pool: nat) returns (t: HttpThread)
    requires FeasibleRun(pool, INIT, ticks)
    requires forall i :: 0 <= i < |ticks| ==> TickFits(ticks[i])
    ensures t.View() == Run(INIT, ticks)
    ensures forall fd :: fd in t.open <==> LeakedFd(Tries(INIT, ticks), fd)
    ensures Count(t.trace, IsOpened) == Count(t.trace, IsClosed) + Count(Tries(INIT, ticks), Leaks)
    ensures 0 <= t.httpState <= 2 && SessionOrder.PostsOrdered(t.trace)
    ensures t.buffers.Token() == OnFragments("", SessionMemory.Heard(Tries(INIT, ticks)))
    ensures SessionMemory.ToldIn(t.trace) == SessionMemory.ToldBy(Tries(INIT, ticks))
  {
    t := new HttpThread();
    t.RunLoop(ticks, pool);
    RunBalanced(pool, ticks);
    SocketConservation(pool, ticks);
    SessionOrder.PostsFollowLogin(ticks);
    SessionMemory.MemoryOfRun(ticks);
  }
}
