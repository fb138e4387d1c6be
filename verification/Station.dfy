/**
 The state that the Wi-Fi code shares between its three actors (network-event handlers, the
 readiness callback, the Wi-Fi thread), and what the first two actors do to it. Both thread
 designs use the same handlers and the same callback.
 */
module Station {
  import opened Histories

  /** The bit-fields of the shared byte `context.all`. */
  datatype Flags = Flags(connected: bool, connectResult: bool, disconnectRequested: bool)

  /** The Wi-Fi thread as the semaphore sees it. A give to a waiting thread hands the unit over
      at once: the count stays 0 and the thread becomes runnable. */
  datatype Waiter = Running | Waiting | Granted

  datatype Shared = Shared(
    flags: Flags,
    gotIp: bool,
    inDisconnect: bool,   // the event thread is inside the status query of the disconnect handler
    ready: bool,
    halfDone: nat,        // readiness callbacks that have written their value but not given yet
    count: nat,           // semaphore count
    waiter: Waiter)

  const INITIAL := Shared(Flags(false, false, false), false, false, false, 0, 0, Running)

  datatype GiveOutcome = HandedOver | Stored | Coalesced

  /** Stages of the two bit-field clears at the start of `wifi_connect`, as load/store pairs. */
  datatype ClearStage = LoadForConnected | StoreConnected | LoadForResult | StoreResult

  datatype Event =
    | ConnectResult(success: bool)
    | Disconnected
    | AddressLost
    | DhcpBound
    | ReadyWritten(value: bool)
    | Given(outcome: GiveOutcome)
    | Taken
    | ReadyRead(value: bool)
    | Cleared                      // both clears and the connect request, in one uninterrupted segment
    | ClearStep(stage: ClearStage) // one memory access of the clears, when they can be interrupted
    | Requested
    | Queried(polling: bool)       // the thread asks for the status, in the poll loop or after it
    | PollLeft(connected: bool)
    | HttpEntered

  datatype Action =
    | ThreadRuns
    | ConnectResultArrives(status: int)
    | DisconnectArrives(status: int)
    | DisconnectReturns
    | DhcpBoundArrives
    | ReadyWrites(value: bool)
    | ReadyGives

  /** The event thread handles one event at a time; a callback gives only after its write. */
  predicate Enabled(sh: Shared, a: Action) {
    match a
    case ThreadRuns => !sh.waiter.Waiting?
    case ConnectResultArrives(_) => !sh.inDisconnect
    case DisconnectArrives(_) => !sh.inDisconnect
    case DhcpBoundArrives => !sh.inDisconnect
    case DisconnectReturns => sh.inDisconnect
    case ReadyWrites(_) => true
    case ReadyGives => sh.halfDone > 0
  }

  function OnConnectResult(f: Flags, status: int): Flags {
    if f.connected then f
    else f.(connected := status == 0, connectResult := true)
  }

  function OnDisconnect(f: Flags): Flags {
    if !f.connected then f
    else if f.disconnectRequested then f.(disconnectRequested := false)
    else f.(connected := false)
  }

  function Disconnects(f: Flags, k: nat): Flags { if k == 0 then f else OnDisconnect(Disconnects(f, k - 1)) }

  /** How many disconnects in a row a link survives, from any flags: one if a disconnect was requested,
      which that one answers, and none otherwise. They never touch the result. */
  lemma {:induction false} DisconnectsSurvived(f: Flags, k: nat)
    ensures
      var g := Disconnects(f, k);
      && (g.connected <==> f.connected && k <= (if f.disconnectRequested then 1 else 0))
      && (g.disconnectRequested <==> f.disconnectRequested && (k == 0 || !f.connected))
      && g.connectResult == f.connectResult
  {
    if k > 0 { DisconnectsSurvived(f, k - 1); }
  }

  function OnGive(sh: Shared): Shared
    requires sh.halfDone > 0
  {
    var s := sh.(halfDone := sh.halfDone - 1);
    if s.waiter.Waiting? then s.(waiter := Granted)
    else if s.count == 0 then s.(count := 1)
    else s
  }

  function GiveResult(sh: Shared): GiveOutcome {
    if sh.waiter.Waiting? then HandedOver else if sh.count == 0 then Stored else Coalesced
  }

  /** What an actor other than the Wi-Fi thread does. */
  function EnvStep(sh: Shared, a: Action): Shared
    requires Enabled(sh, a) && !a.ThreadRuns?
  {
    match a
    case ConnectResultArrives(status) => sh.(flags := OnConnectResult(sh.flags, status))
    case DisconnectArrives(_) =>
      if sh.flags.connected then sh.(flags := OnDisconnect(sh.flags), inDisconnect := true)
      else sh.(gotIp := false)
    case DisconnectReturns => sh.(inDisconnect := false, gotIp := false)
    case DhcpBoundArrives => sh.(gotIp := true)
    case ReadyWrites(value) => sh.(ready := value, halfDone := sh.halfDone + 1)
    case ReadyGives => OnGive(sh)
  }

  /** What the history records for it. */
  function EnvLog(sh: Shared, a: Action): seq<Event>
    requires Enabled(sh, a) && !a.ThreadRuns?
  {
    match a
    case ConnectResultArrives(status) => [ConnectResult(status == 0)]
    case DisconnectArrives(_) => if sh.flags.connected then [Disconnected] else [Disconnected, AddressLost]
    case DisconnectReturns => [AddressLost]
    case DhcpBoundArrives => [DhcpBound]
    case ReadyWrites(value) => [ReadyWritten(value)]
    case ReadyGives => [Given(GiveResult(sh))]
  }

  // ----- what a history says, independently of the flags ------------------------------------

  predicate IsResult(e: Event) { e.ConnectResult? }
  predicate IsSuccess(e: Event) { e == ConnectResult(true) }
  predicate IsDisconnected(e: Event) { e.Disconnected? }
  predicate IsCleared(e: Event) { e.Cleared? }
  predicate EndsLink(e: Event) { e.Cleared? || e.Disconnected? }
  predicate IsBound(e: Event) { e.DhcpBound? }
  predicate IsAddressLost(e: Event) { e.AddressLost? }
  predicate WroteReady(e: Event) { e == ReadyWritten(true) }
  predicate WroteNotReady(e: Event) { e == ReadyWritten(false) }
  predicate ReadReady(e: Event) { e == ReadyRead(true) }
  predicate ReadNotReady(e: Event) { e == ReadyRead(false) }
  predicate IsGiven(e: Event) { e.Given? }
  predicate IsCoalesced(e: Event) { e == Given(Coalesced) }
  predicate IsTaken(e: Event) { e.Taken? }
  predicate IsWritten(e: Event) { e.ReadyWritten? }

  /** A connect result arrived since the flags were last cleared. */
  ghost predicate ResultSinceClear(h: seq<Event>) { Since(h, IsResult, IsCleared) }

  /** A success arrived since the flags were last cleared, with no disconnect after it. */
  ghost predicate LinkUp(h: seq<Event>) { Since(h, IsSuccess, EndsLink) }

  /** The latest readiness value that a callback wrote (false before the first). */
  ghost predicate LastWritten(h: seq<Event>) { Since(h, WroteReady, WroteNotReady) }

  /** The latest readiness value that the Wi-Fi thread examined (false before the first). */
  ghost predicate LastExamined(h: seq<Event>) { Since(h, ReadReady, ReadNotReady) }

  ghost predicate AddressHeld(h: seq<Event>) { Since(h, IsBound, IsAddressLost) }

  /** The latest of all DHCP-bound and disconnect events is a DHCP-bound. */
  ghost predicate BoundLast(h: seq<Event>) { Since(h, IsBound, IsDisconnected) }

  /** A disconnect handler has begun and not yet taken the address away. */
  ghost predicate Handling(h: seq<Event>) { Since(h, IsDisconnected, IsAddressLost) }

  /** The flags were cleared after the last DHCP-bound. */
  ghost predicate ClearedSinceBound(h: seq<Event>) { Since(h, IsCleared, IsBound) }

  /** DHCP-bound events arrived only while the link was up. */
  ghost predicate BoundOnlyWhileUp(h: seq<Event>) {
    forall i :: 0 <= i < |h| && h[i].DhcpBound? ==> LinkUp(h[..i])
  }

  /** How each of these changes when one event is recorded. */
  lemma Recorded(h: seq<Event>, e: Event)
    ensures ResultSinceClear(h + [e]) <==> e.ConnectResult? || (ResultSinceClear(h) && !e.Cleared?)
    ensures LinkUp(h + [e]) <==> e == ConnectResult(true) || (LinkUp(h) && !EndsLink(e))
    ensures LastWritten(h + [e]) <==> e == ReadyWritten(true) || (LastWritten(h) && e != ReadyWritten(false))
    ensures LastExamined(h + [e]) <==> e == ReadyRead(true) || (LastExamined(h) && e != ReadyRead(false))
    ensures AddressHeld(h + [e]) <==> e.DhcpBound? || (AddressHeld(h) && !e.AddressLost?)
    ensures BoundLast(h + [e]) <==> e.DhcpBound? || (BoundLast(h) && !e.Disconnected?)
    ensures Handling(h + [e]) <==> e.Disconnected? || (Handling(h) && !e.AddressLost?)
    ensures ClearedSinceBound(h + [e]) <==> e.Cleared? || (ClearedSinceBound(h) && !e.DhcpBound?)
  {
    SinceExtend(h, e, IsResult, IsCleared);
    SinceExtend(h, e, IsSuccess, EndsLink);
    SinceExtend(h, e, WroteReady, WroteNotReady);
    SinceExtend(h, e, ReadReady, ReadNotReady);
    SinceExtend(h, e, IsBound, IsAddressLost);
    SinceExtend(h, e, IsBound, IsDisconnected);
    SinceExtend(h, e, IsDisconnected, IsAddressLost);
    SinceExtend(h, e, IsCleared, IsBound);
  }

  lemma BoundOnlyRecorded(h: seq<Event>, e: Event)
    ensures BoundOnlyWhileUp(h + [e]) <==> BoundOnlyWhileUp(h) && (e.DhcpBound? ==> LinkUp(h))
  {
    var g := h + [e];
    assert g[|h|] == e && g[..|h|] == h;
    assert forall i :: 0 <= i < |h| ==> g[i] == h[i] && g[..i] == h[..i];
  }

  /** All of this in one value that changes with each event. */
  datatype Summary = Summary(
    result: bool, link: bool, written: bool, examined: bool,
    held: bool, boundLast: bool, handling: bool, clearedSinceBound: bool, boundOnlyUp: bool,
    gives: nat, takes: nat, requests: nat, coalesced: nat, writes: nat)
  {
    function After(e: Event): Summary {
      Summary(
        e.ConnectResult? || (result && !e.Cleared?),
        e == ConnectResult(true) || (link && !EndsLink(e)),
        e == ReadyWritten(true) || (written && e != ReadyWritten(false)),
        e == ReadyRead(true) || (examined && e != ReadyRead(false)),
        e.DhcpBound? || (held && !e.AddressLost?),
        e.DhcpBound? || (boundLast && !e.Disconnected?),
        e.Disconnected? || (handling && !e.AddressLost?),
        e.Cleared? || (clearedSinceBound && !e.DhcpBound?),
        boundOnlyUp && (e.DhcpBound? ==> link),
        gives + (if e.Given? then 1 else 0),
        takes + (if e.Taken? then 1 else 0),
        requests + (if e.Cleared? then 1 else 0),
        coalesced + (if e == Given(Coalesced) then 1 else 0),
        writes + (if e.ReadyWritten? then 1 else 0))
    }
  }

  const NOTHING_YET := Summary(false, false, false, false, false, false, false, false, true, 0, 0, 0, 0, 0)

  ghost function Sum(h: seq<Event>): Summary {
    if h == [] then NOTHING_YET else Sum(h[..|h| - 1]).After(h[|h| - 1])
  }

  lemma SumExtend(h: seq<Event>, e: Event)
    ensures Sum(h + [e]) == Sum(h).After(e)
  {
    assert (h + [e])[..|h|] == h;
  }

  function AfterLog(v: Summary, log: seq<Event>): Summary
    requires |log| <= 2
  {
    if log == [] then v else if |log| == 1 then v.After(log[0]) else v.After(log[0]).After(log[1])
  }

  lemma SumExtendLog(h: seq<Event>, log: seq<Event>)
    requires |log| <= 2
    ensures Sum(h + log) == AfterLog(Sum(h), log)
  {
    if log == [] {
      assert h + log == h;
    } else if |log| == 1 {
      assert h + log == h + [log[0]];
      SumExtend(h, log[0]);
    } else {
      assert h + log == h + [log[0]] + [log[1]];
      SumExtend(h, log[0]);
      SumExtend(h + [log[0]], log[1]);
    }
  }

  /** The summary of a history says what the history says. */
  lemma {:induction false} SumMeans(h: seq<Event>)
    ensures Sum(h).result == ResultSinceClear(h) && Sum(h).link == LinkUp(h)
    ensures Sum(h).written == LastWritten(h) && Sum(h).examined == LastExamined(h)
    ensures Sum(h).held == AddressHeld(h) && Sum(h).boundLast == BoundLast(h) && Sum(h).handling == Handling(h)
    ensures Sum(h).clearedSinceBound == ClearedSinceBound(h) && Sum(h).boundOnlyUp == BoundOnlyWhileUp(h)
    decreases |h|
  {
    if h != [] {
      var n := |h| - 1;
      assert h == h[..n] + [h[n]];
      SumMeans(h[..n]);
      Recorded(h[..n], h[n]);
      BoundOnlyRecorded(h[..n], h[n]);
    }
  }

  lemma {:induction false} SumCounts(h: seq<Event>)
    ensures Sum(h).gives == Count(h, IsGiven) && Sum(h).takes == Count(h, IsTaken)
    ensures Sum(h).requests == Count(h, IsCleared) && Sum(h).coalesced == Count(h, IsCoalesced)
    ensures Sum(h).writes == Count(h, IsWritten)
    decreases |h|
  {
    if h != [] {
      SumCounts(h[..|h| - 1]);
    }
  }

  // ----- the thread's own events -------------------------------------------------------------

  /** What the Wi-Fi thread itself records. */
  predicate IsOwn(e: Event) {
    e.Taken? || e.ReadyRead? || e.Cleared? || e.ClearStep? || e.Requested? || e.Queried? || e.PollLeft?
    || e.HttpEntered?
  }

  datatype Last = Nothing | Latest(event: Event)

  ghost function LastOwn(h: seq<Event>): Last {
    if h == [] then Nothing
    else var n := |h| - 1; if IsOwn(h[n]) then Latest(h[n]) else LastOwn(h[..n])
  }

  lemma LastOwnExtend(h: seq<Event>, e: Event)
    ensures LastOwn(h + [e]) == if IsOwn(e) then Latest(e) else LastOwn(h)
  {
    assert (h + [e])[..|h|] == h;
  }

  /** Said with positions: `e` is the thread's, and what came after it is not. */
  lemma {:induction false} LastOwnMeans(h: seq<Event>, e: Event)
    ensures LastOwn(h) == Latest(e) <==>
            IsOwn(e) && exists i :: 0 <= i < |h| && h[i] == e && forall j :: i < j < |h| ==> !IsOwn(h[j])
    decreases |h|
  {
    if h != [] {
      var n := |h| - 1;
      LastOwnMeans(h[..n], e);
      if IsOwn(h[n]) {
        if h[n] == e { assert forall j :: n < j < |h| ==> !IsOwn(h[j]); }
      } else if LastOwn(h) == Latest(e) {
        var i :| 0 <= i < n && h[..n][i] == e && forall j :: i < j < n ==> !IsOwn(h[..n][j]);
        assert h[i] == e && forall j :: i < j < n ==> h[j] == h[..n][j];
      }
    }
  }

  /** Every event of the thread may follow the thread's event before it, as `follows` says. */
  ghost predicate InFlow(h: seq<Event>, follows: (Last, Event) -> bool) {
    forall i :: 0 <= i < |h| && IsOwn(h[i]) ==> follows(LastOwn(h[..i]), h[i])
  }

  lemma InFlowExtend(h: seq<Event>, e: Event, follows: (Last, Event) -> bool)
    requires InFlow(h, follows) && (IsOwn(e) ==> follows(LastOwn(h), e))
    ensures InFlow(h + [e], follows)
  {
    var g := h + [e];
    assert g[|h|] == e && g[..|h|] == h;
    assert forall i :: 0 <= i < |h| ==> g[i] == h[i] && g[..i] == h[..i];
  }

  lemma OtherInFlow(h: seq<Event>, e: Event, follows: (Last, Event) -> bool)
    requires InFlow(h, follows) && !IsOwn(e)
    ensures InFlow(h + [e], follows) && LastOwn(h + [e]) == LastOwn(h)
  {
    InFlowExtend(h, e, follows);
    LastOwnExtend(h, e);
  }

  lemma LogInFlow(h: seq<Event>, log: seq<Event>, follows: (Last, Event) -> bool)
    requires InFlow(h, follows) && 1 <= |log| <= 2 && forall i :: 0 <= i < |log| ==> !IsOwn(log[i])
    ensures InFlow(h + log, follows) && LastOwn(h + log) == LastOwn(h)
  {
    OtherInFlow(h, log[0], follows);
    if |log| == 1 {
      assert h + log == h + [log[0]];
    } else {
      assert h + log == h + [log[0]] + [log[1]];
      OtherInFlow(h + [log[0]], log[1], follows);
    }
  }

  lemma EnvNotOwn(sh: Shared, a: Action)
    requires Enabled(sh, a) && !a.ThreadRuns?
    ensures 1 <= |EnvLog(sh, a)| <= 2 && forall i :: 0 <= i < |EnvLog(sh, a)| ==> !IsOwn(EnvLog(sh, a)[i])
  {
  }

  /** The handlers and the callback change nothing of this. */
  lemma EnvInFlow(h: seq<Event>, sh: Shared, a: Action, follows: (Last, Event) -> bool)
    requires Enabled(sh, a) && !a.ThreadRuns? && InFlow(h, follows)
    ensures InFlow(h + EnvLog(sh, a), follows) && LastOwn(h + EnvLog(sh, a)) == LastOwn(h)
  {
    EnvNotOwn(sh, a);
    LogInFlow(h, EnvLog(sh, a), follows);
  }

  // ----- what happened to the device, from its schedule --------------------------------------

  /** What an action announces: a result with status 0 is a success, every other one a failure. */
  function Announcement(a: Action): seq<Event> {
    match a
    case ConnectResultArrives(status) => [ConnectResult(status == 0)]
    case DisconnectArrives(_) => [Disconnected]
    case DhcpBoundArrives => [DhcpBound]
    case ReadyWrites(value) => [ReadyWritten(value)]
    case _ => []
  }

  function Announced(schedule: seq<Action>): seq<Event> {
    if schedule == [] then []
    else var n := |schedule| - 1; Announced(schedule[..n]) + Announcement(schedule[n])
  }

  predicate IsExternal(e: Event) { e.ConnectResult? || e.Disconnected? || e.DhcpBound? || e.ReadyWritten? }

  /** `outside` with `e`, if that comes from outside. */
  function Picked(outside: seq<Event>, e: Event): seq<Event> { if IsExternal(e) then outside + [e] else outside }

  /** The events that come from outside, in order. */
  function External(h: seq<Event>): seq<Event> {
    if h == [] then [] else var n := |h| - 1; Picked(External(h[..n]), h[n])
  }

  lemma ExternalExtend(h: seq<Event>, e: Event)
    ensures External(h + [e]) == Picked(External(h), e)
  {
    assert (h + [e])[..|h|] == h;
  }

  function PickedAll(outside: seq<Event>, log: seq<Event>): seq<Event>
    requires |log| <= 2
  {
    if log == [] then outside
    else if |log| == 1 then Picked(outside, log[0])
    else Picked(Picked(outside, log[0]), log[1])
  }

  lemma ExternalLog(h: seq<Event>, log: seq<Event>)
    requires |log| <= 2
    ensures External(h + log) == PickedAll(External(h), log)
  {
    if log == [] {
      assert h + log == h;
    } else if |log| == 1 {
      assert h + log == h + [log[0]];
      ExternalExtend(h, log[0]);
    } else {
      assert h + log == h + [log[0]] + [log[1]];
      ExternalExtend(h, log[0]);
      ExternalExtend(h + [log[0]], log[1]);
    }
  }

  lemma EnvAnnounces(outside: seq<Event>, sh: Shared, a: Action)
    requires Enabled(sh, a) && !a.ThreadRuns?
    ensures PickedAll(outside, EnvLog(sh, a)) == outside + Announcement(a)
  {
  }

  // ----- what the handlers and the callback keep, whatever the thread is --------------------

  /** `got_ip` is what the history says; the disconnect handler is the only gap. */
  predicate AddressKept(sh: Shared, v: Summary) {
    && sh.gotIp == v.held
    && sh.inDisconnect == v.handling
    && (if sh.inDisconnect then !v.boundLast else sh.gotIp == v.boundLast)
  }

  /** Every give went to a take, to the count, to the waiting thread, or into a coalesced give. */
  predicate GivesKept(sh: Shared, v: Summary) {
    && sh.count <= 1
    && (sh.waiter.Waiting? ==> sh.count == 0)
    && v.gives == v.takes + sh.count + (if sh.waiter.Granted? then 1 else 0) + v.coalesced
    && v.writes == v.gives + sh.halfDone
  }

  /** A readiness value that the thread has not examined has a wake-up under way. */
  predicate Awake(sh: Shared, v: Summary) {
    sh.count == 0 && sh.halfDone == 0 && !sh.waiter.Granted? ==> v.examined == v.written
  }

  /** Which actions the other actors can take, by the history: the event thread takes any event unless its
      disconnect handler is running, which can then return; a callback can always write, and give exactly
      if more have written than given. */
  ghost predicate EnvironmentFree(sh: Shared, h: seq<Event>) {
    && (forall v :: Enabled(sh, ReadyWrites(v)))
    && (Enabled(sh, ReadyGives) <==> Count(h, IsWritten) > Count(h, IsGiven))
    && (Enabled(sh, DisconnectReturns) <==> Handling(h))
    && (Enabled(sh, DhcpBoundArrives) <==> !Handling(h))
    && (forall status :: Enabled(sh, ConnectResultArrives(status)) <==> !Handling(h))
    && (forall status :: Enabled(sh, DisconnectArrives(status)) <==> !Handling(h))
  }

  lemma KeptIsFree(sh: Shared, h: seq<Event>)
    requires AddressKept(sh, Sum(h)) && GivesKept(sh, Sum(h))
    ensures EnvironmentFree(sh, h)
  {
    HandlingKept(sh, h);
    GivingKept(sh, h);
  }

  lemma HandlingKept(sh: Shared, h: seq<Event>)
    requires AddressKept(sh, Sum(h))
    ensures sh.inDisconnect == Handling(h)
  {
    SumMeans(h);
  }

  lemma GivingKept(sh: Shared, h: seq<Event>)
    requires GivesKept(sh, Sum(h))
    ensures sh.halfDone == Count(h, IsWritten) - Count(h, IsGiven)
  {
    SumCounts(h);
  }

  lemma EnvKeepsAddress(sh: Shared, a: Action, v: Summary)
    requires AddressKept(sh, v) && Enabled(sh, a) && !a.ThreadRuns?
    ensures AddressKept(EnvStep(sh, a), AfterLog(v, EnvLog(sh, a)))
  {
  }

  lemma GiveKeepsGives(sh: Shared, v: Summary)
    requires GivesKept(sh, v) && sh.halfDone > 0
    ensures GivesKept(OnGive(sh), v.After(Given(GiveResult(sh))))
  {
  }

  lemma EventKeepsGives(sh: Shared, a: Action, v: Summary)
    requires GivesKept(sh, v) && Enabled(sh, a) && !a.ThreadRuns? && !a.ReadyGives?
    ensures GivesKept(EnvStep(sh, a), AfterLog(v, EnvLog(sh, a)))
  {
    var v' := AfterLog(v, EnvLog(sh, a));
    assert v'.gives == v.gives && v'.takes == v.takes && v'.coalesced == v.coalesced;
    assert v'.writes == v.writes + (if a.ReadyWrites? then 1 else 0);
  }

  lemma EnvKeepsGives(sh: Shared, a: Action, v: Summary)
    requires GivesKept(sh, v) && Enabled(sh, a) && !a.ThreadRuns?
    ensures GivesKept(EnvStep(sh, a), AfterLog(v, EnvLog(sh, a)))
  {
    if a.ReadyGives? { GiveKeepsGives(sh, v); } else { EventKeepsGives(sh, a, v); }
  }

  lemma EnvKeepsAwake(sh: Shared, a: Action, v: Summary)
    requires sh.ready == v.written && Enabled(sh, a) && !a.ThreadRuns?
    ensures
      var sh', v' := EnvStep(sh, a), AfterLog(v, EnvLog(sh, a));
      sh'.ready == v'.written && (Awake(sh, v) ==> Awake(sh', v'))
  {
    if a.ReadyGives? { GiveKeepsAwake(sh, v); } else if !a.ReadyWrites? { HandlerKeepsAwake(sh, a, v); }
  }

  lemma GiveKeepsAwake(sh: Shared, v: Summary)
    requires sh.halfDone > 0
    ensures
      var v' := v.After(Given(GiveResult(sh)));
      OnGive(sh).ready == sh.ready && v'.written == v.written && Awake(OnGive(sh), v')
  {
  }

  lemma HandlerKeepsAwake(sh: Shared, a: Action, v: Summary)
    requires Enabled(sh, a) && !a.ThreadRuns? && !a.ReadyGives? && !a.ReadyWrites?
    ensures
      var sh', v' := EnvStep(sh, a), AfterLog(v, EnvLog(sh, a));
      && sh'.ready == sh.ready && v'.written == v.written && v'.examined == v.examined
      && sh'.count == sh.count && sh'.halfDone == sh.halfDone && sh'.waiter == sh.waiter
  {
  }

  /** Why the thread may record `e` after the history `past`: a read returns the value last written
      and follows its own take; a connect request follows its own take and a true read; the poll
      loop goes on only without a result newer than the last clear, is left only on one, and then sees the
      link as it is. */
  ghost predicate JustifiedBy(past: seq<Event>, e: Event) {
    var n := |past|;
    match e
    case ReadyRead(value) => n >= 1 && past[n - 1].Taken? && value == LastWritten(past)
    case Cleared => n >= 2 && past[n - 1] == ReadyRead(true) && past[n - 2].Taken?
    case Queried(polling) => if polling then !ResultSinceClear(past) else LinkUp(past)
    case PollLeft(connected) => ResultSinceClear(past) && connected == LinkUp(past)
    case _ => true
  }

  ghost predicate Justified(h: seq<Event>) {
    forall i :: 0 <= i < |h| ==> JustifiedBy(h[..i], h[i])
  }

  lemma JustifiedRecorded(h: seq<Event>, e: Event)
    requires Justified(h) && JustifiedBy(h, e)
    ensures Justified(h + [e])
  {
    var g := h + [e];
    assert g[|h|] == e && g[..|h|] == h;
    assert forall i :: 0 <= i < |h| ==> g[i] == h[i] && g[..i] == h[..i];
  }
}
