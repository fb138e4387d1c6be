# A verified model of the HopeWatch station firmware

The firmware keeps a Wi-Fi station connected and reports patient data to a server. This project
models its hard parts and proves what holds in every run, for every interleaving of its threads
and every answer of the network:

- the Wi-Fi connection protocol, in its two thread designs (`Histories`, `Station`,
  `CooperativeThread` for `src/app.c`, `PreemptiveThread` with `PreemptiveFlow` and `PreemptiveFlags`
  for `src/wifi/wifi_sta.c`, and `StationDevice` for the code that changes the shared variables in
  place);
- the HTTP session loop and its sockets (`HttpSession`, `SessionOrder`, `SessionMemory`,
  `HttpApp`);
- the two together, in both thread designs: the loop samples the `got_ip` that the station's handlers
  write (`JointHistory`, `ComposedSystem`);
- the token in the response, whole or in fragments, and the request text that carries it
  (`TokenText`, `Fragments`, `ResponseBuffers`, `RequestText`);
- the hex key decoder (`HexKey`).

`dafny verify dfyconfig.toml` checks everything.

## How the protocol is modelled

Three actors share the flag byte `connected` / `connect_result` / `disconnect_requested`, `got_ip`,
`wifi_ready_status` and a binary semaphore: the network-event handlers, the readiness callback and
the Wi-Fi thread. A run is a sequence of actions (a *schedule*), each enabled when its turn comes.
Every state carries the history of what happened; the predicates on histories (`ResultSinceClear`,
`LinkUp`, `HitBetweenClears`, ...) are stated with quantifiers over positions, without the flags, and
the theorems relate the two.

- Cooperative design: one step of the thread is the code between two blocking calls.
- Preemptible design: one step of the thread is one memory access. A bit-field assignment is a load
  of the shared byte and a store of the changed byte, so a handler can run between the two.
- The event thread is taken to be cooperative and to handle one event at a time. Its disconnect
  handler is two steps, because the status query between clearing `connected` and clearing `got_ip`
  can block. The readiness callback is two steps, write and give; any number of callbacks may be
  half done at once.
- A give to a waiting thread hands the unit over and leaves the count at 0, as the kernel does. The
  thread may run much later; gives in between are counted or coalesced.
- `k_sem_take` with `K_FOREVER` does not fail. The result of the connect request is ignored by the
  code, so the model does not have it.

Four findings are stated as theorems, each with a run that gets there:

- In the preemptible design a success that arrives between the two clears leaves `connected` set and
  `connect_result` clear, and the poll loop is then held until a disconnect *and* a further result
  (`TrapExactly`, `TrapReachable`, `TrapLeftExactly`).
- In the cooperative design the poll loop ignores readiness, so an attempt without a result, for
  instance because the connect request itself failed, is never given up (`PollHeld`, `PollReachable`).
- Every attempt whose TLS setup or connect fails leaves its socket open for good, and enough of them
  use up any pool of descriptors, after which no attempt gets a socket (`SocketConservation`,
  `LeakIsForGood`, `PoolExhausted`, `PoolCanBeExhausted`). A login on descriptor 0 would leak too, as
  its close is guarded by `sock_fd > 0`; that needs another configuration than the one of
  `nrf52dk/sta`, whose `autoconf.h` sets `CONFIG_POSIX_DEVICE_IO`, under which the descriptors 0 to 2
  are normally the standard streams. The exhausting run uses ordinary descriptors only.
- The test of `got_ip` is no guarantee for the pass that follows it: a disconnect in between leaves a
  post without an address (`PostWithoutAddress`; what the test does guarantee is
  `PostsOnlyWithAddress`).

Where `src/README.md` and the code name different servers, the model follows the code.

## Model

| member | source | states |
|---|---|---|
| `StationDevice.Device.HandleConnectResult` | src/app.c:156-174 | the handler as code; the new shared state is the one the protocol steps to: a result is ignored while connected, a failure sets only `connect_result` |
| `StationDevice.Device.HandleDisconnect` | src/app.c:176-211 | the disconnect handler up to the status query; without a link it goes straight to clearing `got_ip` |
| `StationDevice.Device.FinishDisconnect` | src/app.c:195-208 | the rest of the disconnect handler, after the status query |
| `StationDevice.Device.HandleDhcpBound` | src/app.c:225-236 | `got_ip` is set, nothing else changes |
| `StationDevice.Device.ReadyCallbackWrite` | src/app.c:369-372 | first half of the callback |
| `StationDevice.Device.ReadyCallbackGive` | src/app.c:373-374 | second half: hand over, count, or coalesce |
| `StationDevice.Device.TakeAndCheck` | src/app.c:312-332 | the loop through take, `check_wifi_ready` and `continue` ends where the protocol's mutually recursive segment ends, in state and in history |
| `StationDevice.Device.RunSegment` | src/app.c:312-352 | the thread's code from any blocking call to the next is one protocol segment |
| `StationDevice.Device.RunStatement` | src/wifi/wifi_sta.c:243-303 | each statement of the preemptible thread is one protocol step; what the order of these steps must be is `PreemptiveFlow.ControlFollowsProgram` |
| `StationDevice.DriveCooperative` | src/app.c:156-352 | the handlers, the callback and the thread code, called in the order of any legal schedule, end in the state of that run; so the program's own `connected`, `connect_result` and `got_ip` mean what the history says, and a blocked thread has examined the value written last |
| `StationDevice.DrivePreemptive` | src/wifi/wifi_sta.c:90-303 | the same for the preemptible thread: the program's variables are in the trap iff a success fell between the clears and no disconnect came since; `got_ip` iff an address is held |
| `CooperativeThread.FlagsRefineHistory` | src/app.c:156-196 | in every reachable state `connect_result` holds iff a result arrived since the last clear, `connected` iff a success did with no later disconnect, so `connected` implies `connect_result`; `disconnect_requested` is never set |
| `CooperativeThread.AddressRefinesHistory` | src/app.c:198-236 | `got_ip` iff the latest of all DHCP-bound and disconnect events is a DHCP-bound, up to the running disconnect handler; an address without a link implies a clear after the last bind if binds happen only while connected |
| `CooperativeThread.NoLostWakeUp` | src/app.c:317-330 | a blocked thread with no callback half done has examined the value written last |
| `CooperativeThread.RequestAccounting` | src/app.c:317-347 | gives = takes + count + unit handed over + coalesced; callbacks = gives + half done; requests are at most takes |
| `CooperativeThread.EveryStepJustified` | src/app.c:317-339 | in every history each readiness read returns the value last written and follows its own take, each request follows its own take and a true read, the poll loop queries the status only without a result newer than the clear, each exit from it follows a result newer than the clear and sees the true link state |
| `CooperativeThread.ControlFollowsProgram` | src/app.c:312-352 | in every run the thread's events come in the order of the program (a take first, after a read of false and after an attempt only; a read after a take only; a clear after a read of true only; an exit from the poll loop after a clear or a status query only; after an exit with a link a status query first), and the last of them says where the thread is |
| `CooperativeThread.ActorsFree` | src/app.c:176-236 | in every reachable state each actor can act exactly when its own history allows it: events unless the disconnect handler runs, gives while more callbacks have written than given, the thread unless it waits with no give left |
| `CooperativeThread.HistoryIsAnnounced` | src/app.c:156-236 | what every history records of the outside is what the schedule announced, in that order; a result with status 0 is a success and every other one a failure |
| `CooperativeThread.WakeUpServed` | src/app.c:312-347 | a completed ready=true callback not overtaken by ready=false leads to a new request within three thread steps in every continuation, unless the poll loop waits for a result |
| `CooperativeThread.PollHeld` | src/app.c:334-337 | without a result the poll loop is never left and no request is issued, whatever the callbacks do |
| `CooperativeThread.PollReachable` | src/app.c:312-337 | a run into the poll loop with no result, where `PollHeld` begins |
| `CooperativeThread.PollLeavesOnResult` | src/app.c:334-339 | with a result it is left within two thread steps in every continuation |
| `CooperativeThread.NoRetryWithoutCallback` | src/app.c:339-352 | a waiting thread with no callback half done issues no request until a new callback |
| `Station.SumMeans` | src/app.c:156-236 | the inductively maintained summary of a history agrees with the quantified predicates on it |
| `Station.LastOwnMeans` | src/app.c:312-352 | the latest event of the thread, by positions in the history |
| `Station.DisconnectsSurvived` | src/app.c:181-194 | from any flags a link survives one disconnect if one was requested and none otherwise, and no number of them touches the result |
| `PreemptiveThread.TrapExactly` | src/wifi/wifi_sta.c:170-184 | `connected` without `connect_result` iff a success arrived after the first clear's store and was in force at the second clear's load, both clears are done, and no disconnect came since; then the thread is in the poll loop |
| `PreemptiveThread.TrapReachable` | src/wifi/wifi_sta.c:174-175 | a run that gets there |
| `PreemptiveThread.TrapLeftExactly` | src/wifi/wifi_sta.c:282-285 | from the trap, in every continuation, `connect_result` gets set iff a disconnect and then a result arrive; until then the poll loop is not left |
| `PreemptiveThread.FlagsRefineHistoryWithoutHit` | src/wifi/wifi_sta.c:90-129 | without that interleaving the flags mean what they mean in the cooperative design |
| `PreemptiveFlags.FlagsExactly` | src/wifi/wifi_sta.c:90-184 | both flags in every reachable state: before the clears, between them (a result seen by the first load is stored back, one between that load and its store is lost) and after them (with the trap, `connect_result` iff a result came after a disconnect) |
| `PreemptiveFlags.WindowMeans` | src/wifi/wifi_sta.c:170-184 | the second maintained digest agrees with the quantified predicates |
| `PreemptiveThread.OneAttemptPerRun` | src/wifi/wifi_sta.c:279-290 | at most one request and one entry into the HTTP loop per run, an entry only with a request; the thread is in the HTTP loop iff it has entered it |
| `PreemptiveThread.NoLostWakeUp` | src/wifi/wifi_sta.c:260-276 | no wake-up is lost although callbacks can run between the take and the read |
| `PreemptiveThread.AddressRefinesHistory` | src/wifi/wifi_sta.c:110-168 | `got_ip` iff the latest of all DHCP-bound and disconnect events is a DHCP-bound, up to the running disconnect handler, here too |
| `PreemptiveThread.GiveAccounting` | src/wifi/wifi_sta.c:212-276 | gives = takes + count + unit handed over + coalesced; callbacks = gives + half done |
| `PreemptiveThread.PollLeavesOnResult` | src/wifi/wifi_sta.c:282-290 | with a result in, the poll loop and the test of the link are behind the thread after three of its steps, in every continuation |
| `PreemptiveFlow.ControlFollowsProgram` | src/wifi/wifi_sta.c:243-303 | in every run each read directly follows a take among the thread's events, each clear and the request follow a read of true, a read of false is followed by a new take only, the HTTP loop is entered only after an exit with a link; the last event says where the thread is |
| `PreemptiveFlow.EveryStepCaused` | src/wifi/wifi_sta.c:267-290 | each read returns the value written last; the poll loop is left only on a result since the clears, and sees the link as it is |
| `PreemptiveFlow.WakeUpServed` | src/wifi/wifi_sta.c:260-280 | a completed ready=true callback not overtaken by ready=false leads to the request within seven thread steps in every continuation |
| `PreemptiveFlow.OutcomeDecides` | src/wifi/wifi_sta.c:287-303 | after an exit with a link the first thread step of every continuation queries the status and the second enters the HTTP loop; after one without the thread has ended and takes no step |
| `PreemptiveThread.ActorsFree` | src/wifi/wifi_sta.c:110-168 | each actor can act exactly when its own history allows it, here too |
| `PreemptiveFlow.HistoryIsAnnounced` | src/wifi/wifi_sta.c:90-168 | the same in the preemptible design |
| `PreemptiveThread.DigestMeans` | src/wifi/wifi_sta.c:90-184 | the inductively maintained digest of a history agrees with the quantified predicates on it |
| `HttpApp.HttpThread.ServerConnect` | src/http_app.c:248-273 | returns 0 exactly if the socket is ready, otherwise -1, the negative errno of the TLS setup or the errno of connect; on every failure the opened descriptor stays open |
| `HttpApp.HttpThread.HttpLogin` | src/http_app.c:276-313 | the login as code is one login attempt of the session, with the token that the fragments leave |
| `HttpApp.HttpThread.HttpPostPatientData` | src/http_app.c:315-356 | the post as code is one post attempt of the session |
| `HttpApp.HttpThread.Pass` | src/http_app.c:74-99 | one test of `got_ip` and the switch with its fall-through is one tick of the session; what a tick may change is `SessionMemory.MemoryOfRun` |
| `HttpApp.HttpThread.RunLoop` | src/http_app.c:68-102 | the loop as code is the run of the session, tick by tick |
| `HttpApp.DriveSession` | src/http_app.c:68-102 | a new thread run through any feasible ticks has open exactly the sockets of the leaking attempts, its posts follow resolve and login, its token buffer holds what the login responses left, and each attempt used the token of its moment |
| `HttpSession.SocketConservation` | src/http_app.c:248-356 | in every run, at each loop top: opened = closed + number of attempts made whose TLS setup or connect failed or that logged in on descriptor 0; a descriptor is open iff it is the one of such an attempt; every close is of a descriptor open then, never of -1 |
| `HttpSession.LeakIsForGood` | src/http_app.c:248-356 | a descriptor open at a loop top is open at every later one, in every continuation |
| `HttpSession.PoolExhausted` | src/http_app.c:248-255 | once as many attempts have leaked as the pool has descriptors, every later attempt of every continuation fails at `socket` |
| `HttpSession.PoolCanBeExhausted` | src/http_app.c:265-271 | for every pool size a run from the start that gets there, by connect failures alone |
| `SessionOrder.PostsFollowLogin` | src/http_app.c:68-102 | `http_state` stays in {0, 1, 2}; each post is preceded since the last reset by exactly one successful resolve and then exactly one login attempt, goes to that address and carries the token which that login left |
| `SessionOrder.TokenReachesPosts` | src/http_app.c:88-101 | after a login response with one marker, held with its token by one fragment, every post until the next sampled outage carries exactly that token to the resolved server |
| `SessionOrder.ProgressCount` | src/http_app.c:72-101 | n samples with an address, of which the first f resolves fail, make max(0, n-f-1) posts and min(1, that) logins |
| `SessionMemory.MemoryOfRun` | src/http_app.c:68-102 | in every run: the token is what the fragments of all login responses leave from the empty one, the server is the one resolved last, `sock_fd` is the descriptor that the latest attempt left behind or -1, the trace tells each attempt in order with the token of its moment, and each attempt that got a socket opened one |
| `SessionMemory.TokenOfRun` | src/http_app.c:74-101 | the token from any state of a session |
| `SessionMemory.TokenKept` | src/http_app.c:74-101 | outages, failed resolves, failed logins, logins without a complete token and posts leave the token as it was, in any number and order |
| `SessionOrder.SamplesDecide` | src/http_app.c:72-101 | the tick of each sample is a pass with the network's answers iff `got_ip` holds at that instant; the first sample is at once, the next 1000 ms after a false one and 10000 ms after the pass of a true one |
| `SessionOrder.SamplingNonInterference` | src/http_app.c:74-100 | two courses of `got_ip` over time that agree at the sampled instants have the same samples and the same run |
| `ComposedSystem.PostsOnlyWithAddress` | src/http_app.c:68-102 | station and session as one system, in every run: each test finds exactly whether the station's history holds an address; each reset directly follows a test that found none; every other session event belongs to a pass whose test found one; the session is the run of the ticks that the samples dictate; the joint history projects to the station's and to the session's |
| `ComposedSystem.EverySessionOccurs` | src/http_app.c:68-102 | conversely every run of the session is the session's part of a run of the system |
| `ComposedSystem.EverySessionOccursHere` | src/wifi/wifi_sta.c:287-290 | the same with the loop inside the Wi-Fi thread |
| `ComposedSystem.PostHappens` | src/http_app.c:88-97 | a run of each system with a post |
| `ComposedSystem.PostWithoutAddress` | src/http_app.c:74-97 | a run in which the address is lost between the test and the post |
| `JointHistory.HeldMeans` | src/app.c:198-236 | an address held means that the latest of binds and disconnects is a bind, or that a disconnect handler is running |
| `ComposedSystem.PostsOnlyAfterLink` | src/wifi/wifi_sta.c:282-290 | the same with the loop inside the Wi-Fi thread, and every test and session event comes after the poll loop was left with a link |
| `ComposedSystem.HttpLoopIsForGood` | src/wifi/wifi_sta.c:287-290 | in every run, a thread that has entered the HTTP loop is in it at every later state, whatever the session and the handlers do |
| `TokenText.Find` | src/http_app.c:216-216 | the first occurrence at or after a place, or none at all |
| `TokenText.FindChar` | src/http_app.c:219-219 | the first such character at or after a place, or none at all |
| `TokenText.CString` | src/http_app.c:213-214 | the text before the first NUL |
| `TokenText.Extract` | src/http_app.c:216-223 | an extracted token is quote-free |
| `TokenText.ExtractMeans` | src/http_app.c:216-223 | the extraction yields t iff t is quote-free and follows the first marker up to a quote |
| `TokenText.NoTokenMeans` | src/http_app.c:217-220 | it yields nothing iff no quote follows the first marker, if there is one |
| `TokenText.FirstMarkerExactly` | src/app_bk.c:713-715 | the first marker of p + marker + rest is at the end of p iff p neither contains the marker nor ends with its first eight characters |
| `TokenText.RoundTrip` | src/app_bk.c:713-720 | then a quote-free token comes back |
| `TokenText.ObjectBody` | src/http_app.c:216-223 | in particular every quote-free token comes back from the object `{"token":"..."}` |
| `TokenText.OverlapExtractsWord` | src/app_bk.c:713-720 | otherwise, with no earlier marker, the extraction returns the word of the marker whatever the token is |
| `Fragments.FragmentedExtraction` | src/http_app.c:207-231 | if the first marker and its closing quote lie in one fragment, the callbacks have the whole-body token there and keep it as far as the later fragments do |
| `Fragments.FragmentedAsWhole` | src/http_app.c:207-231 | with no complete token in a later fragment, they leave the whole-body token |
| `Fragments.FragmentedExactly` | src/http_app.c:207-231 | for a body with one marker: the whole-body token if some fragment holds marker, token and quote together, otherwise the token from before |
| `Fragments.NoTokenNoChange` | src/http_app.c:216-226 | fragments without a complete token leave the token unchanged |
| `Fragments.LastHeldWins` | src/http_app.c:207-231 | for every sequence of fragments the last complete token wins, and with none the token stays |
| `Fragments.NulEndsFragment` | src/http_app.c:211-216 | of a fragment with a NUL only the text before it counts |
| `ResponseBuffers.Buffers.StoreToken` | src/http_app.c:216-226 | strstr, strchr, strncpy and the terminator on the token buffer leave exactly the extracted token, or the buffer as it was |
| `ResponseBuffers.Buffers.ResponseCallback` | src/http_app.c:207-231 | one call on the buffer is one fragment of the specification |
| `ResponseBuffers.Buffers.DeliverFragments` | src/http_app.c:301-301 | the calls of one response are the fold over its fragments |
| `ResponseBuffers.Buffers.Receive` | src/app_bk.c:695-704 | the loop ends; `off` is the length of the stream and the buffer prefix is the stream, for every way of cutting it into reads |
| `ResponseBuffers.Buffers.ReceiveToken` | src/app_bk.c:695-727 | the token depends on the stream only; a stream that fills the buffer loses its last character; a failed receive changes no token |
| `RequestText.DecimalRoundTrip` | src/app_bk.c:680-684 | parsing a printed length gives it back |
| `RequestText.HeadRoundTrip` | src/app_bk.c:768-776 | splitting at the first blank line gives back the lines and the body, for all lines without a line break |
| `RequestText.SentHeadExactly` | src/app_bk.c:768-776 | of a request cut to the send buffer the recipient has all lines and the body sent so far iff the head fits, otherwise nothing |
| `RequestText.DataFramingExactly` | src/app_bk.c:768-776 | for every token, also one with line breaks: taking Content-Length characters after the blank line of the text sent gives back the payload iff the head as the recipient sees it fits, its first length field tells the payload's length, and the text sent after it begins with the payload |
| `RequestText.PlainFramingExactly` | src/app_bk.c:768-776 | for a token without a line break that is: iff the text fits the send buffer |
| `RequestText.LoginFramingExactly` | src/app_bk.c:671-684 | the same for the login request |
| `RequestText.BearerExactly` | src/app_bk.c:768-776 | the Authorization field of the text sent yields back the token iff the token holds no line break and the head with its blank line fits the send buffer |
| `RequestText.DataRequestAsks` | src/app_bk.c:768-776 | for a token without a line break the recipient reads a head iff it fits the 2047 characters, and then six lines: the request line of the data endpoint, host, bearer token, JSON content type, length and close |
| `RequestText.LoginRequestAsks` | src/app_bk.c:676-684 | the same for the login request and its form content type |
| `RequestText.TokenAddsItsLength` | src/app_bk.c:768-776 | each token character takes one character of the buffer |
| `HexKey.BytesFromStr` | src/app.c:256-274 | returns 0 iff the length is exactly twice the array's, and then the array is the decoding; otherwise the array is untouched |
| `HexKey.LogKey` | src/app.c:290-293 | the two-digit loop prints the printed form of the key |
| `HexKey.DecodePrint` | src/app.c:256-293 | decoding the print of any bytes gives them back |
| `HexKey.PrintDecodeExactly` | src/app.c:256-293 | printing the decoding gives the lower-case string iff the string is all hex digits |
| `HexKey.PairValueExactly` | src/app.c:267-271 | what any two characters decode to, sign, white space and stray characters included |
| `HexKey.DigitTable` | src/app.c:267-293 | the sixteen digits by place, in print and in either case when read |
| `HexKey.DigitsOnly` | src/app.c:267-271 | no other character counts as a digit |
| `HexKey.NotAKeyIsAccepted` | src/app.c:256-274 | the call on a string with signs returns 0 and fills the array, though the string is no key |

## Left out

- What the status query answers and logs, the printing of the DHCP address, the LED code and the start-up
  code that registers callbacks and certificates: no effect on the modelled state.
- The variants without the readiness library: the thread then starts at the connect request and sleeps
  for ever after a success.
- Kernel, DNS, TLS, sockets and the HTTP client library: their answers are parameters. A failing call
  reports a positive errno, and a new descriptor is not one that is open already.
- `src/wifi/http_app.c` repeats `src/http_app.c` line by line and is modelled once.
- The connection code of `src/app_bk.c` that repeats `src/app.c`, and its callbacks that close the socket
  themselves.
- A compiler that merges the two bit-field clears into one access, or caches the byte across them.
- The statements after the HTTP call in the preemptible thread (`src/wifi/wifi_sta.c:292-298`): they
  follow an endless loop.
- The disabled code of `src/http_app.c:359-542`.
- Buffer overruns: capacities are preconditions (token shorter than 2048, stream at most 4096). The
  one-past-the-end terminator of the callback's local copy and the 1500-byte header buffer are not
  modelled.
- Wrap-around of `bytes_len * 2`, and a `char` that is signed, which would print differently.
- The credentials and the JSON payload themselves: the framing is proved for every body.
- HexKey.LogKey: the log framework's line breaks between digits are not modelled.
