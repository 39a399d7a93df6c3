# Big Brother: a Dafny model of the relay, the agent and the controller's side of their contract

The system has three programs. An *agent* on each managed machine keeps one outbound connection to a *relay*. A
*controller* posts actions to the relay over HTTP; the relay forwards them over the agent's connection and returns the
answer. This project models the parts where these programs depend on each other and proves what they guarantee
together: which command's output a controller call gets back, what survives crashes and reconnects, and when the two
sides of a check agree.

`dafny verify dfyconfig.toml` checks everything.

## How it is built

Interleavings are state machines over values: a run is a list of events, `Enabled` says when an event may happen,
`Step` what it does, and the theorems quantify over every run. Code that updates objects or loops over input is also
written as classes and methods with loops; their contracts equate the new state with the same functions the machines
step with.

| file | what it holds |
|---|---|
| `Common`, `Text`, `Wire` | counting in sequences; Go's string functions; the two message types and command results |
| `Waiters`, `Session` | the `responses` table and the relay half of a session, against an arbitrary agent |
| `Delivery` | which message a call receives and which call is listed, exactly and on every run |
| `History` | what a state records, event by event, and how calls come to their ends |
| `IdReuse` | the same when calls that share an id never overlap |
| `Connection`, `Conservation` | the relay half joined to the coded agent by two FIFO wires, from the handshake on |
| `Matching`, `StaticId`, `SampleRuns` | whose result a call returns, exactly; one run where it is its own, two where it is not, and one where a waiting call is unlisted |
| `AgentSession`, `AgentLoop` | the session object and the agent's dispatch loop as imperative code, tied to the machines |
| `Base64`, `Handshake` | the signed greeting and the relay's checks |
| `Provisioning`, `RelayRun`, `RelayProcess` | tokens, device map and file; the session registry; the relay's globals as a class |
| `EndToEnd` | the relay with one connection behind every registered handler, and controller requests that use them |
| `KeyAgreement`, `AgentProcess` | agent and relay over crashes, lost replies and restarts; the agent's provisioning code |
| `SetupTokens`, `Bearer`, `RelayUrl`, `Backoff` | token text, controller token, relay address, reconnect pauses |

## What the proofs show

* **Matching.** The handlers always pass the id "1" to `sendRequest`, and nothing keeps their calls apart. On every
  run, however ids are reused and calls overlap, the exact condition for a call to return its own command's result is
  proved (`OwnExactlyWhenAllAnswered`): the requests with its id written ahead of its own are as many as the responses
  with that id already looked up when it registered. The relay knows both numbers when it writes the request. For calls
  that do not overlap this says that nothing was owed at registration (`OwnExactlyWhenNothingOwed`), which always holds
  while no `exec` times out (`StaticIdGetsOwn`); and a call whose id no other call uses always gets its own
  (`FreshIdGetsOwn`). `LateAnswerGoesToTheNextCall` and `OverlappingCallsMix` are complete runs in which a call returns
  another command's output.
* **Waiters.** The table lists only calls in flight (`NoLeakedWaiters`), but not all of them: a call is listed exactly
  until another call with its id registers or finishes (`ListedExactlyWhileUndisturbed`). In `OverlappingDeleteUnlists`
  the deferred delete of one call leaves another one waiting with an empty table. Without overlaps the table is exactly
  the calls in flight (`TableIsCallsInFlight`).
* **End to end.** With any number of devices, reconnects and controllers, a result returned for a device was computed
  on a connection whose greeting verified under the key then registered for that device, by a command that an `exec`
  request of some controller asked for on the same device, even if the session was unlisted in the meantime
  (`ResultsComeFromTheDevice`). Other actions never make a device run anything (`OnlyExecRuns`).
* **lock and locate.** The project's own documentation lists lock and locate as forwarded actions. The agent's dispatch
  knows only `exec` and `ping`, so such a call never gets an answer of its own; it times out, or picks up a late
  answer to an earlier `exec`. The model follows the code.
* **Clock window.** The documentation says the relay accepts timestamps within two minutes either way. Because the
  timestamp drops fractions of a second, the relay's clock may run 120 s behind but only 119 s and one nanosecond ahead
  at every signing instant (`ToleratedSkew`).
* **Controller token.** The relay lets in exactly the requests that carry its token behind the prefix. Its reply for a
  missing token can never be given: a header that holds the prefix alone loses its last space when it is trimmed, and is
  answered as one of the wrong form (`AuthorizesExactlyWhen`).
* **Registry.** What is listed for a device is always live, and is exactly the handler whose registration is the last
  event about that device; but a reconnect before the old handler's cleanup leaves a live connection unlisted
  (`RegistryIsLive`, `ReconnectCanUnlist`).
* **Replay.** Sessions registered with the same signed text are of the same device and time, and admitted within 240 s
  of each other (`SameTextSameSession`).
* **Keys.** Over crashes at any point, late and repeated deliveries and relay restarts, the relay never holds a key for
  the device, in memory or in its file, other than the one the agent would load (`KeysAgree`). An explicit
  re-provisioning can break this, whether its request is handled, lost or still under way. `ReprovisionAgreesIff` says
  exactly when memory and file agree with the agent right after it, and `ReprovisionAgreesForeverIff` exactly when they
  go on agreeing whatever restarts and late deliveries of old requests follow. A working keyring keeps the key out of the
  fallback file (`PlacesLeftAlone`), and the automatic path never replaces a key (`KeyNeverReplaced`).

## Model

| member | source | states |
|---|---|---|
| Wire.CommandResult | agent/runtime.go:178-212 | exit code 0 is reported exactly for a non-empty command that succeeded, and exactly when there is no error text; a deadline gives 124, a failed exit its own status, a shell that did not run 1, each with its error text; the output is always passed on; an empty command is refused |
| Wire.ResultTellsEnding | agent/runtime.go:196-212 | the result tells how the shell ended, up to a deadline and an exit with 124, and a shell that did not run and an exit with 1 |
| Session.InjectiveDelivery | relay/main.go:80-125 | whatever the agent sends and however ids are reused, a call returns only a response with the id it asked for, and no two calls return the same message |
| Session.ReaderNeverBlocks | relay/main.go:105-132 | a running reader always has an enabled step unless it waits for a message |
| Session.NoLeakedWaiters | relay/main.go:82-90 | every listed id belongs to a call between registration and deferred delete; with no call in flight the table is empty |
| Session.RunKeepsInv | relay/main.go:75-133 | table, reader, channels and written requests stay consistent over every run with an arbitrary agent |
| Delivery.RunKeepsDelivery | relay/main.go:75-133 | on every run, whatever the agent sends and however calls overlap, the first message to reach a call is the first with its id looked up after it registered, and the table is what its history of registrations and deletes says |
| Delivery.CallsGetTheFirstAnswer | relay/main.go:96-125 | the message a call returns is the very first response with its id not yet looked up when it registered, on every run |
| Delivery.ListedExactlyWhileUndisturbed | relay/main.go:82-90 | on every run a call is listed exactly when, since its own registration, no call with its id has registered or finished |
| History.RecordsAreTheRun | relay/main.go:75-133 | calls, written requests, incoming messages, lookups read and the table's history are, in order, those of the run's events |
| History.OutcomesHaveCauses | relay/main.go:92-101 | over every run a call has failed its write, received or timed out exactly when that happened in the run, at most one of them did, and the outcome stays with it to its end |
| History.CallsCanEnd | relay/main.go:86-101 | whatever state a call is in, it can end within two steps of its own |
| History.NextAnswerIsDelivered | relay/main.go:96-125 | a listed waiting call with an empty channel can take the very next message if that is a response with its id, and end with it |
| History.AgentRecordsAreTheRun | agent/runtime.go:149-175 | requests taken and commands run, with the results their endings give, are those of the run's events; the agent is gone exactly after dying or failing to greet or to answer |
| IdReuse.RunKeepsAloneInv | relay/main.go:75-133 | when calls sharing an id do not overlap, moreover, every call in flight is listed and its own request is the only one with its id that can be written |
| IdReuse.TableIsCallsInFlight | relay/main.go:82-90 | on such runs the table is exactly the calls in flight, each under its own id |
| Connection.RunKeepsInv | agent/runtime.go:131-175 | over every joint run, per id and in total, answers written balance requests served, and the n-th response carries the id and result of the n-th run |
| Conservation.ExecsAreConserved | agent/runtime.go:150-174 | while the connection lasts, each `exec` written is queued at the agent, being served, answered and queued, or answered and read; counted per id and in total |
| Conservation.BrokenConnectionLosesAtMostOne | agent/runtime.go:166-168 | a connection that ended, at whatever moment, has lost at most the answer the agent was working on |
| Conservation.ResponsesFollowRequests | agent/runtime.go:159-168 | the n-th response answers the n-th `exec` written: same id, that command's one result, code 0 exactly without error text |
| Conservation.HandOverLosesNothing | relay/main.go:352-432 | when the relay replaces its handshake decoder the agent has sent only its greeting, so no response is swallowed |
| Matching.TookAnswer | relay/main.go:112-128 | the response a call returned answers a request with its id, at the same place among the answers of that id |
| Matching.RunsInOrder | agent/runtime.go:150-161 | each written request is run at most once, in the order written |
| Matching.FreshIdGetsOwn | relay/main.go:75-133 | end-to-end matching for a call whose id no other call of the session uses, over every interleaving |
| Matching.OwnByCounts | relay/main.go:75-133 | in any reachable state, an `exec` that returned a response returned its own if and only if the requests with its id written ahead of it equal in number the responses with its id looked up before it registered |
| Matching.OwnExactlyWhenAllAnswered | relay/main.go:285-347 | the same over every run from the start, however ids are reused and calls overlap; other actions never return a result of their own |
| Matching.OwnExactlyWhenNothingOwed | relay/main.go:285-347 | for calls that share an id but do not overlap the condition is that nothing with the id was owed at registration; other actions return a response only when something was |
| StaticId.RunKeepsClean | relay/main.go:301-346 | while no `exec` with an id has timed out, nothing with that id is owed at any registration, nor when the id is idle |
| StaticId.StaticIdGetsOwn | relay/main.go:301-346 | with calls one at a time and no `exec` timing out, only `exec` calls return responses, and each its own |
| SampleRuns.OneCallGetsItsResult | relay/main.go:285-307 | for every command and every way its shell can end there is a run that returns that result to its caller |
| SampleRuns.LateAnswerGoesToTheNextCall | relay/main.go:96-101 | a run with calls one at a time in which a call after a timeout returns the earlier command's result |
| SampleRuns.OverlappingCallsMix | relay/main.go:82-84 | a run with two overlapping calls in which one returns the other's result |
| SampleRuns.OverlappingDeleteUnlists | relay/main.go:86-90 | a run with two overlapping calls in which the first one's deferred delete leaves the second waiting and the table empty |
| AgentSession.Channel.TrySend | relay/main.go:122-125 | a full channel keeps its message, an empty one takes the new one |
| AgentSession.AgentSession.constructor | relay/main.go:64-72 | a new session has no waiters |
| AgentSession.AgentSession.Register | relay/main.go:80-84 | a fresh empty channel is listed under the id, displacing any other |
| AgentSession.AgentSession.Deregister | relay/main.go:86-90 | the id is unlisted, whoever is listed there; channels stay |
| AgentSession.AgentSession.Deliver | relay/main.go:112-131 | one message goes to the channel listed under its id, or nowhere |
| AgentSession.AgentSession.ReadLoop | relay/main.go:105-133 | a batch of messages has the effect of dispatching them in order |
| AgentSession.AgentSession.TakeFrom | relay/main.go:96-98 | receiving returns the buffered message and empties the channel |
| AgentSession.AgentSession.Encode | relay/main.go:92-94 | a successful write adds the request to what was written |
| AgentSession.AgentSession.Wait | relay/main.go:96-101 | the select yields what dispatching the arrivals left in the call's channel and empties it, or, if the timer is chosen, nothing, and leaves the channel |
| AgentSession.AgentSession.SendRequest | relay/main.go:75-102 | the request is written once, or not at all if the write fails or its id is empty; the call returns the earliest arriving response with its id, exactly when there is one, the write worked and the timer was not chosen; otherwise exactly the missing-id, write or timeout error; and it leaves the table as described by AfterSend |
| AgentSession.AfterSend | relay/main.go:80-98 | after a call its id is unlisted, all other listings stand, and its channel is empty unless the timer was chosen |
| AgentSession.TimerLeavesAnswer | relay/main.go:96-101 | when the timer is chosen, the first answer stays in the abandoned channel |
| AgentSession.FirstForIsFirst | relay/main.go:96-98 | what FirstFor picks is the earliest response with the id |
| AgentSession.NewWaiterGetsFirst | relay/main.go:80-125 | a newly registered call's channel ends with the first response that carries its id |
| AgentSession.ReachableBuffersOk | relay/main.go:82-125 | in every reachable state channels hold only messages that arrived, so the three rows below apply there |
| AgentSession.LookUpDecides | relay/main.go:112-128 | the machine's lookup goes on to send exactly when the object's Deliver would |
| AgentSession.LookUpThenSendIsDispatch | relay/main.go:118-125 | the machine's lookup and send steps together are the object's Deliver |
| AgentSession.CallStepsAreSections | relay/main.go:82-98 | the machine's begin, finish and receive steps are the object's Register, Deregister and TakeFrom |
| AgentLoop.ServeAnswersRequests | agent/runtime.go:158-173 | exactly one response per `exec`, in order, with its id and the result of its command, one Pong per `ping`, and none for anything else |
| AgentLoop.HandleConnection | agent/runtime.go:131-175 | the loop writes a prefix of greeting and answers, as long as writes succeed, and fails exactly when a greeting or response is among what it could not write or reading ended in another error than end of file |
| AgentLoop.MachineServesQueue | agent/runtime.go:149-174 | the machine's agent steps can serve any queue and leave on the wire what the loop writes |
| AgentLoop.AgentFollowsLoop | agent/runtime.go:131-175 | from any state in step with the loop, every run of the machine stays in step with it |
| AgentLoop.EveryRunFollowsLoop | agent/runtime.go:131-175 | conversely, on every joint run the agent has written exactly what the loop writes on the requests it is done with, for some endings of the commands, short only of last Pongs it could not write |
| Base64.RoundTrip | agent/runtime.go:141-142 | decoding an encoding returns the bytes, for every length (section 4 of RFC 4648) |
| Base64.EncodeInjective | relay/main.go:421-422 | equal key texts mean equal keys |
| Base64.DecodesExactlyWhen | relay/main.go:387-403 | exactly the texts that without line breaks are whole groups with proper padding decode, and they are the encoding of the result but for spare bits |
| Handshake.HonestAgentVerdict | relay/main.go:378-426 | the relay's verdict on an honest greeting depends only on a non-empty id, the clocks and the registered key |
| Handshake.HonestAgentAccepted | relay/main.go:378-426 | a registered honest agent passes whenever relay minus agent clock lies in [-120 s, 119 s] |
| Handshake.SkewVerdict | relay/main.go:410-418 | a registered agent is accepted exactly when the clock skew plus the fraction of a second its timestamp dropped stays within 120 s |
| Handshake.ToleratedSkew | relay/main.go:410-418 | the exact clock skews with which a registered agent is accepted at every signing instant |
| Handshake.SameTextSameClaim | relay/main.go:404-418 | two signed texts that are equal and were both proven name the same device and time, and the clock readings that admitted them lie within 240 s |
| Handshake.RegistrationIsCheckedLast | relay/main.go:404-425 | the registered keys influence the verdict only on a greeting that passed every other check |
| Handshake.SplitAtLastBar | relay/main.go:404 | text joined by a bar splits one way when the second part holds none |
| Handshake.AcceptedTextIsUnambiguous | relay/main.go:404-418 | the same for two accepted greetings, whatever devices were registered at either time: a greeting can be replayed for at most 240 s |
| Provisioning.TokensLeft | relay/main.go:257-265 | the tokens left in a relay run are the loaded ones nobody has presented |
| Provisioning.AcceptedExactlyOnce | relay/main.go:257-275 | a request is accepted exactly when it is the first to present its device's loaded token; the reply then tells whether the save worked |
| Provisioning.KeyAfter | relay/main.go:265-266 | a device's key after any requests is that of its first valid one, or else the loaded one |
| Provisioning.KeyChangesAtMostOnce | relay/main.go:257-266 | within a relay run a device's key changes at most once |
| Provisioning.TokensConserved | relay/main.go:257-273 | acceptances, failed saves included, number the loaded tokens minus those left; known devices only grow |
| Provisioning.DurableStays | relay/main.go:487-523 | a key in memory and on disk stays there through any requests and crashes that do not accept another for its device |
| Provisioning.AcceptedKeyIsDurable | relay/main.go:251-276 | a key answered with 200 survives every later crash until the next acceptance for its device |
| Provisioning.LaterSaveCatchesUp | relay/main.go:265-272 | after a failed save the key stays in force and the next successful save makes it durable |
| Provisioning.DiskIsSomePastMap | relay/main.go:507-523 | the device file always holds a map the relay once had in memory |
| RelayRun.RegistryIsLive | relay/main.go:420-436 | over overlapping reconnects: listed handlers are live, the listed one is that of the device's last registry event, and none is listed when all are gone |
| RelayRun.ApartMeansListed | relay/main.go:420-436 | from any state: while a device's connections do not overlap it stays listed exactly while live |
| RelayRun.NeverOverlappingIsListed | relay/main.go:420-436 | a device whose connections never overlap is listed exactly while its handler is between registration and cleanup |
| RelayRun.ReconnectCanUnlist | relay/main.go:427-436 | with any accepted greeting, an early reconnect leads to a live handler that is not listed |
| RelayRun.RunKeepsAuthority | relay/main.go:378-428 | every handler was registered with all fields there, a verified signature, a timestamp that parsed and was recent by both clock readings, and the key then in the device map |
| RelayRun.RecordsAreTheRun | relay/main.go:251-436 | every provision request of the run is applied in order, there is one handler per greeting that passed the checks against the device map of that moment, its stage tells what has happened to it, and the registry's history is theirs |
| RelayRun.SameTextSameSession | relay/main.go:404-428 | over a whole run, sessions registered with the same signed text are of the same device and time, registered within 240 s of each other |
| RelayRun.RegisteredKeysAreTraceable | relay/main.go:258-428 | every session's key came from the loaded file or from the first request of the run with the device's loaded token |
| RelayProcess.Relay.StartUp | relay/main.go:136-159 | the process starts exactly when the device file can be loaded or is missing, a named token file can be loaded, and the controller token is not blank; it then holds the file's devices, and the token file's entries overridden by the variable's |
| RelayProcess.Relay.constructor | relay/main.go:39-49 | before anything is loaded all tables are empty |
| RelayProcess.Relay.LoadDevicesFromFile | relay/main.go:488-504 | the device map becomes the file's, or stays when there is no file; an unreadable or malformed file is an error and changes nothing |
| RelayProcess.Relay.LoadSetupTokensFromFile | relay/main.go:526-539 | the file's entries are added over the table; a missing, unreadable or malformed file is an error and changes nothing |
| RelayProcess.Relay.LoadSetupTokensFromEnv | relay/main.go:469-485 | the loop adds what the token text means |
| RelayProcess.Relay.SaveDevicesToFile | relay/main.go:507-523 | the file becomes the whole device map, or stays and the error is reported |
| RelayProcess.Relay.HandleProvision | relay/main.go:251-276 | tokens, devices, file and reply change as in Provisioning |
| RelayProcess.Relay.Admit | relay/main.go:350-429 | a fresh session is listed for the device exactly when every check passes |
| RelayProcess.Relay.CleanUp | relay/main.go:434-436 | the device's entry is deleted whoever is listed there |
| RelayProcess.Relay.HandleAction | relay/main.go:285-347 | refused exactly without the controller token, offline exactly without a session; otherwise one request with the given action and command and the id "1" on the listed session, answered with the earliest response that carries the id, or the write or timeout error in exactly the other cases |
| EndToEnd.RunKeepsInv | relay/main.go:285-436 | over every run of the joined relay, each session's connection keeps its invariants, every found session is one of the device asked for, and every call of a session belongs to exactly one controller request |
| EndToEnd.EndedHandlersHaveStopped | relay/main.go:432-436 | a handler past its read loop has a reader that stays stopped, so its session dispatches nothing more |
| EndToEnd.TasksStemFromFinds | relay/main.go:285-346 | each controller request under way is the one of its event in the run: its device, action and command, on the session listed for the device at that moment |
| EndToEnd.RelayIsARun | relay/main.go:251-436 | the relay inside is a run of RelayRun on its own events |
| EndToEnd.ConnIsARun | relay/main.go:75-133 | each connection inside is a run of Connection on its own events |
| EndToEnd.OnlyExecRuns | relay/main.go:325-346 | without an `exec` request for a device, whatever lock, locate or other requests there are, none of its connections ever runs a command |
| EndToEnd.ResultsComeFromTheDevice | relay/main.go:291-307 | a result returned for a device was computed on a connection whose greeting had verified under the key then registered for it and that was listed when the request found it, by a command that an `exec` request in the run asked for on the same device, listed or not by then |
| EndToEnd.NoResponseReturnedTwice | relay/main.go:121-125 | no response message is returned to two controller requests |
| EndToEnd.TaskGetsItsOwnExactlyWhen | relay/main.go:301-307 | the matching condition for a controller's `exec`, on the session it found |
| KeyAgreement.StoredKeyIsLoaded | agent/provision.go:139-199 | a key stored when none could be loaded is what later loads return, from keyring or file |
| KeyAgreement.StoreGoesTo | agent/provision.go:139-152 | a key goes to a keyring that works and nowhere else; otherwise to the permitted file and nowhere else; otherwise nowhere, with an error |
| KeyAgreement.LoadsExactlyWhen | agent/provision.go:169-185 | an enabled keyring with an entry decides, even one that does not decode; otherwise the permitted file |
| KeyAgreement.RunKeepsInv | agent/provision.go:26-96 | at every point of every run the agent's step, its key store, its sent registrations and the relay's stores fit together |
| KeyAgreement.KeysAgree | agent/provision.go:26-36 | crash-safe key agreement over all runs of the automatic path |
| KeyAgreement.PlacesLeftAlone | agent/provision.go:139-152 | over every run a disabled keyring never changes, nor the key file where it is not permitted or as long as an enabled keyring works |
| KeyAgreement.KeyNeverReplaced | agent/main.go:76-82 | over every run of the automatic path, once a key can be loaded the key stores stay as they are |
| KeyAgreement.StoreFollowsRequests | relay/main.go:251-276 | until the relay restarts, its store is what the requests that reach it make of it, own and foreign, in order |
| KeyAgreement.FreshAgentGetsServing | agent/provision.go:26-36 | from any state with no key and an unspent token, a first start can lead to serving with the fresh key, registered and on disk |
| KeyAgreement.FailureIsFatal | agent/main.go:55-72 | an agent that is up has neither died nor failed to register since its last start |
| KeyAgreement.AgentComesBack | agent/main.go:64-73 | from any state with a loadable key, a restart leads to serving with it and changes nothing else |
| KeyAgreement.KnownAgentConnects | agent/runtime.go:48-147 | a running agent whose device the relay knows passes the handshake within the clock window |
| KeyAgreement.SyncErrsExactlyWhen | agent/provision.go:66-96 | a registration succeeded exactly on status 200; a sync with a token reports any other reply or network error, unless its text says that the token was invalid |
| KeyAgreement.SyncReports | agent/provision.go:85-96 | with the relay's own replies, a sync that reached it reports an error exactly when the relay could not save |
| KeyAgreement.DeliveryRegisters | relay/main.go:257-275 | with the token unspent, delivering any registration the agent ever sent makes the agent's key the registered one, spends the token, and writes the file if the save works |
| KeyAgreement.RestartThenSync | agent/runtime.go:103-107 | after a relay restart, file kept or lost, one delivered sync brings the device back in memory and on disk; the other devices are those of a kept file |
| KeyAgreement.AnyDeliveryConverges | agent/provision.go:85-96 | with the token unspent, on every run without a relay restart in which any registration is delivered at any point, the relay ends up with the key the agent would load, even if no save succeeds |
| KeyAgreement.FurtherSyncsChangeNothing | relay/main.go:257-264 | with the token spent, no request changes the device's key until a restart, and each is a rejection the agent takes for success |
| KeyAgreement.ReprovisionAgreesIff | agent/main.go:55-62 | exactly when relay memory and device file agree with the agent right after an explicit re-provisioning, its request handled, under way or never sent |
| KeyAgreement.ReprovisionAgreesForeverIff | agent/main.go:55-62 | exactly when they also agree for good, through relay restarts and late deliveries of every request ever sent |
| AgentProcess.Agent.constructor | agent/provision.go:139-199 | an agent starts from the key entries the machine already has |
| AgentProcess.Agent.StorePrivateKey | agent/provision.go:139-152 | the keyring entry decodes to the key and the file is untouched if the keyring works; otherwise the permitted file is the key and the keyring untouched; otherwise both are untouched, with an error |
| AgentProcess.Agent.LoadPrivateKey | agent/provision.go:169-185 | a keyring entry decides, then the file where allowed |
| AgentProcess.Agent.RegisterPublicKey | agent/provision.go:39-81 | the relay handles the request if it arrives; the error tells what the agent sees |
| AgentProcess.Agent.Provision | agent/provision.go:26-36 | the relay learns only a stored key, which later loads return wherever it lands where they look first; success means registered and saved; with or without an earlier key |
| AgentProcess.Agent.EnsureProvisioned | agent/main.go:76-82 | a loadable key means nothing is done; success means a key can be loaded, unless a malformed keyring entry hides the file the fresh key went to |
| AgentProcess.Agent.SyncProvisionedDevice | agent/provision.go:85-96 | nothing is sent for a blank token; otherwise as SyncReports, and a fitting token registers the key |
| SetupTokens.PieceRoundTrip | relay/main.go:475-483 | a printed entry parses to itself |
| SetupTokens.ParsesExactlyWhenPadded | relay/main.go:471-483 | a piece gives an entry exactly when it is that entry with white space around its parts |
| SetupTokens.SkippedExactlyWhen | relay/main.go:471-483 | a piece gives nothing exactly when it has no equals sign or a blank side |
| SetupTokens.PaddedEntriesLoad | relay/main.go:468-485 | a list of entries with white space anywhere around ids and tokens loads to exactly those entries in order |
| SetupTokens.PrintedEntriesLoad | relay/main.go:469-485 | loading printed entries writes exactly them, the last of duplicates winning |
| SetupTokens.TableRoundTrip | relay/main.go:145-151 | every expressible table, printed in any order, loads to itself over the file's other entries |
| SetupTokens.ParsedPieceIsExpressible | relay/main.go:475-483 | whatever parses is an expressible entry |
| SetupTokens.EveryTextHasANormalForm | relay/main.go:469-485 | every text, however malformed, means the same as some list of printed entries |
| Bearer.Request.Authorize | controller/main.go:618-620 | the header is the trimmed token behind the prefix, and absent for a blank token |
| Bearer.AuthorizesExactlyWhen | relay/main.go:550-575 | for every header and configured token: let in exactly when the token is not empty and the trimmed header is the prefix and a text that trims to it; and which refusal every other header gets |
| Bearer.TokenAgrees | controller/main.go:618-620 | the header a controller sends for any token is let in exactly when the token and the relay's are equal, both trimmed |
| Bearer.AgreesOnToken | relay/main.go:550-575 | a controller's own header is let in exactly when the two trimmed tokens are equal, and which error it gets otherwise |
| RelayUrl.NormalizeMeans | controller/main.go:93-102 | a blank address becomes the local relay's; any other is trimmed, keeps its scheme or gets the plain one, and loses exactly its trailing slashes |
| RelayUrl.StableIsCanonical | controller/main.go:93-102 | a stable address normalises to a scheme and a host without trailing slash or space |
| RelayUrl.UnstableChanges | controller/main.go:93-102 | any other address changes again when normalised twice |
| RelayUrl.TwiceIsOnceExactlyWhenStable | controller/main.go:398-414 | the GUI's double normalisation is harmless exactly for stable addresses |
| Backoff.Reconnect | agent/runtime.go:103-127 | each dial is followed by its pause: two seconds after a connection, the streak's pause after a failure |
| Backoff.PauseIsCappedDoubling | agent/runtime.go:113-116 | the n-th failure in a row pauses min(2^(n-1), 30) seconds |
| Backoff.TotalPause | agent/runtime.go:112-116 | n failures in a row pause 2^n-1 seconds up to five, and 30 more each from then on |
| Backoff.FailuresAfterSuccess | agent/runtime.go:103-118 | both hold for the failures after any success, whatever came before it |

## Left out

- Sockets, TLS, certificates and HTTP plumbing: messages are whole, each write is one step, and a failed write has written nothing.
- Byte-level JSON, so also the 400 replies to malformed request bodies; a greeting frame only tells apart the cases the relay's code does.
- Two goroutines encoding to one connection at the same instant: each encode is taken as atomic, although the source does not lock the encoder.
- Ed25519 and calendar arithmetic: a signature scheme and a timestamp format are any that satisfy the stated laws.
- The 15 s timer: a waiting call may time out at any moment, also with its answer already buffered.
- AgentSession.AgentSession.SendRequest: is one call whose arrivals are dispatched while it waits; several calls at once are the business of Session, Connection and EndToEnd.
- RelayProcess.Relay.HandleAction: is one handler at a time on a session, like SendRequest; any number of them at once is the business of EndToEnd.
- RelayProcess.Relay.SaveDevicesToFile: takes a failed write to leave the old file; a truncated file is not modelled.
- EndToEnd.ResultsComeFromTheDevice: takes each connection from the end of its handshake, and lets a session be written to after its handler has returned, which only allows more runs than the source.
- Provisioning.AcceptedKeyIsDurable: a crash between save and reply is an accepted request followed by a crash; a crash before the save is a crash alone.
- KeyAgreement.KeysAgree: assumes a key store whose reads are faithful, environment flags that stay the same, and that nobody else presents the device's token; explicit re-provisioning is treated in ReprovisionAgreesIff and ReprovisionAgreesForeverIff.
- Backoff.Reconnect: leaves out the sync before each dial, which KeyAgreement has, and runs over the outcomes of finitely many dials.
- The choice of provisioning endpoint with its plaintext fallback, the shell and its time limit, Windows service control, installers, the GUI page and its request validation, command-line printing and the device listing, which would add only easy members.
