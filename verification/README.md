# Reconnecting WebSocket client and evidence reactor, modelled in Dafny

This project models two rule sets from a Tendermint node and proves properties
about them. Each is a sequential state machine lifted out of concurrent Go code.

**The reconnecting JSON-RPC WebSocket client** (`WSClient`, `rpc/jsonrpc/client/ws_client.go`):
- the request-identifier counter, and callers blocked in `Send` until the writer takes their request;
- the `reconnect` loop with its attempt counter, give-up bound and exponential backoff;
- the `reconnecting` flag and `IsActive`;
- the two one-slot queues, `backlog` and `reconnectAfter`;
- one step of `writeRoutine` and of `readRoutine` for each thing they can see;
- `processBacklog`, and the rule in `reconnectRoutine` that decides whether the worker pair restarts;
- the `sync.WaitGroup` that counts the workers.

**The evidence reactor** (`internal/evidence/reactor.go`):
- `processPeerUpdate`, a map from peer to closer plus a wait-group count;
- the deferred exit of `broadcastEvidenceLoop` and that loop's cursor rules;
- `OnStop`;
- `handleEvidenceMessage` / `handleMessage`;
- the error path of `processEvidenceCh`.

Goroutines, channels and timers become events. A client or reactor is an
immutable record. `Enabled(c, e)` says whether the `select` case an event
stands for is ready. `Step(c, e)` is what that case does. `Apply(c, events)`
runs a schedule and skips events that are not enabled.

A blocking send into a full one-slot channel is modelled by parking the
sending worker. A later `WriterUnpark` / `ReaderUnpark` event completes the
send once the slot is free.

Modules, one file each:

| module | file | what it is |
|---|---|---|
| `Options` | options.dfy | `Option` |
| `Backoff` | backoff.dfy | the backoff formula, int64 wrap-around, powers of two |
| `Reconnect` | reconnect.dfy | the `reconnect` loop on its own: verdict, dial count, waits |
| `WsClient` | ws_client.dfy | client state, the worker and coordinator steps, events |
| `WsInvariant` | ws_invariant.dfy | the invariant every client step keeps |
| `WsTraces` | ws_traces.dfy | properties of whole schedules and scenarios |
| `EvidenceMessages` | evidence_messages.dfy | `handleEvidenceMessage`, `handleMessage`, `processEvidenceCh` |
| `EvidenceBroadcast` | evidence_broadcast.dfy | one peer's broadcast loop |
| `EvidenceReactor` | evidence_reactor.dfy | peer map, wait group, `OnStop` |

### Behaviour worth knowing

- **Silent read errors.** A read error that is not an unexpected close makes `readRoutine` return without closing `readRoutineQuit` or queueing anything on `reconnectAfter` (ws_client.go:471-474). That covers a timeout or a broken socket, and also a close frame with the normal code 1000. The reader's deferred exit closes the connection (ws_client.go:443-450), so the writer keeps running on a closed connection. No reconnect starts until the writer's next request or ping fails and queues one. `WsTraces.NonCloseReadErrorStaysSilent` states the silent exit. The model takes each write's success as a free input, so it also allows writes that succeed after that close; every property proved holds for that larger set of runs as well.
- **Failed resend.** When resending the backlog fails, the client is not stopped. `processBacklog` queues the error on `reconnectAfter` and puts the request back (ws_client.go:326-331). `reconnectRoutine` then skips the worker restart and goes back to waiting. It takes that error at once and redials from attempt 0 (`WsTraces.ResendFailureRedialsAgain`).
- **Blocking signal.** The sends `reconnectAfter <- err` (ws_client.go:328, 406, 419, 478) are blocking sends into a one-slot channel; a second signal is never dropped. A second failing worker blocks until the coordinator takes the first signal; that is the parked state in the model.
- **Write order of concurrent callers.** `Call` takes its identifier under the mutex (ws_client.go:221, 240-246) and only later competes for the unbuffered `send` channel (ws_client.go:208). Two concurrent callers can therefore be written in the opposite order to their identifiers (`WsTraces.ConcurrentCallersMayBeWrittenOutOfOrder`). What does hold is that no identifier is written twice.
- **Misleading comments.** The comment at ws_client.go:33 says the first wait is 2 s, but the formula gives 1–2 s for attempt 0 (`Backoff.DefaultScheduleEnds`). The comment at ws_client.go:65 says the default is 25 attempts, but `DefaultWSOptions` sets 10.

## Model

| member | source | states |
|---|---|---|
| Backoff.BackoffNanos | rpc/jsonrpc/client/ws_client.go:281-282 | The wait before attempt k (counted from 0) lies in [2^k s, 2^k s + 1 s) for any jitter in [0, 1 s) |
| Backoff.BackoffStrictlyIncreasing | rpc/jsonrpc/client/ws_client.go:281-282 | A later attempt always waits strictly longer than an earlier one, whatever jitter each drew, and at least twice the earlier base |
| Backoff.DefaultScheduleEnds | rpc/jsonrpc/client/ws_client.go:31-37 | With the default options, the first wait is 1–2 s (not the 2 s the comment claims) and the wait before the last permitted attempt (attempt 10) is about 17 minutes (1024–1025 s) |
| Backoff.Int64 | rpc/jsonrpc/client/ws_client.go:282 | Go int64 arithmetic: the result is in range, congruent to the exact value modulo 2^64, and equal to it when no overflow happens |
| Backoff.AsWrittenAgreesUpTo33 | rpc/jsonrpc/client/ws_client.go:282 | Up to attempt 33 the int64 computation in the source equals the exact wait |
| Backoff.AsWrittenNegativeAt34 | rpc/jsonrpc/client/ws_client.go:282 | At attempt 34 the source's int64 product wraps: the wait is jitter − 1266874889709551616 ns, which is negative, while the intended wait is positive |
| Reconnect.AttemptStep | rpc/jsonrpc/client/ws_client.go:286-307 | One loop iteration: cancellation returns nil, a successful dial returns nil, a failed dial goes on to attempt+1 unless attempt equals the bound, when it returns an error. Each verdict holds exactly when its condition does |
| Reconnect.RunFromShape | rpc/jsonrpc/client/ws_client.go:279-308 | The whole loop: at most max+1−attempt dials; every iteration before the last one failed; a reconnect means the last dial succeeded; giving up means exactly max+1−attempt dials all failed |
| Reconnect.ScheduleBounds | rpc/jsonrpc/client/ws_client.go:281-285 | The i-th wait of the loop uses exponent attempt+i and lies in [2^(attempt+i) s, 2^(attempt+i) s + 1 s); up to exponent 33 it equals the source's int64 `backoffDuration` exactly, and at exponent 34 the source's value is negative while this one is not |
| Reconnect.FirstSuccessReconnects | rpc/jsonrpc/client/ws_client.go:292-300 | If dials 0..k−1 fail and dial k succeeds within the bound, the loop returns nil after exactly k+1 dials |
| Reconnect.ExhaustionGivesUp | rpc/jsonrpc/client/ws_client.go:303-307 | max+1 failed dials in a row make `reconnect` return an error after exactly max+1 dials |
| Reconnect.ReconnectLoop | rpc/jsonrpc/client/ws_client.go:264-309 | The loop as an iterative method agrees with the recursive definition: same verdict, dial count ≤ max+1 and waits; the `reconnecting` flag is lowered on every return path |
| WsClient.Start | rpc/jsonrpc/client/ws_client.go:153-176 | `Start` succeeds exactly when the first dial succeeds; then the client is active with two workers counted, both queues empty, request ids from 0 and the coordinator waiting |
| WsClient.StartAfterFailedDial | rpc/jsonrpc/client/ws_client.go:153-160 | When the first dial fails, `RunState.Start` has already succeeded: the client left behind is running and active, with no worker, no coordinator and nothing queued |
| WsClient.StartWorkers | rpc/jsonrpc/client/ws_client.go:311-316 | `startReadWriteRoutines` adds 2 to the wait group, opens a fresh `readRoutineQuit` and leaves the queues alone |
| WsClient.NextRequestId | rpc/jsonrpc/client/ws_client.go:240-246 | Returns the current counter and leaves it one higher; nothing else changes |
| WsClient.AllocateIds | rpc/jsonrpc/client/ws_client.go:240-246 | n successive calls return n strictly increasing ids, all at or above the old counter and below the new one |
| WsClient.CallBegins | rpc/jsonrpc/client/ws_client.go:219-226 | `Call` consumes exactly one id, whether or not its parameters encode; when they do, the caller is blocked in `Send` with that id and its method, and nothing else changes |
| WsClient.HandOff | rpc/jsonrpc/client/ws_client.go:206-213 | The writer takes the request of whichever blocked caller wins the `send` channel: that caller is no longer blocked, its request (id and method) is the one the writer accepted, and it is sent exactly when the write succeeds |
| WsClient.SendGivesUp | rpc/jsonrpc/client/ws_client.go:214-215 | A caller whose context ends first stops waiting; the writer never sees its request and nothing else changes |
| WsClient.WriterExit | rpc/jsonrpc/client/ws_client.go:386-394 | The writer's deferred exit closes the connection once and decrements the wait group once; nothing else changes |
| WsClient.WriteRequest | rpc/jsonrpc/client/ws_client.go:398-410 | A written request is recorded as sent. A failed write queues one error, moves the request to the backlog and exits the writer, or parks it if the signal slot is taken; it writes nothing and touches no response |
| WsClient.WritePing | rpc/jsonrpc/client/ws_client.go:411-425 | A successful ping updates `sentLastPingAt`; a failed one queues an error, adds nothing to the backlog and exits |
| WsClient.WriterSeesReaderQuit | rpc/jsonrpc/client/ws_client.go:426-427 | The reader-quit case exits the writer without signalling a reconnect or touching the backlog |
| WsClient.WriterSeesCancel | rpc/jsonrpc/client/ws_client.go:428-435 | The cancel case writes a close frame (when that succeeds) and exits without signalling |
| WsClient.WriterResume | rpc/jsonrpc/client/ws_client.go:406-408 | A parked writer finishes its blocked sends in order (error, then request) and then runs its deferred exit |
| WsClient.ReaderExit | rpc/jsonrpc/client/ws_client.go:443-450 | The reader's deferred exit closes the connection once and decrements the wait group once |
| WsClient.ReadStep | rpc/jsonrpc/client/ws_client.go:470-517 | Only an unexpected close closes `readRoutineQuit` and signals a reconnect. Any other read error ends the reader silently. Unparsable frames and bad ids change nothing. A valid response is delivered unless cancellation wins. The writer and backlog are untouched |
| WsClient.ReaderResume | rpc/jsonrpc/client/ws_client.go:477-479 | A parked reader queues its error and then runs its deferred exit |
| WsClient.TakeSignal | rpc/jsonrpc/client/ws_client.go:344-346 | The coordinator takes the oldest queued error and waits for the workers; queues and workers are otherwise untouched |
| WsClient.Join | rpc/jsonrpc/client/ws_client.go:264-269 | Once the wait group is empty, `reconnect` starts at attempt 0 with the flag raised, so the client is not active |
| WsClient.Stop | rpc/jsonrpc/client/ws_client.go:178-189 | `Stop` leaves the client not running; it closes ResponsesCh exactly when the client was running, and changes nothing else |
| WsClient.Redial | rpc/jsonrpc/client/ws_client.go:279-308 | One redial iteration: a failure below the bound bumps the attempt; the last failure stops the client; success lowers the flag and opens a fresh connection; cancellation lowers the flag and ends the coordinator |
| WsClient.ProcessBacklog | rpc/jsonrpc/client/ws_client.go:318-337 | It fails exactly when there is a backlogged request and its resend fails; either way the backlogged request is sent or still in the backlog, never lost or doubled. On success the backlog is empty and the request is the one frame added to the connection; on failure the same request is back and one resend error is queued; nothing else changes |
| WsClient.Resume | rpc/jsonrpc/client/ws_client.go:355-369 | After draining `reconnectAfter`, the workers restart (wait group +2) exactly when `processBacklog` succeeded; otherwise the wait group is unchanged and the resend error is queued |
| WsInvariant.StartEstablishes | rpc/jsonrpc/client/ws_client.go:162-172 | A freshly started client satisfies the invariant |
| WsInvariant.StepPreserves | rpc/jsonrpc/client/ws_client.go:339-518 | Every writer, reader and coordinator step keeps the invariant: one-slot queues, wait group = live workers, no request lost, no id shared by two accepted requests or by an accepted request and a blocked caller, `reconnecting` ⇔ redialling |
| WsInvariant.ApplyPreserves | rpc/jsonrpc/client/ws_client.go:339-518 | Any schedule of events, including any interleaving of concurrent callers, keeps the invariant |
| WsTraces.NoRequestLostOrDuplicated | rpc/jsonrpc/client/ws_client.go:404-408 | From a started client, under any schedule and any interleaving of callers, every request the writer took is written, in the backlog, or held by a parked writer, in the order the writer took them; no two written requests share an id, and every written id was handed out and belongs to no caller still blocked; each one-slot queue holds at most one item |
| WsTraces.ConcurrentCallersMayBeWrittenOutOfOrder | rpc/jsonrpc/client/ws_client.go:206-226 | Two callers that take ids n and n+1 can be written as n+1 then n: write order follows who wins `send`, not the id order |
| WsTraces.WaitGroupTracksWorkers | rpc/jsonrpc/client/ws_client.go:311-316 | From a started client, under any schedule, the wait group equals the live workers (0..2), every exit closed the connection once, redialling only happens with both workers gone, and `IsActive` ⇔ running and not redialling |
| WsTraces.FailedWriteKeepsRequest | rpc/jsonrpc/client/ws_client.go:404-410 | A failed write of a blocked caller's request leaves exactly that request in the backlog and exactly one error queued |
| WsTraces.BacklogIsFirstFrameAfterReconnect | rpc/jsonrpc/client/ws_client.go:318-369 | After a call whose write fails, a reader failure, one successful redial and a successful resend, the lost request is the first and only frame on the new connection and a new worker pair runs |
| WsTraces.ResendFailureRedialsAgain | rpc/jsonrpc/client/ws_client.go:326-331 | A failed resend keeps the request, does not restart the workers, does not stop the client, and the next coordinator steps redial from attempt 0 |
| WsTraces.GivingUpDeactivates | rpc/jsonrpc/client/ws_client.go:344-353 | The last permitted failed dial lowers the flag, stops the client and closes ResponsesCh |
| WsTraces.NonCloseReadErrorStaysSilent | rpc/jsonrpc/client/ws_client.go:470-474 | A non-close read error ends the reader without waking the writer or queueing a reconnect; the client still reports itself active |
| WsTraces.ResponsesInReadOrder | rpc/jsonrpc/client/ws_client.go:482-517 | Under any schedule of events, the responses added to ResponsesCh are exactly the valid frames the reader took, in the order it took them; unparsable frames, bad ids and a frame that lost to cancellation add nothing, and no other event adds or removes a response |
| WsTraces.AttemptsAfterReturnAreIgnored | rpc/jsonrpc/client/ws_client.go:279-308 | Once `reconnect` has returned, no further iteration happens |
| WsTraces.RedialFollowsLoop | rpc/jsonrpc/client/ws_client.go:339-354 | The coordinator's redial phase follows the `reconnect` loop iteration by iteration: still redialling, at the same attempt, exactly when the loop is; resuming exactly when it reconnected; stopped when it gave up |
| EvidenceMessages.HandleItems | internal/evidence/reactor.go:123-137 | The items handed to `AddEvidence` are distinct, in list order, and all convert |
| EvidenceMessages.CompletesIffNoStopper | internal/evidence/reactor.go:123-143 | The list loop completes with nil exactly when no item converts and is then rejected as invalid (or panics) |
| EvidenceMessages.StopsAtFirstStopper | internal/evidence/reactor.go:130-135 | An early end happens at the first invalid (or panicking) item. That item is the last one handed to the pool. An invalid item is reported by its own index |
| EvidenceMessages.SubmitsEveryConvertedItem | internal/evidence/reactor.go:123-131 | Every item before the stopping point that converts reaches `AddEvidence`; items that fail conversion are skipped and other add errors are ignored |
| EvidenceMessages.HandleEvidenceMessageEnding | internal/evidence/reactor.go:113-143 | `handleEvidenceMessage` returns nil exactly for an evidence list without a stopping item. Otherwise a list ends at its first stopping item, the last one handed to the pool, and an invalid-evidence error names that item's index. The unknown-message error is returned exactly for a message that is not a list, and those are the only two errors |
| EvidenceMessages.HandleMessage | internal/evidence/reactor.go:149-171 | `handleMessage` returns nil exactly on channel 0x38 with an evidence list without stopping items; another channel gives the unknown-channel error; a panic becomes a returned error |
| EvidenceMessages.ReportFor | internal/evidence/reactor.go:183-188 | A peer error is reported exactly when handling failed, naming the envelope's sender and carrying the handler's error |
| EvidenceMessages.ProcessEvidenceCh | internal/evidence/reactor.go:176-194 | The loop reports every handler error against its sender and returns exactly at the first cancellation or failed report; otherwise it consumes every envelope |
| EvidenceBroadcast.Step | internal/evidence/reactor.go:292-347 | A nil cursor takes the list front (staying nil for a nil front); a delivered send gossips the held element; the interval resets the cursor to nil; a next-available signal advances it; send failure, conversion panic, closer or cancellation exits |
| EvidenceBroadcast.ExitIsFinal | internal/evidence/reactor.go:276-290 | Once the loop has returned it takes no more events and gossips nothing more |
| EvidenceBroadcast.GossipsOnlySupplied | internal/evidence/reactor.go:296-338 | The loop gossips only elements it held or that the pool handed it in an event the loop actually took (the front while its cursor was nil, or a successor after a send); elements carried by events the loop was not waiting for do not count |
| EvidenceBroadcast.SendsBoundedBySupply | internal/evidence/reactor.go:322-347 | After each send the loop waits for the interval or the next element, so sends never outnumber the non-nil elements the loop actually took from the pool plus the one held |
| EvidenceBroadcast.FreshLoopSendsBoundedBySupply | internal/evidence/reactor.go:273-349 | A freshly started loop never sends more often than it took non-nil elements from the pool |
| EvidenceReactor.ProcessPeerUpdate | internal/evidence/reactor.go:213-244 | Up for an untracked peer while running adds exactly that entry and one wait-group count; Up for a tracked peer or after shutdown changes nothing; Down closes the existing closer without removing the entry; Down for an untracked peer and other statuses change nothing |
| EvidenceReactor.PeerStep | internal/evidence/reactor.go:276-281 | When a broadcast loop returns, its entry is deleted and the wait group drops by one; otherwise only that peer's loop state changes |
| EvidenceReactor.BeginStop | internal/evidence/reactor.go:94-99 | `OnStop` up to the wait: every tracked closer is closed, no entry is added or removed |
| EvidenceReactor.FinishStop | internal/evidence/reactor.go:101-106 | After the wait returns (wait group 0) the pool is closed |
| EvidenceReactor.StepPreserves | internal/evidence/reactor.go:222-239 | Every reactor event keeps the invariant: wait group = number of map entries, tracked loops still running, after shutdown every closer closed |
| EvidenceReactor.WaitGroupCountsPeers | internal/evidence/reactor.go:222-233 | From `OnStart` on, under any schedule, the wait-group count equals the number of tracked peer routines |
| EvidenceReactor.NoLoopStartsAfterStop | internal/evidence/reactor.go:214-220 | Once shutdown has begun, no later peer update starts a loop: tracked peers only disappear |
| EvidenceReactor.PeerExits | internal/evidence/reactor.go:276-281 | A peer whose closer is closed returns (after finishing an in-flight send), removing exactly its own entry and one wait-group count |
| EvidenceReactor.StopDrains | internal/evidence/reactor.go:94-106 | After `OnStop` closes every closer, the loops returning in any order empty the map and the wait group, so the wait returns and the pool can be closed |

## Left out

- WebSocket I/O and dialling (`dial`, the dialer, deadlines, ping/pong/close control frames) are abstract success/failure inputs. The close code of an unexpected close is kept; everything else about frames is not.
- JSON (un)marshalling and `validateResponseID` become a frame that is unparsable, parsed with a bad id, or parsed with a valid id.
- The random jitter is an input: a whole number of nanoseconds in [0, 10^9). The float64 arithmetic that produces it is not modelled.
- Timers, tickers and `time.Now` are events (`Tick(now, …)`, the end of a backoff wait, the ten-second broadcast interval) carrying the values they would produce.
- Logging, the ping/pong latency metrics and `SkipMetrics`: no behaviour depends on them.
- The `onReconnect` callback is started as a separate goroutine and never waited for, so it has no effect on the bookkeeping.
- The commented-out `sentIDs` tracking is not live code.
- The `RunState` internals behind `Start`/`Stop`/`IsRunning` are reduced to a `running` flag. `Stop` on a stopped client changes nothing.
- WsClient.Start: a failed first dial returns `None`. The client it leaves behind is modelled separately as `StartAfterFailedDial`, and no event sequence continues from it. In the source, `ResponsesCh` is made only after a successful dial (ws_client.go:162), so a later `Stop` on that client closes a nil channel at ws_client.go:186, which panics in Go. The model does not track whether `ResponsesCh` was made, so it does not represent that panic. `RunState` is not part of this model, so whether its `Stop` would refuse first cannot be read from the code at hand.
- `Stop` called by a user while workers are alive waits on the wait group in the source; the model applies `Stop` only on the give-up path, where the wait group is already empty.
- `CallWithArrayParams` differs from `Call` only in how the parameters are encoded, so `CallBegins` stands for both. `Send` called directly with a caller-built request is not modelled; its identifier would not come from the counter.
- Reconnect.ScheduleBounds: the waits it bounds are the intended, non-wrapping ones (`Backoff.BackoffNanos`). They equal the source's int64 waits only up to attempt 33; from attempt 34 on the source's wait wraps (see Findings), and the model does not follow it.
- Reconnect.ReconnectLoop: its `waits` are the intended, non-wrapping ones, equal to the source's only up to attempt 33 (see Reconnect.ScheduleBounds and Findings).
- WsClient.NextRequestId: ids are unbounded integers; the Go `int` counter would wrap after 2^63 calls, which is not modelled.
- When `processBacklog` fails, the freshly dialled connection is not closed by anyone; the model counts closes only for worker exits and does not track that leak.
- Evidence pool internals (`AddEvidence`, `EvidenceFromProto`/`EvidenceToProto`, the `clist` list) are abstract outcomes and element ids.
- The p2p `Channel` and `PeerUpdates` types are abstract. `Send` and `SendError` are success/failure inputs.
- `processPeerUpdates` is reduced to peer updates being accepted until it sees cancellation.
- EvidenceReactor.BeginStop: it assumes the service reports itself not running from the moment `OnStop` begins. That is what the comment at reactor.go:215-217 relies on; the service base class is not part of this model.
- `GetChannelDescriptor`, `maxMsgSize` and the channel buffer sizes are configuration only.
- Test assertion helpers built on wall-clock timeouts have no logic of their own.

## Findings

| source | as written | input that shows it | evidently intended | confidence | as-written member | corrected member |
|---|---|---|---|---|---|---|
| rpc/jsonrpc/client/ws_client.go:282 | `backoffDuration := jitter + ((1 << attempt) * time.Second)` is computed in int64 nanoseconds and overflows | `MaxReconnectAttempts` ≥ 34 and 34 failed dials: at attempt 34, 2^34 · 10^9 exceeds 2^63 and wraps to −1266874889709551616 ns, so `timer.Reset` gets a negative duration and the redial happens at once; later attempts give other wrapped values, and from attempt 64 on the shift gives 0 and the wait is only the jitter | The wait keeps growing as 2^attempt seconds (or is capped) | high (not executed) | Backoff.AsWrittenNegativeAt34 | Backoff.BackoffNanos |
