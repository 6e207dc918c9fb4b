# Verified model of the MCP gateway's core

The gateway turns OpenAPI documents and local MCP servers into tools that an agent can call, and
carries the calls through a relay. This project models its two hard parts and proves what they
promise for all inputs, all runs and all interleavings. `dafny verify dfyconfig.toml` checks it.

**The tunnel runtime** is concurrent, so it is modelled as state machines over atomic steps, next
to classes and methods that carry the source's variables and loops.

- `Bridge.dfy` is the stdio bridge: any number of HTTP handlers, one supervisor and a succession of
  child processes that may write anything at any time, crash and restart. `BridgeInvariant.dfy` and
  `BridgeSteps.dfy` hold the inductive invariant and its preservation, `BridgeRuns.dfy` and
  `BridgeLog.dfy` what grows along a run, `BridgeLines.dfy` what the lines to and from a child say and
  where they come from, `BridgeVerdicts.dfy` how requests are failed, `BridgeHandshake.dfy` what is
  known of a child that is served, `BridgeExits.dfy` which steps lose it, `BridgeTheorems.dfy` the
  promises. `Deaths.dfy` is the restart budget. `Supervisor.dfy` is the supervisor with its mutable map, deque and counter; each
  method is proved to carry out the matching piece of a bridge step.
- `ResponseFraming.dfy` and `ResponseStreams.dfy` are the writers of a relay session and the reader
  at the other end, with `Base64.dfy`; `Session.dfy` is the session loop and its request bodies;
  `Admission.dfy` the in-flight counter by itself, for any number of callers at once, and
  `SessionCalls.dfy` the way a session uses it: one accepting loop, many tasks, and the guard that
  ends them (`Counting.dfy` counts calls). `Reconnect.dfy` is the supervisor that dials again and
  again, with the history of everything it publishes and offers (`Powers.dfy`: its delays).

**The compiler and renderer** are transformations, proved against independent meanings.

- `Normalize.dfy` rewrites 3.0 schemas to 3.1; `SchemaMeaning.dfy` says when an instance is valid in
  either dialect; `NormalizeMeaning.dfy` proves that the two agree, and `NormalizeExactly.dfy` when
  exactly they do. `FlattenAllOf.dfy` and `FlattenMeaning.dfy` do the same for flattening `allOf`.
  `HoistDefs.dfy` lifts nested definitions out of a schema and puts them back.
- `Refs.dfy`, `RefGraph.dfy`, `RefClosure.dfy` and `RefChain.dfy` are the reference algorithms:
  cycle detection, needed definitions, and chains of references; `RefCycles.dfy` says when the
  cycles found are the true ones. `RefMeaning.dfy`, `RefNeeds.dfy` and `RefPointers.dfy` say what
  references mean in terms of the document as it is written.
- `Names.dfy` and `CandidateName.dfy` make tool names, `NameSpelling.dfy` says how they are spelled;
  `Ordering.dfy`, `FreshNames.dfy`, `Uniquify.dfy` and `UniqueNames.dfy` make them unique.
  `FoldBody.dfy` folds body members into arguments and takes them out again, `RequestBody.dfy` has
  the bodies that are not folded. `Percent.dfy` and `PathRender.dfy` fill path templates,
  `PathReading.dfy` reads them back, `PathDetermines.dfy` and `RenderedPaths.dfy` say exactly when a
  path determines its arguments. `Redact.dfy` and `RedactKeys.dfy` cover secrets in texts and JSON
  values; `RedactSpans.dfy` says what they leave alone, `RedactMeaning.dfy` which names and texts
  count as secret.

## Where a promise has an exception

Each of these is stated by a lemma, with the condition under which the promise does hold.

- Walking a document twice is walking it once unless an exclusive bound `true` stands beside a
  boolean bound (`Normalize.IdempotentIffSaneBounds`); a third walk never changes anything
  (`Normalize.TwiceIsEnough`).
- The rewrite drops properties named `nullable` and `example`, so for typed object schemas the
  meaning is kept exactly when there are none (`NormalizeExactly.MeaningKeptIffUnreserved`), and it
  rewrites `enum` data, which is kept exactly when nothing of the 3.0 form is in it
  (`NormalizeExactly.EnumKeptIffClean`). Component schemas are all kept exactly when none is called
  so (`NormalizeExactly.ComponentsNormalizedIff`).
- The search for cycles among definitions compares reference tokens as they are written, while
  names are collected decoded (`refs.rs:411` and `refs.rs:281`). It is right exactly for tokens
  without `~0` and `~1` (`RefCycles.RightIffNoEscapes`): it misses a definition `a/b` that refers to
  itself (`RefCycles.SelfReferenceIsMissed`) and can find a cycle where there is none
  (`RefCycles.FalseAlarm`).
- Flattening keeps the meaning only while the schema still says that its instances are objects
  (`FlattenMeaning.MeaningKeptIffPinned`), and drops the branch where an outer property disagrees
  (`FlattenMeaning.DisagreementIsDropped`, `FlattenMeaning.IntegerReplacesText`) and every keyword of
  a branch but `type`, `properties` and `required` (`FlattenMeaning.BranchKeywordIsDropped`).
- A property called `definitions` is taken for a map of definitions
  (`HoistDefs.PropertyNamedDefinitionsIsDropped`).
- Numbering a tool called `mcp` gives a name with the reserved prefix
  (`UniqueNames.ReservedOnlyFromMcp`); a reserved prefix can push a name past 64 characters
  (`Names.NormalizedTwice`). The suffix search of `uniquify` can tell its tries apart exactly for
  names of at most 126 characters, and for 127 it never ends (`Uniquify.NumbersDifferIff`,
  `Uniquify.SearchNeverEnds`); from 118 to 126 it ends exactly when a number that it tries is free
  (`Uniquify.SearchEndsIff`). The names that `candidate_name` makes have at most 68.
- A required body name that no property has breaks what `required` means, and nothing else does
  (`FoldBody.RequiredAgreesIffProperties`); it can make a parameter required
  (`FoldBody.StrayRequiredNameHitsParameter`).
- An unfolded body and a parameter called `body` share one argument
  (`RequestBody.WholeBodyIsFreeIff`, `RequestBody.WholeBodyIsCarriedIff`). A form-urlencoded body
  does not depend on the arguments at all (`RequestBody.SentAlikeIff`).
- A rendered path determines its arguments exactly when every literal text between two successive
  holes has a character that is no letter and no digit
  (`RenderedPaths.RenderedDeterminesIffMarked`, with any literals
  `PathDetermines.DeterminesIffApart`); `/{a}x{b}` does not
  (`RenderedPaths.LetterBetweenIsAmbiguous`).
- The counter by itself can refuse a caller although nothing is admitted, when probes overlap
  (`Admission.RefusedWithNothingAdmitted`). A session probes for one call at a time, so there a
  refusal means that the limit is reached (`SessionCalls.RefusedIffFull`).
- A task that is dropped before its first poll never gives its place on the counter back
  (`SessionCalls.LostStaysCounted`). The runtime does so only when it shuts down, so that no running
  session waits for it.
- A start frame answered with 400 leaves its body channel open, and what then arrives reaches no
  service (`Session.BadStartLeavesChannelOpen`).

## Model

| member | source | states |
|---|---|---|
| BridgeTheorems.AnswerIsOwnReply | crates/mcp-gateway-tunnel/src/upstream/stdio.rs:254-289 | in every reachable state a 200 answer is one stdout line of the very incarnation that received the request: a stdin line there has the fresh id, the method of the client's body, its `params` or else `{}`, and no other key but `jsonrpc`; the answer is the first line read after it that answers this id, unchanged but for the id, which is again the one the client sent |
| BridgeTheorems.DeliveriesAreOneToOne | crates/mcp-gateway-tunnel/src/upstream/stdio.rs:624-634 | a client gets at most one reply and a stdout line reaches at most one client; every delivery is the reply to the request of the client that gets it |
| BridgeTheorems.OnlyFirstRepliesAreAnswers | crates/mcp-gateway-tunnel/src/upstream/stdio.rs:570-634 | in every reachable state, reading a response either changes nothing, and answers nothing pending, or is the first reply read from this incarnation after the request went out, to a minted id that was sent to this very incarnation and whose client has no delivery yet; then that client alone changes, and gets this message under its own id |
| BridgeTheorems.StrayRepliesReachNobody | crates/mcp-gateway-tunnel/src/upstream/stdio.rs:570-634 | in every reachable state, a response without an id, or with an id never minted, sent to another incarnation, answered before or delivered already, changes no client, no delivery and no pending entry |
| BridgeTheorems.AnswersAreFinal | crates/mcp-gateway-tunnel/src/upstream/stdio.rs:272-289 | an answer once returned is never changed by any continuation of the run |
| BridgeTheorems.FailureHasItsStatus | crates/mcp-gateway-tunnel/src/upstream/stdio.rs:272-289 | in every reachable state a handler fails its request with 504 and `upstream timeout` after its wait elapsed, with 502 and `upstream unreachable` after its child was lost, its sender dropped or the bridge gave up before, and for no other reason |
| BridgeTheorems.EveryLineHasASource | crates/mcp-gateway-tunnel/src/upstream/stdio.rs:240-271 | in every reachable state each line on a stdin is a call of the handshake, the initialized notification, a body without an id, the request of a client under its fresh id, or the refusal of a request of that child, key by key |
| BridgeTheorems.NotificationIsQueued | crates/mcp-gateway-tunnel/src/upstream/stdio.rs:240-253 | a body without an id is queued as it is, behind what is queued |
| BridgeTheorems.NotificationIsWritten | crates/mcp-gateway-tunnel/src/upstream/stdio.rs:587-595 | and written to the child as it was queued |
| BridgeTheorems.ChildRequestIsTurnedDown | crates/mcp-gateway-tunnel/src/upstream/stdio.rs:604-608 | a request that the child makes gets the error -32601 under its own id, and reading it does nothing else |
| BridgeTheorems.ServedChildIsInitialised | crates/mcp-gateway-tunnel/src/upstream/stdio.rs:320-327 | in every reachable state in which requests are served, the cached result is what the current child answered, without an error, to the `initialize` call written to it |
| BridgeTheorems.InitializeIsAnswered | crates/mcp-gateway-tunnel/src/upstream/stdio.rs:233-239 | a client's own `initialize` then gets this result under its own id, and 502 when it is null |
| BridgeVerdicts.CrashFailsPending | crates/mcp-gateway-tunnel/src/upstream/stdio.rs:723-728 | when the child is lost each handler waiting for it finds `upstream unreachable` in its mailbox |
| BridgeLines.RouteMeans | crates/mcp-gateway-tunnel/src/upstream/stdio.rs:218-252 | for every JSON value: what is refused, accepted, answered from the cache, passed on or forwarded |
| BridgeLines.AnswersIff | crates/mcp-gateway-tunnel/src/upstream/stdio.rs:674-696 | a stdout line answers an id exactly when it is an object without a method string whose `id` is that number, below 2^64 |
| BridgeTheorems.RequestsAreWrittenOnce | crates/mcp-gateway-tunnel/src/upstream/stdio.rs:584-596 | two lines on any stdins, at different places, never carry the same request id |
| BridgeTheorems.PendingIsCounted | crates/mcp-gateway-tunnel/src/upstream/stdio.rs:583-634 | `inflight` is the size of `pending` at every step boundary, pending ids lie below `next_id`, and nothing is pending during start-up, handshake, or after the bridge gave up |
| BridgeTheorems.PendingHasAReason | crates/mcp-gateway-tunnel/src/upstream/stdio.rs:254-289 | behind every pending id stands a waiting client, one about to cancel, one whose cancel job is queued, or one whose handler was dropped |
| BridgeTheorems.DrainedMeansEmpty | crates/mcp-gateway-tunnel/src/upstream/stdio.rs:583-622 | with an empty queue and every handler finished, nothing is pending and the count is zero |
| BridgeTheorems.WaitersAreNeverForgotten | crates/mcp-gateway-tunnel/src/upstream/stdio.rs:260-289 | the sender of a client that waits on an empty mailbox is in exactly one of queue and pending map, and there is no such client once the bridge gave up |
| BridgeTheorems.RestartBudget | crates/mcp-gateway-tunnel/src/upstream/stdio.rs:305-363 | the deque is the last minute of the full exit history, and has as many entries as exits are younger than 60 seconds; the bridge gives up over exits at exactly the first exit that is the sixth in such a window; before that the delay is 200, 400, 800, 1600 or 3200 ms by the number of exits in the window |
| BridgeExits.StepOutcome | crates/mcp-gateway-tunnel/src/upstream/stdio.rs:309-368 | for every step: an exit is counted exactly when a child's output is over or a write to it fails, the bridge ends otherwise exactly when no child can be started or its handshake times out or is answered with an error or without what it asks for; either way nothing stays pending |
| BridgeTheorems.ReachableInvariant | crates/mcp-gateway-tunnel/src/upstream/stdio.rs:188-368 | every state reached by any interleaving of handlers, supervisor and children satisfies the whole invariant |
| BridgeTheorems.StepBudget | crates/mcp-gateway-tunnel/src/upstream/stdio.rs:343-363 | a step with or without an exit keeps the restart budget |
| BridgeSteps.StepKeeps | crates/mcp-gateway-tunnel/src/upstream/stdio.rs:188-368 | every step of every task keeps the core invariant |
| BridgeSteps.FailKeeps | crates/mcp-gateway-tunnel/src/upstream/stdio.rs:723-728 | failing everything pending keeps the invariant |
| BridgeSteps.ParkKeeps | crates/mcp-gateway-tunnel/src/upstream/stdio.rs:588-592 | putting a forwarded request into `pending` keeps the invariant |
| BridgeSteps.DeliverKeeps | crates/mcp-gateway-tunnel/src/upstream/stdio.rs:624-634 | delivering a reply keeps the invariant |
| BridgeSteps.CancelKeeps | crates/mcp-gateway-tunnel/src/upstream/stdio.rs:583-587 | a cancel job keeps the invariant, whether its id is still pending or not |
| BridgeInvariant.GiveUpCancels | crates/mcp-gateway-tunnel/src/upstream/stdio.rs:284-288 | a client that gives up leaves a cancel job behind every job and pending entry of its own |
| BridgeInvariant.EnqueueKeeps | crates/mcp-gateway-tunnel/src/upstream/stdio.rs:254-271 | queueing a forwarded request keeps the invariant, also when other handlers minted later ids and queued first |
| BridgeLog.StepLog | crates/mcp-gateway-tunnel/src/upstream/stdio.rs:518-534 | every step keeps the log of written requests free of repeated and of future ids |
| BridgeLog.StepCharges | crates/mcp-gateway-tunnel/src/upstream/stdio.rs:588-596 | every step keeps it true that a delivered reply belongs to a request that was really written to that incarnation |
| BridgeRuns.RunGrows | crates/mcp-gateway-tunnel/src/upstream/stdio.rs:188-368 | runs only extend what was minted, written and read, and never change a finished answer |
| Deaths.AfterExitIsWindow | crates/mcp-gateway-tunnel/src/upstream/stdio.rs:744-754 | popping old exits at the front and pushing the new one gives the window of the full history, if the clock is monotone |
| Deaths.RecentIsSuffix | crates/mcp-gateway-tunnel/src/upstream/stdio.rs:744-754 | the exits younger than a minute are a suffix of the history |
| Deaths.WindowIsLastMinute | crates/mcp-gateway-tunnel/src/upstream/stdio.rs:744-754 | the window has one entry for each exit of the history that is less than 60 seconds old |
| Deaths.BackoffDelays | crates/mcp-gateway-tunnel/src/upstream/stdio.rs:765-768 | the delay after one to five exits |
| Supervisor.Supervisor.DropPending | crates/mcp-gateway-tunnel/src/upstream/stdio.rs:618-622 | the in-place removal is the removal step of the bridge |
| Supervisor.Supervisor.Deliver | crates/mcp-gateway-tunnel/src/upstream/stdio.rs:624-634 | the in-place delivery is the delivery step of the bridge |
| Supervisor.Supervisor.FailPending | crates/mcp-gateway-tunnel/src/upstream/stdio.rs:723-728 | draining the map in any order is one simultaneous failure of all waiting clients |
| Supervisor.Supervisor.TooMany | crates/mcp-gateway-tunnel/src/upstream/stdio.rs:744-754 | the loop over the deque and its verdict |
| Supervisor.Supervisor.ChildExited | crates/mcp-gateway-tunnel/src/upstream/stdio.rs:343-363 | failing, counting and the choice between restart and giving up |
| Supervisor.Supervisor.TakeJob | crates/mcp-gateway-tunnel/src/upstream/stdio.rs:580-597 | the job arm of the pump, up to its write |
| Supervisor.FailOneMore | crates/mcp-gateway-tunnel/src/upstream/stdio.rs:723-728 | failing one more entry is one more send, so the order of draining does not matter |
| ResponseStreams.FramesShape | crates/mcp-gateway-tunnel/src/session.rs:443-575 | however the body is split into data frames: one start frame, with the status of the response, then nothing more exactly when it is no event stream and fits one frame, or chunks of which exactly the final one is `last`; each piece fits a frame and together they decode to the body |
| ResponseStreams.CutOffIsIncomplete | crates/mcp-gateway-tunnel/src/session.rs:443-575 | no proper prefix of such a stream is taken for a whole body |
| ResponseStreams.ProjectionIsOwnStream | crates/mcp-gateway-tunnel/src/session.rs:247-271 | for every interleaving of the writers, the frames of one id on the channel are what its own writer sent so far, in order |
| ResponseStreams.DemuxRecoversBodies | crates/mcp-gateway-tunnel/src/session.rs:247-271 | splitting the channel by id gives back status and body of every response whose writer is done, and none of the others |
| ResponseStreams.StreamedShape | crates/mcp-gateway-tunnel/src/session.rs:498-537 | the chunks of a streamed body, for every remainder and every list of data frames |
| ResponseStreams.BufferedShape | crates/mcp-gateway-tunnel/src/session.rs:458-496 | the inline form and its overflow into chunks, for every split of the body, with the status on the start frame |
| ResponseFraming.Outbound.SendFrame | crates/mcp-gateway-tunnel/src/session.rs:634-639 | a send appends one frame or fails because the channel is closed |
| ResponseFraming.SendChunks | crates/mcp-gateway-tunnel/src/session.rs:539-575 | sends the slices of the bytes in order, the final one marked when `last` is set, all of them unless the channel closes |
| ResponseStreams.LastSlicesCarry | crates/mcp-gateway-tunnel/src/session.rs:539-575 | with `last` set the slices are a whole body, the empty one included, and read back as the bytes |
| ResponseFraming.SendFull | crates/mcp-gateway-tunnel/src/session.rs:513-525 | sends every full piece and keeps the rest |
| ResponseFraming.StreamBody | crates/mcp-gateway-tunnel/src/session.rs:498-537 | emits a prefix of the chunk stream, all of it unless cancelled, faulted or closed |
| ResponseFraming.Overflow | crates/mcp-gateway-tunnel/src/session.rs:468-488 | a buffered body that no longer fits one frame goes on as a chunk stream with nothing lost |
| ResponseFraming.WriteResponse | crates/mcp-gateway-tunnel/src/session.rs:443-496 | emits a prefix of the response stream, all of it unless cancelled, faulted or closed |
| Base64.RoundTrip | crates/mcp-gateway-tunnel/src/session.rs:30 | decoding an encoded piece gives it back (section 4 of RFC 4648) |
| Base64.Encode | crates/mcp-gateway-tunnel/src/session.rs:30 | the length law: four characters for every three bytes begun |
| Session.StreamedBodyArrives | crates/mcp-gateway-tunnel/src/session.rs:103-138 | a body announced before the session goes away reaches the service as its initial bytes and then every chunk in order, up to the first frame that ends it, whatever frames of other ids and whatever GoAway come in between; its channel is open exactly while nothing ended it |
| Session.BadStartLeavesChannelOpen | crates/mcp-gateway-tunnel/src/session.rs:216-235 | after a start frame answered with 400 the body channel stays open until a frame ends it, yet no byte reaches a service |
| Session.OnlyAlarmsCancel | crates/mcp-gateway-tunnel/src/session.rs:111-128 | a request is cancelled by nothing but a Cancel of its id or a chunk that is no base64 |
| Session.CancelledIff | crates/mcp-gateway-tunnel/src/session.rs:111-128 | a started request is cancelled if and only if, while it runs, a Cancel of its id arrives, or a chunk that is no base64 while its body is open |
| Session.WholeBodyArrives | crates/mcp-gateway-tunnel/src/session.rs:200-235 | a body that comes whole in the start frame reaches its service at once, and no later frame adds to it |
| Session.RequestsDoNotMix | crates/mcp-gateway-tunnel/src/session.rs:99-141 | frames of other ids have no effect on a request |
| Session.NothingStartsAfterGoAway | crates/mcp-gateway-tunnel/src/session.rs:104-107 | after a GoAway a start frame opens nothing |
| Session.Session.AcceptRequest | crates/mcp-gateway-tunnel/src/session.rs:200-236 | what a start frame does to the tables, on the 429, the 400 and the normal path |
| Session.Session.Handle | crates/mcp-gateway-tunnel/src/session.rs:103-158 | one turn of the loop: exactly the request named by the frame is affected |
| Session.Session.Run | crates/mcp-gateway-tunnel/src/session.rs:72-160 | the loop over all frames |
| Admission.AdmissionIsBounded | crates/mcp-gateway-tunnel/src/stats.rs:11-24 | for every interleaving of any number of callers of which fewer than 2^32 hold the counter at a time: admitted and unfinished calls never exceed the limit, the counter is these plus the probes about to be undone, the total is the ended calls, and successes are live or ended calls |
| Admission.Conservation | crates/mcp-gateway-tunnel/src/stats.rs:11-24 | over any run of the counter successful begins equal live calls plus ends |
| Admission.StepKeeps | crates/mcp-gateway-tunnel/src/stats.rs:11-24 | every atomic step of every call keeps the meaning of the counters |
| Admission.WinsIff | crates/mcp-gateway-tunnel/src/stats.rs:11-19 | a probe wins exactly when admitted calls and transient probes together are below the limit |
| Admission.RefusedWithNothingAdmitted | crates/mcp-gateway-tunnel/src/stats.rs:11-19 | of the counter by itself, with overlapping callers: a run in which a call is refused although no call is admitted, since a probe to be undone is in its way |
| Admission.CallsGrow | crates/mcp-gateway-tunnel/src/stats.rs:11-24 | no step of the counter takes a call back to an earlier stage |
| Admission.Stats.BeginRequest | crates/mcp-gateway-tunnel/src/stats.rs:11-19 | the two atomic operations in a row are two steps of the machine |
| Admission.Stats.EndRequest | crates/mcp-gateway-tunnel/src/stats.rs:21-24 | the two atomic operations in a row are two steps of the machine |
| SessionCalls.EndedExactlyOnce | crates/mcp-gateway-tunnel/src/session.rs:212-235 | in every run of the accepting loops, one after the other and each with a limit of its own, and of their tasks: `end_request` runs exactly once for each admitted call that is over, by the 400 path or by the guard, and never for a refused call |
| SessionCalls.CounterIsLiveCalls | crates/mcp-gateway-tunnel/src/session.rs:378-389 | over all sessions together never more calls are admitted and unfinished than the highest limit so far, and between two frames the counter is their number |
| SessionCalls.DrainedIffNoTask | crates/mcp-gateway-tunnel/src/session.rs:73-83 | between two frames the counter is zero exactly when no task is queued or serving, no guard has yet to decrement, and no task was lost |
| SessionCalls.RefusedIffFull | crates/mcp-gateway-tunnel/src/session.rs:212-216 | since one loop accepts calls one at a time, a call is refused exactly when the admitted and unfinished calls, those of earlier sessions included, have reached the limit of the session |
| SessionCalls.LostStaysCounted | crates/mcp-gateway-tunnel/src/session.rs:247-252 | a task dropped before its first poll has made no guard, so its place on the counter is never given back in any continuation |
| SessionCalls.PolledIsNeverLost | crates/mcp-gateway-tunnel/src/session.rs:247-272 | a task that was polled is never lost in any continuation: its guard is there, ends it, or has ended it |
| SessionCalls.StepKeeps | crates/mcp-gateway-tunnel/src/session.rs:200-272 | every step of the loop, its tasks and their guards, and every reconnect with another limit, keeps all this |
| Reconnect.Supervisor.Supervise | crates/mcp-gateway-tunnel/src/reconnect.rs:14-102 | for any relay and any number of turns: every dial offers the credential of the latest welcome (or none), every connection is published under its name, every published retry carries the number of counted retries since start, welcome or wait, and waits as long as the relay asked after a Wait or at the end of a session, otherwise a backoff by that number, `reconnects` counts all counted retries, and nothing follows a final state |
| Reconnect.Supervisor.RunTurn | crates/mcp-gateway-tunnel/src/reconnect.rs:25-101 | one turn of the loop keeps all this |
| Reconnect.Supervisor.Serve | crates/mcp-gateway-tunnel/src/reconnect.rs:34-68 | a welcome, its session, and what the end of the session leads to |
| Reconnect.Supervisor.WaitRetry | crates/mcp-gateway-tunnel/src/reconnect.rs:104-124 | counts before it publishes, and publishes Stopped exactly when shutdown wins the sleep |
| Reconnect.Supervisor.Connect | crates/mcp-gateway-tunnel/src/reconnect.rs:33 | a dial offers the stored credential |
| Reconnect.Supervisor.Send | crates/mcp-gateway-tunnel/src/reconnect.rs:27-37 | a published state becomes the latest one |
| Reconnect.OfferIsLatestWelcome | crates/mcp-gateway-tunnel/src/reconnect.rs:23-71 | there is something to offer exactly when some welcome has neither a welcome nor a ReclaimAgain after it, and then it is that welcome's slug and credential |
| Reconnect.BackoffBounds | crates/mcp-gateway-tunnel/src/reconnect.rs:135-145 | 1, 2, 4, 8, 16, 32 and then 60 seconds by the number of retries, jittered by a fifth |
| Reconnect.Supervisor.BackOff | crates/mcp-gateway-tunnel/src/reconnect.rs:70-97 | a try after a failure or a lost name waits a backoff by the number of tries |
| Reconnect.Supervisor.WaitAsAsked | crates/mcp-gateway-tunnel/src/reconnect.rs:78-83 | a try that the relay asked for waits as long as it said, and is not counted |
| Reconnect.GoesOn | crates/mcp-gateway-tunnel/src/reconnect.rs:104-124 | an allowed event keeps the history sound |
| NormalizeMeaning.MeaningKept | crates/mcp-gateway-compile/src/normalize.rs:8-96 | an instance is valid for a 3.0 schema exactly when it is valid for the rewritten schema read as 3.1, at every depth of reference unfolding |
| NormalizeMeaning.ComponentsNormalized | crates/mcp-gateway-compile/src/normalize.rs:4-26 | walking the whole document rewrites every component schema by itself, as long as the objects above and the names hold nothing of the 3.0 form |
| NormalizeExactly.ComponentsNormalizedIff | crates/mcp-gateway-compile/src/normalize.rs:4-26 | below upper objects without a 3.0 keyword, the walk rewrites each component schema by itself and keeps them all if and only if none is called `nullable` or `example` |
| NormalizeExactly.MeaningKeptIffUnreserved | crates/mcp-gateway-compile/src/normalize.rs:8-96 | for trees of typed object schemas, with any property names at any depth, the meaning is kept if and only if no property is called `nullable` or `example` |
| NormalizeExactly.ReservedIsLost | crates/mcp-gateway-compile/src/normalize.rs:61-70 | a property so called, at any depth: an instance that the schema rejects and the rewritten schema admits |
| NormalizeExactly.PropertyNamedNullableIsDropped | crates/mcp-gateway-compile/src/normalize.rs:61 | the schema of an object with a string property `nullable`, and an instance whose verdict changes |
| NormalizeExactly.EnumKeptIffClean | crates/mcp-gateway-compile/src/normalize.rs:8-26 | for any data, an `enum` admits the same data after the walk if and only if its data holds no `nullable`, no `example` and no boolean exclusive bound |
| NormalizeMeaning.WithoutNullable | crates/mcp-gateway-compile/src/normalize.rs:30-46 | admitting null beside a schema is what `nullable: true` says of an untyped one |
| NormalizeMeaning.TypeKept | crates/mcp-gateway-compile/src/normalize.rs:34-40 | the widened `type` admits null and nothing else more |
| NormalizeMeaning.BoundsKept | crates/mcp-gateway-compile/src/normalize.rs:79-96 | the numeric bounds, boolean exclusive ones included, admit the same numbers |
| Normalize.RewrittenChildLighter | crates/mcp-gateway-compile/src/normalize.rs:8-26 | every child of a rewritten object has less weight than the object before, though the rewrite may deepen the tree |
| Normalize.FixedIffClean | crates/mcp-gateway-compile/src/normalize.rs:8-96 | the walk leaves a tree alone exactly when it holds no `nullable`, no `example` and no boolean exclusive bound |
| Normalize.CleanIffSaneBounds | crates/mcp-gateway-compile/src/normalize.rs:8-96 | the output is free of these exactly when nowhere in the input, outside what the rewrite drops, a true exclusive bound stands beside a boolean bound |
| Normalize.SaneBoundsIsOnTheWay | crates/mcp-gateway-compile/src/normalize.rs:8-96 | this condition on the input tree says of the objects the walk really meets that none pairs the two |
| Normalize.IdempotentIffSaneBounds | crates/mcp-gateway-compile/src/normalize.rs:8-96 | a second walk changes nothing exactly under the same condition |
| Normalize.IdempotenceCanFail | crates/mcp-gateway-compile/src/normalize.rs:79-96 | a document on which a second walk does change something |
| Normalize.TwiceIsEnough | crates/mcp-gateway-compile/src/normalize.rs:8-96 | whatever the document, what a second walk leaves is free of the 3.0 forms, and a third walk changes nothing |
| Normalize.TopCleanIffFixed | crates/mcp-gateway-compile/src/normalize.rs:28-71 | the rewrite of one object keeps its keys exactly when none of the 3.0 forms is among them |
| Normalize.MembersStay | crates/mcp-gateway-compile/src/normalize.rs:28-71 | where every member goes: a key that the rewrite has no business with keeps its place and its walked value; `example` is the one item of `examples` when there were none, and else gone; a nullable object without a type to widen stands whole, but for `nullable`, beside the null type |
| Normalize.RewriteExclusive | crates/mcp-gateway-compile/src/normalize.rs:79-96 | the in-place rewrite of one pair of bounds |
| Normalize.RewriteSchemaObject | crates/mcp-gateway-compile/src/normalize.rs:28-71 | the in-place rewrite of one object, with its early returns |
| Normalize.Walk | crates/mcp-gateway-compile/src/normalize.rs:8-26 | the recursive walk terminates and computes the specification |
| Refs.DefsHaveCycle | crates/mcp-gateway-compile/src/refs.rs:382-450 | true exactly when the definitions have a cycle, reading the reference tokens as they are written |
| RefCycles.PlainTokensSameCycles | crates/mcp-gateway-compile/src/refs.rs:400-426 | where no token holds an escape, these are the cycles of the definitions that the references denote |
| RefCycles.RightIffNoEscapes | crates/mcp-gateway-compile/src/refs.rs:406-414 | for any vocabulary of tokens: the search finds exactly the true cycles in every schema written with them if and only if none holds `~0` or `~1` |
| RefCycles.SelfReferenceIsMissed | crates/mcp-gateway-compile/src/refs.rs:411 | a definition called `a/b` that refers to itself as `a~1b` is a cycle, and no cycle is found |
| RefCycles.FalseAlarm | crates/mcp-gateway-compile/src/refs.rs:411 | a schema without a cycle in which one is found |
| RefGraph.GraphHasCycle | crates/mcp-gateway-compile/src/refs.rs:390-398 | the search from every node, in any order, finds a cycle exactly when there is one |
| RefGraph.DfsCycle | crates/mcp-gateway-compile/src/refs.rs:428-450 | the recursive search terminates; without a cycle the node it started from is explored and the path is restored |
| Refs.CollectNames | crates/mcp-gateway-compile/src/refs.rs:400-426 | the names pushed are exactly those that references in the value name |
| RefClosure.CollectNeededDefs | crates/mcp-gateway-compile/src/refs.rs:245-272 | ends on every document, with exactly the schemas of the document that chains of references lead to, each rewritten; read off the unrewritten document by RefNeeds.NeededDefs |
| RefNeeds.NeededDefs | crates/mcp-gateway-compile/src/refs.rs:245-272 | in terms of the document as it is written: there is a definition for exactly the names with a schema that references under `#/$defs/`, `#/components/schemas/` or `#/definitions/` lead to; every reference of that schema stands at its own place in the definition, under `#/$defs/` with the same rest; and no reference there has an old prefix |
| RefNeeds.IsNeededIff | crates/mcp-gateway-compile/src/refs.rs:253-271 | the chains through rewritten schemas are those through the schemas of the document |
| RefNeeds.RewriteIs | crates/mcp-gateway-compile/src/refs.rs:348-380 | every member stands where it stood, `definitions` under `$defs`, and every string reference with its prefix moved |
| RefNeeds.MentionsIff | crates/mcp-gateway-compile/src/refs.rs:274-296 | a rewritten schema names exactly what the schema itself refers to under any of the three prefixes |
| RefNeeds.NoOldReference | crates/mcp-gateway-compile/src/refs.rs:373-380 | no reference of a rewritten schema has an old prefix |
| RefMeaning.WrittenIff | crates/mcp-gateway-compile/src/refs.rs:406-414 | the name in a reference as it is written: what stands between `#/$defs/` and the next slash |
| RefMeaning.RefersIff | crates/mcp-gateway-compile/src/refs.rs:400-426 | a definition refers to another exactly when a `$ref` in it, at any depth, writes its name, or for the denoted graph spells it with escapes |
| RefClosure.Collect | crates/mcp-gateway-compile/src/refs.rs:245-272 | the worklist over any finite lookup: closed under references and minimal |
| RefClosure.PointerFollows | crates/mcp-gateway-compile/src/refs.rs:256-262 | a pointer built from escaped tokens leads where the tokens lead, whatever they contain |
| RefClosure.SourceIsByName | crates/mcp-gateway-compile/src/refs.rs:256-262 | a schema is found under its own name, also one with `/` or `~` |
| Text.EscapeRoundTrip | crates/mcp-gateway-compile/src/refs.rs:281 | unescaping an escaped token gives it back |
| Text.UnescapeIsIdentityIff | crates/mcp-gateway-compile/src/refs.rs:281 | unescaping leaves a token alone exactly when it holds neither `~0` nor `~1` |
| RefMeaning.UnescapeIsDecoded | crates/mcp-gateway-compile/src/refs.rs:281 | the two replacements decode any token in one go: `~1` is a slash, `~0` a tilde, all else itself (section 4 of RFC 6901) |
| RefChain.ResolveOpenapiObject | crates/mcp-gateway-compile/src/refs.rs:180-221 | ends, and succeeds exactly when the chain of references reaches a value without one, repeats none and has at most 32 links; the result is that value overlaid by the fields beside the references |
| RefChain.ResolveInner | crates/mcp-gateway-compile/src/refs.rs:188-221 | the same at any depth and with any references already being visited, which it restores |
| RefChain.OverlaidHasNoRef | crates/mcp-gateway-compile/src/refs.rs:188-221 | what comes out has no string `$ref` |
| RefChain.OutermostWins | crates/mcp-gateway-compile/src/refs.rs:208-221 | every key has the value of the outermost object on the chain that has it |
| RefChain.ChainIsUnique | crates/mcp-gateway-compile/src/refs.rs:223-243 | references determine their chain |
| RefPointers.LoadIff | crates/mcp-gateway-compile/src/refs.rs:223-243 | for every reference and every document: `#` resolves within the document at hand, `https://` and `file:` in the one fetched for the text up to `#`, by the pointer behind it or as a whole, and nothing else does |
| RefPointers.PointerIff | crates/mcp-gateway-compile/src/refs.rs:452-466 | the pointer finds exactly what its tokens, decoded, lead to: members by name, items by a number below 2^64 with leading zeros and one `+` allowed; slashes in front do not matter |
| UniqueNames.NamesAreDistinct | crates/mcp-gateway-compile/src/names.rs:181-216 | no two tools share a name |
| UniqueNames.ExactlyTheFirstKeepsItsName | crates/mcp-gateway-compile/src/names.rs:181-216 | of each group exactly the first by key, then position, keeps the candidate; every other gets a number from 2 on and a name that no tool had |
| Uniquify.KeyBeforeIff | crates/mcp-gateway-compile/src/names.rs:195-197 | a key comes first when at the first of its three parts that differ, it ends first or has the smaller character at the first difference |
| UniqueNames.OrderDoesNotMatter | crates/mcp-gateway-compile/src/names.rs:193-198 | with distinct keys, permuting the tools permutes their names and changes none |
| UniqueNames.ReservedOnlyFromMcp | crates/mcp-gateway-compile/src/names.rs:116-117 | a returned name is reserved exactly where a tool called `mcp` was numbered |
| UniqueNames.TwoMcpTools | crates/mcp-gateway-compile/src/names.rs:201 | two tools called `mcp`: one of them gets a reserved name |
| UniqueNames.NumberedIsReservedIffMcp | crates/mcp-gateway-compile/src/names.rs:116-117 | numbering an unreserved name makes it reserved for the stem `mcp` only |
| Uniquify.Uniquify | crates/mcp-gateway-compile/src/names.rs:181-216 | the three loops give every member of every group its specified name |
| Uniquify.NumberGroup | crates/mcp-gateway-compile/src/names.rs:199-213 | the members of a group after the first get the first free numbers, from their position on |
| Uniquify.FreeName | crates/mcp-gateway-compile/src/names.rs:200-213 | the suffix search ends at the first free number, for every name that has room for the numbers it may try |
| Uniquify.CutIffTooLong | crates/mcp-gateway-compile/src/names.rs:202-205 | a numbered name is left whole exactly when it has at most 128 characters |
| Uniquify.ShortNamesFit | crates/mcp-gateway-compile/src/names.rs:202-205 | names of at most 117 characters have room for every `u32` |
| Uniquify.NumbersDifferIff | crates/mcp-gateway-compile/src/names.rs:202-205 | the numbers make different names of a slug if and only if it has at most 126 characters |
| Uniquify.SearchNeverEnds | crates/mcp-gateway-compile/src/names.rs:200-213 | for a slug of 127 characters every try is the taken name itself |
| Uniquify.SuffixedLeading | crates/mcp-gateway-compile/src/names.rs:202-205 | a number with more digits than there is room for is tried as its first digits |
| Uniquify.SearchEndsIff | crates/mcp-gateway-compile/src/names.rs:200-213 | for a slug of 118 to 126 characters the search ends, at some `u32`, if and only if some number is free that fits and lies ahead, or fills the room |
| Uniquify.RoomSuffices | crates/mcp-gateway-compile/src/names.rs:200-213 | it ends when fewer names are taken than numbers fill the room: 9 for 126 characters, 90 for 125, and so on |
| Uniquify.TakenBound | crates/mcp-gateway-compile/src/names.rs:190-213 | never more names are taken than twice the number of tools |
| Uniquify.GroupByName | crates/mcp-gateway-compile/src/names.rs:183-187 | the groups hold the indices of each name |
| FreshNames.FirstFree | crates/mcp-gateway-compile/src/names.rs:200-213 | a free number is found within as many tries as names are taken, plus one |
| FreshNames.NumberedInjective | crates/mcp-gateway-compile/src/names.rs:202 | different numbers give different names |
| Text.DecimalInjective | crates/mcp-gateway-compile/src/names.rs:202 | decimal printing is injective |
| Names.FixedIffSlug | crates/mcp-gateway-compile/src/names.rs:91-111 | the names that normalising leaves alone are exactly the lower-case words joined by single underscores of at most 64 characters |
| Names.NormalFormIsSlug | crates/mcp-gateway-compile/src/names.rs:91-111 | every normal form is such a name |
| Names.NormalizeTwice | crates/mcp-gateway-compile/src/names.rs:91-111 | normalising twice is normalising once |
| Names.NormalizedName | crates/mcp-gateway-compile/src/names.rs:113-130 | every finished name has 1 to 68 characters of that form and is not reserved |
| Names.NormalizedTwice | crates/mcp-gateway-compile/src/names.rs:87-130 | normalising a finished name gives it back exactly when it has at most 64 characters |
| Names.NormalizeRawLoop | crates/mcp-gateway-compile/src/names.rs:91-111 | the loops one after the other compute the normal form |
| Names.CamelToSnake | crates/mcp-gateway-compile/src/names.rs:132-149 | the loop over the characters |
| Names.CollapseSeparators | crates/mcp-gateway-compile/src/names.rs:151-167 | the loop with its `last_sep` flag |
| CandidateName.CandidateIsFirstUsable | crates/mcp-gateway-compile/src/names.rs:38-72 | the tool is named after the first source that holds an ASCII letter or digit, the description being clipped, and after method and path when none does |
| NameSpelling.CandidateIsSpelled | crates/mcp-gateway-compile/src/names.rs:38-85 | the name is the spelling of the chosen source (the description up to its first full stop or line end and 80 characters, the lower-cased method and the path): its ASCII letters and digits in lower case, an underscore where a word begins behind another, cut to 64 characters, `api_` in front of a reserved name |
| NameSpelling.NormalFormIsSpelled | crates/mcp-gateway-compile/src/names.rs:91-178 | the loops spell: a word begins behind an ASCII character that is no letter and no digit, and at a capital right behind a lower-case letter or a digit |
| NameSpelling.SpelledKeepsLetters | crates/mcp-gateway-compile/src/names.rs:132-149 | the letters and digits of a spelling are those of the text, in order and lower case |
| NameSpelling.ShortKeepsLetters | crates/mcp-gateway-compile/src/names.rs:107-109 | the cut keeps a beginning of them, and all when the spelling has at most 64 characters |
| NameSpelling.ReservedIff | crates/mcp-gateway-compile/src/names.rs:113-118 | the reserved names and prefixes, spelled out |
| CandidateName.CandidateIsGood | crates/mcp-gateway-compile/src/names.rs:38-72 | whatever the sources say, the name has 1 to 68 characters, is of normal form and not reserved |
| CandidateName.EmptyIffNoWord | crates/mcp-gateway-compile/src/names.rs:91-111 | a text gives no name exactly when it has no ASCII letter and no digit |
| FoldBody.FoldRoundTrip | crates/mcp-gateway-proxy/src/render.rs:192-202 | for all parameters and every body over the schema's properties: binding and then encoding gives the body back, and every parameter keeps its value |
| FoldBody.FoldedNamesAreFresh | crates/mcp-gateway-compile/src/lower/body.rs:68-100 | folded arguments are pairwise distinct, new, and stand for the key at their place |
| FoldBody.ArgNameIsFirstTry | crates/mcp-gateway-compile/src/lower/body.rs:72-85 | a body key gets the first free name among `key`, `body_key`, `body_key_2`, `body_key_3` and so on |
| FoldBody.SchemasAreKept | crates/mcp-gateway-compile/src/lower/body.rs:94-99 | parameter schemas stay, and every body property has its schema under its own argument |
| FoldBody.RequiredMeansRequired | crates/mcp-gateway-compile/src/lower/body.rs:101-114 | if `required` names properties only, a call has all required arguments exactly when its parameters and its body have theirs |
| FoldBody.RequiredAgreesIffProperties | crates/mcp-gateway-compile/src/lower/body.rs:101-114 | this holds for all parameters and bodies if and only if `required` names properties only |
| FoldBody.StrayRequiredNameHitsParameter | crates/mcp-gateway-compile/src/lower/body.rs:104-108 | a required name that no property has makes a parameter of that name required |
| FoldBody.SchemaSink.AddWhole | crates/mcp-gateway-compile/src/lower/body.rs:130-134 | an unfolded body takes the argument `body`, over a parameter of that name |
| RequestBody.LowerBody | crates/mcp-gateway-compile/src/lower/body.rs:64-153 | for the entries of the schema's `properties` and its `required` list: which arm is taken, and what it makes of properties, required list and binding |
| RequestBody.FoldedIff | crates/mcp-gateway-compile/src/lower/body.rs:64-68 | the properties become arguments exactly when the body is not form-urlencoded and its schema has the type `object` or any `properties` |
| RequestBody.CallIsCompleteIff | crates/mcp-gateway-compile/src/lower/body.rs:68-114 | if `required` names properties only, a call gives all required arguments exactly when its parameters have theirs and its body every member that the schema's `required` list names |
| RequestBody.EncodeBody | crates/mcp-gateway-proxy/src/render.rs:179-229 | the three modes with their loops and errors |
| RequestBody.WholeBodyIsCarriedIff | crates/mcp-gateway-proxy/src/render.rs:183-193 | some arguments carry given parameter values and a given unfolded body exactly when no parameter is called `body`, or it is given and has the body for its value |
| RequestBody.WholeBodyIsFreeIff | crates/mcp-gateway-compile/src/lower/body.rs:129-134 | all parameters go with all unfolded bodies if and only if no parameter is called `body` |
| RequestBody.SentAlikeIff | crates/mcp-gateway-proxy/src/render.rs:179-228 | the arguments of a call have no effect on the body that is sent if and only if the content type is form-urlencoded (its binding has no folded keys), or the schema is that of an object without properties |
| FoldBody.SchemaSink.AddParameter | crates/mcp-gateway-compile/src/lower/params.rs:138-154 | a kept parameter becomes the argument of its own name |
| FoldBody.SchemaSink.FreeArg | crates/mcp-gateway-compile/src/lower/body.rs:71-85 | the rename search ends with the specified name |
| FoldBody.SchemaSink.FoldProperties | crates/mcp-gateway-compile/src/lower/body.rs:68-100 | the folding loop |
| FoldBody.SchemaSink.RequireFolded | crates/mcp-gateway-compile/src/lower/body.rs:101-114 | the loop over `required` |
| FoldBody.EncodeFold | crates/mcp-gateway-proxy/src/render.rs:192-202 | the loop over the folded keys |
| PathRender.RenderedIsSubstitution | crates/mcp-gateway-proxy/src/render.rs:32-50 | for a template whose braces match, and bindings whose wire name is that of the argument or of a hole, the loop is one simultaneous substitution; there is a path exactly when every bound argument is present and safe, no hole is left, and the text has no `://` and no `..` |
| PathRender.ErrorIsNamed | crates/mcp-gateway-proxy/src/render.rs:32-50 | the first argument in the order of the bindings that is missing or unsafe decides the error and names it; when there is none, a hole that is left is an error of the path, and only then `://` or `..` is one |
| PathRender.OrderOfBindingsDoesNotMatter | crates/mcp-gateway-proxy/src/render.rs:32-50 | any order of the bindings gives the same path, or none |
| PathRender.Sequential | crates/mcp-gateway-proxy/src/render.rs:33-44 | replacing one binding after the other fills all holes at once: no value is rewritten by a later binding |
| PathRender.ReplaceFills | crates/mcp-gateway-proxy/src/render.rs:37-43 | replacing a needle fills the holes of that name and touches nothing else |
| PathRender.SegmentsAreKept | crates/mcp-gateway-proxy/src/render.rs:161-177 | no argument adds or removes a `/` |
| PathReading.ArgumentsAreReadBack | crates/mcp-gateway-proxy/src/render.rs:161-167 | where the literal text between two successive holes has a character other than letters, digits and `%`, one scan of the path gives back every argument byte for byte |
| PathDetermines.DeterminesIffApart | crates/mcp-gateway-proxy/src/render.rs:161-167 | for any template with holes of different names and any literals: the filled template determines the arguments of all holes if and only if no literal text between two successive holes is the beginning of an encoded argument |
| PathDetermines.ApartDetermines | crates/mcp-gateway-proxy/src/render.rs:161-167 | then two argument objects with one path agree on every hole, also when names are repeated |
| RenderedPaths.RenderedDeterminesIffMarked | crates/mcp-gateway-proxy/src/render.rs:32-50 | for a template in which anything can be rendered, without `%` between its holes: the rendered path determines the arguments of all holes if and only if every literal text between two successive holes has a character that is no letter and no digit |
| RenderedPaths.RenderedIff | crates/mcp-gateway-proxy/src/render.rs:32-50 | with every argument bound under its own name there is a path exactly when all of them are present and safe, every hole is bound, and the filled template has no `://` and no `..`; the path is the filled template |
| RenderedPaths.LetterBetweenIsAmbiguous | crates/mcp-gateway-proxy/src/render.rs:32-50 | in `/{a}x{b}` an empty text and `x` are rendered as the same path as `x` and an empty text |
| PathRender.GuardSeesArgument | crates/mcp-gateway-proxy/src/render.rs:169-177 | the guard rejects exactly the arguments that contain `/` or `..`, seeing through the encoding |
| PathRender.RenderPath | crates/mcp-gateway-proxy/src/render.rs:32-50 | the loop with its error returns |
| Percent.PercentRoundTrip | crates/mcp-gateway-proxy/src/render.rs:161-167 | percent-decoding undoes encoding on all byte strings (section 2.1 of RFC 3986) |
| Percent.EncodedShape | crates/mcp-gateway-proxy/src/render.rs:161-167 | only letters, digits and `%` are left |
| Percent.EncodedWrites | crates/mcp-gateway-proxy/src/render.rs:161-167 | byte by byte: letters and digits stand for themselves, any other byte is `%` and its two upper-case hexadecimal digits |
| RedactKeys.RedactedIsClean | crates/mcp-gateway-proxy/src/map.rs:236-266 | for every text each match of any key variant, in any case, is afterwards followed by white space only and then the mark, where the value is over |
| RedactKeys.UnchangedIffClean | crates/mcp-gateway-proxy/src/map.rs:236-266 | exactly such texts are left alone, so redacting twice is redacting once |
| RedactKeys.NoNeedleNoChange | crates/mcp-gateway-proxy/src/map.rs:236-266 | a text without any needle is unchanged |
| RedactSpans.OnlyValuesAreHidden | crates/mcp-gateway-proxy/src/map.rs:236-266 | for every text the result is the text itself with only values hidden: spans that begin right behind a match and all white space there, hold no stop character, and last until the next one or the end; every other character is copied |
| RedactSpans.HideOneMore | crates/mcp-gateway-proxy/src/map.rs:255-265 | hiding one more value of a text in which values are hidden already hides a value of the first text |
| RedactKeys.PassAllCleans | crates/mcp-gateway-proxy/src/map.rs:236-245 | no later pass undoes an earlier one |
| RedactKeys.ValueIsRedacted | crates/mcp-gateway-proxy/src/map.rs:207-234 | in a JSON value every secret field is covered and every other string is clean, and exactly such values are left alone; what is secret, clean and kept is spelled out by RedactMeaning.ValueBecomes |
| RedactMeaning.SecretIff | crates/mcp-gateway-proxy/src/map.rs:207-213 | a name is secret if and only if it, or its part behind some `-` or `_`, is one of the keys, letter by letter in any capitals, with `-` and `_` as good as each other |
| RedactMeaning.CapitalsAreSecret | crates/mcp-gateway-proxy/src/map.rs:207-213 | `Authorization` is secret |
| RedactMeaning.LastPartIsSecret | crates/mcp-gateway-proxy/src/map.rs:207-213 | `user_password` is secret |
| RedactMeaning.ValueBecomes | crates/mcp-gateway-proxy/src/map.rs:215-234 | for every JSON value: a field with a secret name holds the mark, every other field and item is redacted itself, every string as RedactMeaning.TextIsRedacted says, and all else stays |
| RedactMeaning.TextIsRedacted | crates/mcp-gateway-proxy/src/map.rs:236-266 | for every text: behind every key, in any of its spellings and in any capitals, with `=` or `:`, only white space and the mark are left, up to one of the seven stop characters or the end; and nothing but what stood there was replaced |
| RedactKeys.CoveredIsSafe | crates/mcp-gateway-proxy/src/map.rs:215-234 | the recursive covering reaches every field and string |
| Redact.PassCleans | crates/mcp-gateway-proxy/src/map.rs:247-266 | one pass cleans a text of its needle |
| Redact.PassKeepsClean | crates/mcp-gateway-proxy/src/map.rs:247-266 | and keeps it clean of any other needle |
| Redact.PassOnClean | crates/mcp-gateway-proxy/src/map.rs:247-266 | on a clean text a pass changes nothing |
| Redact.RedactAll | crates/mcp-gateway-proxy/src/map.rs:247-266 | the loop terminates though the text may grow, and computes the pass |
| Redact.ReplaceNext | crates/mcp-gateway-proxy/src/map.rs:255-265 | one replacement: white space skipped, value replaced, position moved on |
| RedactKeys.RedactText | crates/mcp-gateway-proxy/src/map.rs:236-245 | the loops over keys and variants |
| RedactKeys.RedactValue | crates/mcp-gateway-proxy/src/map.rs:215-234 | the recursive method with its two loops |
| FlattenMeaning.FlatteningKeepsMeaning | crates/mcp-gateway-compile/src/lower/schema.rs:4-77 | for plain object branches, agreeing outer properties and a pinned type, the flattened schema admits exactly the instances of the original, whatever its other keywords |
| FlattenMeaning.MeaningKeptIffPinned | crates/mcp-gateway-compile/src/lower/schema.rs:72-76 | for a schema with no other keyword this holds exactly when it is pinned: its own `type` admits only objects, or it has none but some property |
| FlattenMeaning.UnpinnedAdmitsStranger | crates/mcp-gateway-compile/src/lower/schema.rs:72-76 | an unpinned schema admits after flattening an instance that is no object |
| FlattenMeaning.DisagreementIsDropped | crates/mcp-gateway-compile/src/lower/schema.rs:45-50 | where an outer property and a branch disagree the branch's schema is lost |
| FlattenMeaning.IntegerReplacesText | crates/mcp-gateway-compile/src/lower/schema.rs:45-50 | a schema with an integer property outside and a string one in its branch rejects `{"a": 1}`, and admits it when flattened |
| FlattenMeaning.BranchKeywordIsDropped | crates/mcp-gateway-compile/src/lower/schema.rs:14-43 | a schema whose branch asks for one member at least rejects `{}`, and admits it when flattened |
| FlattenMeaning.RemainsIff | crates/mcp-gateway-compile/src/lower/schema.rs:15-35 | an `allOf` remains exactly when some branch is no plain object schema or two branches disagree on a property |
| FlattenMeaning.PropsAreSplit | crates/mcp-gateway-compile/src/lower/schema.rs:45-57 | the merged properties say what the outer ones and those of all branches say |
| FlattenMeaning.RequiredIsSplit | crates/mcp-gateway-compile/src/lower/schema.rs:58-71 | the same for `required` |
| FlattenAllOf.FlattenAllOf | crates/mcp-gateway-compile/src/lower/schema.rs:4-77 | the method with its loops; a schema in which an `allOf` remains is untouched |
| FlattenAllOf.GatherBranches | crates/mcp-gateway-compile/src/lower/schema.rs:14-43 | the loop over the branches with its early returns |
| HoistDefs.HoistThenGraftIffRoot | crates/mcp-gateway-compile/src/lower/schema.rs:79-129 | for every order of the keys, hoisting into an empty sink and grafting back gives the schema back exactly when it holds definitions at the root only, under `$defs`, and not an empty map of them |
| HoistDefs.FirstDefinitionWins | crates/mcp-gateway-compile/src/lower/schema.rs:103-129 | for every order of the keys at every place: the sink keeps its entries, gains under each other name that is defined at any depth the first such definition of the walk, stripped, and gains nothing else |
| HoistDefs.Hoist | crates/mcp-gateway-compile/src/lower/schema.rs:103-129 | the recursive walk with its loops, along any order of the keys: the schema comes out free of definitions, and the definitions are entered in the order of the walk, those inside a definition before it, each unless its name is taken by then |
| HoistDefs.StrippedIffNoDefs | crates/mcp-gateway-compile/src/lower/schema.rs:103-129 | the walk leaves alone exactly what holds no definitions |
| HoistDefs.GraftAddsMissing | crates/mcp-gateway-compile/src/lower/schema.rs:84-101 | the schema then defines what it defined, and each added name that it did not define; nothing else changes |
| HoistDefs.Graft | crates/mcp-gateway-compile/src/lower/schema.rs:84-101 | the loop over the definitions: what the schema has itself stays |
| HoistDefs.PropertyNamedDefinitionsIsDropped | crates/mcp-gateway-compile/src/lower/schema.rs:112-117 | a property called `definitions` is dropped and the keywords of its schema are collected |
| FlattenAllOf.MergeProps | crates/mcp-gateway-compile/src/lower/schema.rs:25-34 | merging in any order: fails exactly on a disagreement |

## Left out

- BridgeTheorems.AnswerIsOwnReply: holds, like all bridge theorems, for runs that mint fewer than 2^64 - 3 ids; the wrap of the counter itself is modelled.
- Bridge.Next: the synchronous code between two awaits of one task is one step, and a write to the child either happens whole or counts as failed; partial writes are not modelled.
- Bridge.Next: when every handle and handler is gone the supervisor stops where it is; what the runtime then drops is not modelled.
- The bridge's stderr forwarding, notification warnings, probe report, the size limit of a body and the answer bodies of refused requests.
- ResponseFraming.WriteResponse: response headers are not modelled.
- ResponseStreams.FramesShape: a piece fits the frame limit by the length of its base64 text; the JSON around it is not counted.
- Session.Session.Handle: body frames carry what the base64 decoder returned, admission and request building are verdicts given from outside; pings, the end of the drain and the order of `select` branches are not modelled, so nothing is said about frames still queued when a session ends.
- Session.Session.AcceptRequest: the counter, the answers 429 and 400 and the spawned task are the subject of SessionCalls; the texts of the answers are not modelled.
- Session.Session.Run: the shutdown, the outgoing arm and the ends of the socket are not modelled.
- Admission.AdmissionIsBounded: assumes that at no moment 2^32 calls hold the counter, nor 2^64 have ended: the widths of the two counters.
- Admission.Conservation: that each call ends once is not its subject; SessionCalls.EndedExactlyOnce is.
- Reconnect.Supervisor.Supervise: sockets, clocks and random jitter are given turn by turn; the hint to dial anew that no session sets is carried along but never true.
- Json.Json: objects are maps, so the order of keys is not kept; numbers are integers or reals.
- NormalizeMeaning.MeaningKept: asks for no property named `nullable` or `example`, no boolean property schema named after an exclusive bound, and scalar-like `enum` and `const` data; for typed object schemas and for `enum` data NormalizeExactly has the exact conditions, for other schemas this one is sufficient.
- NormalizeMeaning.ComponentsNormalized: asks that no component schema is named `nullable` or `example`; NormalizeExactly.ComponentsNormalizedIff says that otherwise the walk drops it. The objects above the schemas are taken to hold no 3.0 keyword, as the keys of an OpenAPI document.
- NormalizeExactly.MeaningKeptIffUnreserved: inner schemas have one `type` and `properties` and no other keyword; the leaves are any typed schema of NormalizeMeaning.MeaningKept.
- SchemaMeaning.Valid: `$ref` siblings are read together with the reference in both dialects; `patternProperties`, `propertyNames`, `contains`, `prefixItems` and conditionals have no meaning in the model; equality of data is structural.
- FlattenMeaning.MeaningKeptIffPinned: the necessary direction is for schemas with no keyword but `type`, `properties`, `required` and `allOf`; the sufficient one is for all others without `additionalProperties`.
- FlattenMeaning.FlatteningKeepsMeaning: branches say `type: object`, `properties` and `required` only; the source drops every other keyword of a branch, as FlattenMeaning.BranchKeywordIsDropped shows.
- HoistDefs.Hoist: the order in which the walk meets the keys is given from outside, for every place by itself; how the map type of the source comes to it is not modelled.
- RefChain.ResolveOpenapiObject: all errors are one, and remote documents are a map of what can be fetched; budgets, caching and parsing of the retriever are not modelled.
- RefNeeds.NeededDefs: an object with both `definitions` and `$defs` keeps the former, where the source's result depends on key order.
- RefClosure.Collect: a reference with an empty name leads nowhere, as in the source; percent-decoding of fragments is not part of this model.
- The schema bundler and dangling definitions (`bundle_schema`), which rest on an external library.
- Uniquify.Uniquify: takes fewer than 2^30 names, each with room in 128 characters for `_` and a number up to four times their count, as the names of `candidate_name` have; the `u32` suffix then cannot overflow. A stable sort of increasing indices is given as their listing by key and index.
- Uniquify.NumbersDifferIff: is for slugs, which all candidates are.
- Uniquify.SearchEndsIff: speaks of numbers that a `u32` holds, for a start below a tenth of its range; what the overflow of the suffix would do after the last of them is not modelled.
- FoldBody.SchemaSink.FoldProperties: takes fewer than 2^32 - 2 arguments, below the width of the search counter.
- FoldBody.FoldRoundTrip: the body is the JSON object before it is printed.
- RequestBody.LowerBody: the choice of a media type, the schema behind a reference and the order of its properties are given; a form member is printed by a function given from outside.
- FoldBody.SchemaSink.AddParameter: two parameters of one name in different locations share the argument, as in the source; styles, schemas by reference, warnings and blocking codes are not modelled.
- PathRender.RenderedIsSubstitution: is for templates whose braces match and wire names without braces, each that of its argument or of a hole (for a wire name that names no hole the source falls back to the argument's name), and bound once unless it is that of its argument; the text of an argument is given in bytes, and joining with the server's address, query and headers are not modelled.
- PathReading.ArgumentsAreReadBack: a text between holes that has no separator but is no beginning of an encoded argument either, such as `%zz`, is left to PathDetermines.DeterminesIffApart.
- RenderedPaths.RenderedDeterminesIffMarked: asks for no `%` between two holes; with one, arguments that cannot be rendered, such as `/` behind `%2F`, would have to be told apart.
- RedactKeys.RedactText: texts are sequences of characters, so that byte offsets inside a character cannot occur.
- RedactKeys.RedactValue: parsing the text, its size limit and the removal of control characters come before and are not modelled.
- CandidateName.Candidate: only ASCII letters are lower-cased in the method, as in the source; keys of tools are three strings without further meaning.
- Command line, configuration, login, status screen, TLS, DNS, process spawning and WebSocket transport.
