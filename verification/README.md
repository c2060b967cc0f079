# Verification of the OWON instrument stack

This project models the parts of the repository where a mistake is hard to see
in one function: who may use the instrument, how bytes become replies, how
measurements stream to slow clients within shared limits, how a generator change
is undone when it goes wrong, and who owns native USB handles. Everything is
proved for all inputs, all interleavings and all behaviours of the device, the
callers and the native library, which appear as oracles (functions from a call's
index to its outcome) or as scheduler choices.

`dafny verify dfyconfig.toml` checks it. The files, by part:

| files | what they model |
|---|---|
| `SessionProtocol`, `SessionInvariant`, `SessionLedger`, `SessionTheorems`, `SessionProgress`, `SessionOutcomes` | `owonsession.Session` and `Transaction`: a step machine of any number of goroutines in `Begin`, `Execute`, `Close` and `CloseContext`, with its inductive invariant, the theorems over all runs, and what each operation comes to |
| `Framing`, `FrameDecoder` | a one-shot reference decoder of reply frames, and `FrameDecoder`, `ReadResponse` as classes and loops that refine it |
| `EndpointSession` | `endpointSession` over bulk transfers with short writes, surplus and deferred errors, and exactly when it succeeds |
| `PollScheduler` | `subscriptionPollScheduler` as a class, with the rate, order and progress of its grants |
| `SubscriptionLog`, `SubscriptionQueue` | the subscription queue as values, and as the class whose methods compute exactly those values |
| `SubscriptionStream`, `SubscriptionTheorems`, `SubscriptionOrder`, `SubscriptionDrain`, `SubscriptionOutcome` | producer, queue and stream handler as one machine: loss accounting, limits, wake-ups, order, how a stream ends, and what its end tells |
| `SharedBudget` | the server-wide byte budget down to its loads and compare-and-swaps |
| `GeneratorCommands`, `GeneratorBarriers`, `GeneratorTransaction`, `GeneratorResults`, `GeneratorOperation` | `SetGeneratorObserved`: commands, readback barriers, the operation by stages, and what its runs mean |
| `DmmTransaction` | `SetDMM` and its unbounded barrier |
| `UsbResources`, `UsbIdentity`, `UsbBackend` | ownership of native handles, the identity reply, and the backend that replaces handles once the instrument has proved its identity over the wire |
| `Commands`, `Wrappers` | `owonprotocol.Command`, shared by all of them; `Option` and `Result` |

How the concurrent parts are stated. The state of a session, a stream or the
budget is a value; one step of one participant is a function (`SessionProtocol.Next`,
`SubscriptionStream.Step`, `SharedBudget.Step`); `Run` folds a schedule of steps
over the initial state. A theorem about `Run` for every schedule is a theorem
about every interleaving. Parts guarded by a mutex or used by one goroutine are
classes with loops and in-place updates, proved against functions of values.

Where the documentation and the code differ, the code is modelled. The scheduler
says that a stream canceled while it waits does not consume a future rate slot.
That is false of the code: `wait` cancels a request whose grant was closed before
its context ended, and the slot stays spent.
`PollScheduling.DefaultBudgetLosesASlot` is such a run,
`PollScheduling.CanceledGrantKeepsItsSlot` the whole family of them, and
`PollScheduling.PollScheduler.EndRound` gives the exact condition: a canceled wait
gives its slot back if and only if its grant had not been closed.

## Model

| member | source | states |
|---|---|---|
| SessionTheorems.RunKeepsInv | pkg/owonsession/session.go:199-519 | gates, ledger and close generations hold in every reachable state of any number of goroutines |
| SessionTheorems.OneCallInFlight | pkg/owonsession/session.go:228-258 | at most one backend call is in flight; an exchange in flight belongs to a transaction that still holds admission, a reopening or close to the goroutine that holds it |
| SessionTheorems.HolderReleases | pkg/owonsession/session.go:397-428 | admission is given back only by its holder: the goroutine that took it or the one that closed its transaction |
| SessionTheorems.ReleasesOnce | pkg/owonsession/session.go:397-411 | a transaction gives its admission back at most once, through the goroutine that won the closing |
| SessionTheorems.PoisonIsGuarded | pkg/owonsession/session.go:241-355 | whoever changes the quarantine flag, or is about to read it, acts under the admission: its own, or that of the transaction whose execution gate it holds |
| SessionTheorems.CallsAreSerial | pkg/owonsession/session.go:311-358 | in the log of backend calls every start is followed by its own end, and nothing comes between them |
| SessionTheorems.NoExchangeUnderQuarantine | pkg/owonsession/session.go:241-249 | after a failed exchange no exchange of any transaction starts before a successful reopening |
| SessionTheorems.ReopenOnlyUnderQuarantine | pkg/owonsession/session.go:241-249 | the device is reopened only when some exchange failed and no reopening has succeeded since |
| SessionTheorems.NoReplay | pkg/owonsession/session.go:323-355 | one `Execute` reaches the backend at most once; a transaction with a failed exchange never reaches it again |
| SessionTheorems.ClosingIsFinal | pkg/owonsession/session.go:463-519 | once a backend close has begun, even a failing one, no exchange or reopening starts; closes come in generation order and stop after the first success |
| SessionTheorems.CallersSeeTheirGeneration | pkg/owonsession/session.go:463-487 | every `CloseContext` caller that waits to the end gets the result of the generation it joined, the same as all others that joined it |
| SessionTheorems.OneGenerationAtATime | pkg/owonsession/session.go:476-518 | a new close generation exists only after the one before has failed; an unfinished or successful one is current |
| SessionInvariant.GatesStep | pkg/owonsession/session.go:311-411 | every step of every operation keeps the two-gate discipline of admission and execution |
| SessionInvariant.TransactionMoves | pkg/owonsession/session.go:397-411 | what one step may do to a transaction it does or does not run in |
| SessionLedger.LedgerMove | pkg/owonsession/session.go:349-355 | a step whose backend call is justified by what its goroutine has checked extends the call log lawfully |
| SessionProgress.ClosersWork | pkg/owonsession/session.go:401-410 | a closed transaction that is not done has a goroutine on its way to release it |
| SessionProgress.NoDeadlock | pkg/owonsession/session.go:397-411 | when all begun transactions have been closed by their callers and some operation is unfinished, some goroutine can step without any context ending |
| SessionOutcomes.BeginSucceeds | pkg/owonsession/session.go:224-258 | on an open session in order with admission free, an undisturbed `Begin` gets one fresh transaction, which holds the admission, and no backend call is made |
| SessionOutcomes.BeginRecovers | pkg/owonsession/session.go:241-258 | on a quarantined one it reopens the device exactly once, lifts the quarantine and gets its transaction |
| SessionOutcomes.ReopeningFails | pkg/owonsession/session.go:241-249 | if the reopening fails there is no transaction, the quarantine stays and the admission is free again |
| SessionOutcomes.BeginSeesClosed | pkg/owonsession/session.go:237-240 | on a session closed meanwhile it gives the admission back and changes nothing |
| SessionOutcomes.RejectedForAReason | pkg/owonsession/session.go:224-249 | in every run, a `Begin` about to give up had its context end, saw the session closed or had its reopening fail, at an earlier turn, and has been giving up since |
| SessionOutcomes.BeginEnds | pkg/owonsession/session.go:199-258 | in every run a `Begin` ends with a fresh transaction that holds the admission, or its context ended before admission, or with such a reason and its admission given back |
| SessionOutcomes.ExecuteSucceeds | pkg/owonsession/session.go:311-358 | on an open, healthy transaction an undisturbed `Execute` makes its one exchange and leaves everything else as it was |
| SessionOutcomes.ExecuteFails | pkg/owonsession/session.go:349-355 | an exchange that fails quarantines the session and marks the transaction, no more |
| SessionOutcomes.ReturnsForAReason | pkg/owonsession/session.go:301-358 | in every run, an `Execute` about to return made its exchange, or was refused it by its context, an invalid command, its transaction or the closed session |
| SessionOutcomes.ClosedMeansNoNewExchange | pkg/owonsession/session.go:334-336 | in every run, an `Execute` called after the session was closed never comes to an exchange |
| SessionOutcomes.CloseReleasesAll | pkg/owonsession/session.go:397-411 | with nobody executing, an undisturbed closure ends the transaction and gives the admission back |
| SessionOutcomes.BackendCloses | pkg/owonsession/session.go:492-519 | an undisturbed close generation closes the backend once, publishes the result and gives the admission back; only a failure makes room for another generation |
| SessionOutcomes.ShutdownLaunches | pkg/owonsession/session.go:476-487 | the first `CloseContext` starts a generation and the goroutine that serves it |
| Framing.FragmentationIndependence | pkg/owonprotocol/frame_decoder.go:61-78 | however a byte string is cut into fragments, decoding gives the same outcome and consumption as the one-shot decoder |
| Framing.DecidedForGood | pkg/owonprotocol/frame_decoder.go:61-66 | completion and errors are sticky: no later byte changes a decided frame |
| Framing.UndecidedBefore | pkg/owonprotocol/frame_decoder.go:113-169 | no proper prefix of the consumed bytes decides the frame |
| Framing.PayloadIsBounded | pkg/owonprotocol/frame_decoder.go:113-169 | no payload exceeds the limit, no frame the limit and its prefix; a line's payload has no line feed |
| Framing.LengthPrefixedRoundTrip | pkg/owonprotocol/frame_decoder.go:147-169 | an encoded length-prefixed frame is decoded to its payload, any suffix left unconsumed |
| Framing.LineRoundTrip | pkg/owonprotocol/frame_decoder.go:113-142 | a line round-trips if and only if its text has no line feed, does not end in a carriage return and fits the limit |
| Framing.LineVerdict | pkg/owonprotocol/frame_decoder.go:113-142 | told by the bytes alone: too long, undecided, or the text before the first line feed without one carriage return |
| Framing.PrefixedVerdict | pkg/owonprotocol/frame_decoder.go:147-169 | told by the bytes alone: undecided, too large by the announced length, or the bytes behind the prefix |
| Framing.ReturnedLineRoundTrip | pkg/owonprotocol/frame_decoder.go:113-142 | the same for lines that end in carriage return and line feed |
| Framing.ReadSizeIsExact | pkg/owonprotocol/frame_decoder.go:174-182 | a read of the announced size never reaches beyond the frame, and is never empty |
| Framing.ReadSizeCompletes | pkg/owonprotocol/frame_decoder.go:174-182 | a line is read byte by byte; any other read of the announced size completes the prefix or the frame |
| Framing.LineByWindow | pkg/owonprotocol/frame_decoder.go:113-142 | looking only at the bytes that still fit decides a line exactly as looking at all of them |
| Framing.PayloadByCount | pkg/owonprotocol/frame_decoder.go:147-169 | counting payload bytes against the announced length decides a prefixed frame exactly as the reference does |
| FrameDecoding.NewFrameDecoder | pkg/owonprotocol/frame_decoder.go:41-55 | a decoder is made if and only if limit and mode are valid |
| FrameDecoding.NormalizeResponseLimit | pkg/owonprotocol/response.go:80-89 | zero selects the cap, more than the cap is refused, anything else is kept |
| FrameDecoding.FrameDecoder.Feed | pkg/owonprotocol/frame_decoder.go:61-78 | consumes exactly what belongs to the frame and reaches the reference's verdict on all bytes so far |
| FrameDecoding.FrameDecoder.FeedAscii | pkg/owonprotocol/frame_decoder.go:113-142 | the same for lines; without a verdict the fragment is wholly consumed |
| FrameDecoding.FrameDecoder.FeedLengthPrefixed | pkg/owonprotocol/frame_decoder.go:147-169 | the same for length-prefixed frames |
| FrameDecoding.FrameDecoder.Payload | pkg/owonprotocol/frame_decoder.go:84-107 | payload, size error or malformed, as the reference has it |
| FrameDecoding.FrameDecoder.NextReadSize | pkg/owonprotocol/frame_decoder.go:174-182 | equals the reference read size |
| FrameDecoding.ReadResponse | pkg/owonprotocol/response.go:47-75 | gives the one-shot verdict on the whole stream and takes exactly the frame's bytes; it ends on every finite stream |
| EndpointSessions.CommandIsOneMessage | pkg/owonprotocol/command.go:80-86 | an accepted command is one printable message of bounded length with one final line feed and no separator |
| EndpointSessions.CommandIsSpelled | pkg/owonprotocol/command.go:44-87 | a command is accepted if and only if its text without outer spaces is printable, nonempty, within the limit and without separator, and its mode is one of three; the bytes that go out are exactly that text and a line feed |
| EndpointSessions.OuterSpaces | pkg/owonprotocol/command.go:51-86 | every text is one without outer spaces and spaces around it, so that covers every command |
| EndpointSessions.WriteAll | pkg/owonusb/endpoint_session.go:438-468 | under arbitrary short writes a prefix of the command is delivered; it succeeds, with the whole, exactly when the writes accept it in whatever pieces |
| EndpointSessions.EndpointSession.VerifyNoResponse | pkg/owonusb/endpoint_session.go:257-289 | succeeds exactly when the next transfer is silence |
| EndpointSessions.OnlyTheProbeEndsInSilence | pkg/owonusb/endpoint_session.go:296-326 | silence is a transfer of nothing on a live request whose probe has run out of its own time, with no other cause |
| EndpointSessions.EndpointSession.Fill | pkg/owonusb/endpoint_session.go:394-433 | bytes received go to the buffer, an end of file that came with them is deferred; it succeeds exactly on such a transfer with nothing deferred before |
| EndpointSessions.EndpointSession.ReadResponse | pkg/owonusb/endpoint_session.go:355-389 | bytes transferred are those the decoder consumed followed by the buffer, and the outcome is the one-shot verdict; a payload with nothing left over comes exactly when the transfers answer with it |
| EndpointSessions.EndpointSession.Exchange | pkg/owonusb/endpoint_session.go:200-252 | nothing is written while bytes are buffered, an error is deferred or a probe is owed; success leaves nothing buffered and received exactly one frame; whether it succeeds, and with what payload, is decided by the transfers alone |
| EndpointSessions.FragmentsAreAnswered | pkg/owonusb/endpoint_session.go:355-433 | a whole frame that arrives in any fragments is answered with its payload |
| EndpointSessions.AnswerIsAFrame | pkg/owonusb/endpoint_session.go:355-433 | an exchange is answered only with the payload of a whole frame that successive transfers brought, an end of file at most with the last |
| EndpointSessions.FrameIsAnswered | pkg/owonusb/endpoint_session.go:355-433 | and with every such frame |
| EndpointSessions.EndpointSession.DrainPending | pkg/owonusb/endpoint_session.go:104-195 | terminates; it succeeds exactly when silence comes behind at most limit and prefix bytes with nothing failing before, and leaves nothing buffered |
| EndpointSessions.DrainedExactly | pkg/owonusb/endpoint_session.go:150-193 | draining ends exactly behind the first silence, if only stale bytes come before it, within the bound |
| PollScheduling.RateBound | pkg/owonrpc/owonserver/subscription_scheduler.go:224-262 | of any stretch of grants, all but the last fit unit by unit between the first and the last start |
| PollScheduling.GrantsPerSpan | pkg/owonrpc/owonserver/subscription_scheduler.go:224-262 | in any span the granted weight is at most span divided by unit, plus one window with the last grant |
| PollScheduling.PollScheduler.RateHolds | pkg/owonrpc/owonserver/subscription_scheduler.go:57-78 | that rate holds of every scheduler, whatever was enqueued, cancelled and dispatched at whatever clock readings |
| PollScheduling.EveryWakeUpAdvances | pkg/owonrpc/owonserver/subscription_scheduler.go:224-240 | dispatches at or after the announced wake-ups grant the first waiting requests, one each |
| PollScheduling.PunctualStart | pkg/owonrpc/owonserver/subscription_scheduler.go:245-255 | with punctual dispatches a request starts when the work ahead of it is done, not later |
| PollScheduling.ArrivalsDoNotMatter | pkg/owonrpc/owonserver/subscription_scheduler.go:179-183 | later arrivals never move a slot ahead of them |
| PollScheduling.CancelOne | pkg/owonrpc/owonserver/subscription_scheduler.go:190-207 | cancelling a request removes it from the order and nothing else |
| PollScheduling.WithdrawnLine | pkg/owonrpc/owonserver/subscription_scheduler.go:197-206 | the removal by index is exactly that cancellation |
| PollScheduling.CancelNeverDelays | pkg/owonrpc/owonserver/subscription_scheduler.go:190-240 | a cancellation and its dispatch delay nobody: at the same later dispatches every other request that would get its slot gets it, and no later |
| PollScheduling.PollScheduler.ScheduleQueued | pkg/owonrpc/owonserver/subscription_scheduler.go:245-255 | waiting requests get consecutive slots from now or the end of committed work |
| PollScheduling.PollScheduler.GrantHead | pkg/owonrpc/owonserver/subscription_scheduler.go:235-238 | the head's slot is committed, and its grant closed for the first time |
| PollScheduling.PollScheduler.DispatchLocked | pkg/owonrpc/owonserver/subscription_scheduler.go:224-240 | grants the head if and only if committed work is over, at most one request, and leaves a head whose slot lies ahead; the branch for late slots is dead |
| PollScheduling.PollScheduler.Enqueue | pkg/owonrpc/owonserver/subscription_scheduler.go:166-185 | a weight between one and the capacity joins the end of the line; anything else changes nothing |
| PollScheduling.PollScheduler.Cancel | pkg/owonrpc/owonserver/subscription_scheduler.go:190-207 | a waiting request leaves the line; a granted or unknown one changes nothing |
| PollScheduling.PollScheduler.GrantedOrWaiting | pkg/owonrpc/owonserver/subscription_scheduler.go:224-240 | an uncancelled request has its slot if and only if its grant was closed, and waits in line if and only if not |
| PollScheduling.PollScheduler.EndRound | pkg/owonrpc/owonserver/subscription_scheduler.go:122-136 | a round of `wait` ends in the grant, a dispatch or the cancellation; a canceled request keeps a slot if and only if its grant had been closed, and otherwise leaves the line |
| PollScheduling.CanceledGrantKeepsItsSlot | pkg/owonrpc/owonserver/subscription_scheduler.go:80-138 | on any idle scheduler, a wait that is granted at once and then reports its cancellation has spent its slot, against the documentation of `acquire` |
| PollScheduling.DefaultBudgetLosesASlot | pkg/owonrpc/owonserver/subscription_scheduler.go:80-138 | such a run from a new scheduler with the default budget |
| PollScheduling.PollScheduler.WaitingSlot | pkg/owonrpc/owonserver/subscription_scheduler.go:245-255 | a slot stands behind the committed work and the work ahead in line, whatever follows |
| PollScheduling.PollScheduler.NextWakeup | pkg/owonrpc/owonserver/subscription_scheduler.go:267-277 | the wake-up ends at the head's slot if that lies ahead, and is one nanosecond otherwise |
| PollScheduling.PollScheduler.DispatchAndNextWakeup | pkg/owonrpc/owonserver/subscription_scheduler.go:142-148 | a dispatch at the returned wake-up grants the head |
| PollScheduling.NewPollScheduler | pkg/owonrpc/owonserver/subscription_scheduler.go:57-78 | a scheduler is made if and only if the capacity is positive and the window leaves each unit a nanosecond |
| SubscriptionLog.AppendIsOrderly | pkg/owonrpc/owonserver/subscription_queue.go:355-386 | an admitted event goes to the end within the allowance; a refused one leaves every event in place |
| SubscriptionLog.AppendOutcome | pkg/owonrpc/owonserver/subscription_queue.go:355-386 | admission by cases, each with its error: too large, no room, no budget, or appended with its charge |
| SubscriptionLog.WaveformOutcome | pkg/owonrpc/owonserver/subscription_queue.go:226-243 | with no drop of its channel pending, a capture becomes a drop of its own if the queue has no room, without an error; the last event, signalled, if all grant it; otherwise an error and nothing recorded |
| SubscriptionLog.GapOutcome | pkg/owonrpc/owonserver/subscription_queue.go:215-243 | with a drop pending its gap goes first, past the ordinary capacity; refused, the capture joins the drop and the refusal is the error |
| SubscriptionLog.StateOutcome | pkg/owonrpc/owonserver/subscription_queue.go:173-205 | a state replaces the pending one before it asks for room |
| SubscriptionLog.FinishOutcome | pkg/owonrpc/owonserver/subscription_queue.go:251-267 | the first finish stages its report and its error and signals; later ones change nothing, later offers are refused |
| SubscriptionLog.AppendIsBounded | pkg/owonrpc/owonserver/subscription_queue.go:355-386 | admission keeps 64 MiB, 1024 events, the ordinary capacity and one pending state |
| SubscriptionLog.StateIsBounded | pkg/owonrpc/owonserver/subscription_queue.go:173-205 | so does a new state |
| SubscriptionLog.WaveformIsBounded | pkg/owonrpc/owonserver/subscription_queue.go:210-244 | so does a new waveform with its gap |
| SubscriptionLog.NextIsBounded | pkg/owonrpc/owonserver/subscription_queue.go:317-350 | so does publishing, with the metadata it stages |
| SubscriptionQueues.SubscriptionBudget.Reserve | pkg/owonrpc/owonserver/subscription_queue.go:105-122 | a charge is taken whole if and only if it fits beside what other queues hold |
| SubscriptionQueues.SubscriptionBudget.Release | pkg/owonrpc/owonserver/subscription_queue.go:127-142 | a charge is given back whole, or it panics: exactly when it is negative or more than the server's balance; every caller shows that it does not |
| SubscriptionLog.CutState | pkg/owonrpc/owonserver/subscription_queue.go:188-198 | cutting the first pending state out by index removes every state and exactly its charge |
| SubscriptionQueues.SubscriptionQueue.AppendLocked | pkg/owonrpc/owonserver/subscription_queue.go:355-386 | computes the specified admission; bytes and budget share stay the sum of queued charges |
| SubscriptionQueues.SubscriptionQueue.RemovePendingState | pkg/owonrpc/owonserver/subscription_queue.go:188-198 | exactly the states leave the queue, their charges are returned |
| SubscriptionQueues.SubscriptionQueue.EnqueueState | pkg/owonrpc/owonserver/subscription_queue.go:173-205 | computes the specified coalescing admission |
| SubscriptionQueues.SubscriptionQueue.RecordDropLocked | pkg/owonrpc/owonserver/subscription_queue.go:424-435 | extends the channel's pending drop by one capture |
| SubscriptionQueues.SubscriptionQueue.EnqueueWaveform | pkg/owonrpc/owonserver/subscription_queue.go:210-244 | computes the specified admission behind the gap that is due, or the drop |
| SubscriptionQueues.SubscriptionQueue.Finish | pkg/owonrpc/owonserver/subscription_queue.go:251-267 | stages the first outcome and signals |
| SubscriptionQueues.SubscriptionQueue.Close | pkg/owonrpc/owonserver/subscription_queue.go:272-286 | empties the queue and returns its whole share |
| SubscriptionQueues.SubscriptionQueue.LowestDrop | pkg/owonrpc/owonserver/subscription_queue.go:395-400 | finds the lowest channel whatever order the map yields |
| SubscriptionQueues.SubscriptionQueue.PrepareTerminalLocked | pkg/owonrpc/owonserver/subscription_queue.go:391-419 | stages one event of metadata, or ends the stream with the joined error |
| SubscriptionQueues.SubscriptionQueue.NextReady | pkg/owonrpc/owonserver/subscription_queue.go:317-350 | publishes the head under the next number, or the terminal error, or nothing |
| SubscriptionQueues.SubscriptionProducer.EnqueueWaveform | pkg/owonrpc/owonserver/subscription.go:109-117 | numbers every capture; an oversized one never reaches the queue |
| SubscriptionQueues.NewSubscriptionQueue | pkg/owonrpc/owonserver/subscription_queue.go:154-168 | zero selects eight, more than 1024 is refused |
| SubscriptionStream.StateAccounts | pkg/owonrpc/owonserver/subscription_queue.go:188-204 | replacing the pending state disturbs no channel's accounting |
| SubscriptionStream.OwnWaveformAccounts | pkg/owonrpc/owonserver/subscription_queue.go:226-240 | a capture is delivered, queued or in the drop unless it was refused with an error |
| SubscriptionStream.OtherWaveformAccounts | pkg/owonrpc/owonserver/subscription_queue.go:226-240 | other channels are not disturbed |
| SubscriptionStream.PrepareAccounts | pkg/owonrpc/owonserver/subscription_queue.go:393-408 | staging turns a drop into a gap of the same extent |
| SubscriptionStream.NextAccounts | pkg/owonrpc/owonserver/subscription_queue.go:326-339 | publishing only moves the head to the client |
| SubscriptionStream.CoverPrefix | pkg/owonrpc/owonserver/subscription_queue.go:393-407 | what was delivered at any earlier time covers captures from one on without holes |
| SubscriptionTheorems.QuietOnlyIfBusy | pkg/owonrpc/owonserver/subscription_queue.go:226-243 | the path that appends a gap, drops the waveform and signals nobody needs a queue that was not empty |
| SubscriptionTheorems.FullQueueOnlyDrops | pkg/owonrpc/owonserver/subscription_queue.go:233-238 | in every run, a capture of a channel without a pending drop never ends the stream with backpressure; with the queue full it is a drop of one capture |
| SubscriptionTheorems.FailureIsStaged | pkg/owonrpc/owonserver/subscription.go:195-234 | a polling error reaches the queue with its report, a cancellation without |
| SubscriptionTheorems.LookOutcome | pkg/owonrpc/owonserver/subscription_queue.go:317-350 | one look publishes the head under the next number, finds nothing while the stream goes on, and something once it is finished |
| SubscriptionTheorems.RunKeepsInv | pkg/owonrpc/owonserver/subscription.go:195-244 | limits, numbering, accounting and wake-ups hold in every interleaving of producer and handler |
| SubscriptionTheorems.EveryCaptureIsAccounted | pkg/owonrpc/owonserver/subscription_queue.go:210-244 | delivered, queued and dropped captures tile 1 to n exactly while the producer polls; after an error at most the last capture of one channel is missing |
| SubscriptionTheorems.LimitsAndNumbers | pkg/owonrpc/owonserver/subscription_queue.go:326-386 | byte, event, capacity and state limits always hold; publication numbers are 1, 2, 3 without holes |
| SubscriptionTheorems.NoLostWakeUp | pkg/owonrpc/owonserver/subscription_queue.go:301-311 | a waiting handler with something ready can wake up, at the latest after the failed producer's finish |
| SubscriptionTheorems.ClosedForGood | pkg/owonrpc/owonserver/subscription.go:217-234 | after `Subscribe` returned nothing is charged and nothing changes any more |
| SubscriptionTheorems.ClosedReservesNothing | pkg/owonrpc/owonserver/subscription_queue.go:173-350 | any sequence of operations on a closed queue reserves nothing, adds nothing, signals nobody and finds the end of the stream |
| SubscriptionTheorems.NewestStateGoesLast | pkg/owonrpc/owonserver/subscription_queue.go:188-204 | a new state is the only one pending and overtakes nothing |
| SubscriptionOrder.OrderIsKept | pkg/owonrpc/owonserver/subscription_queue.go:173-244 | between any two times of a run, all that was delivered or queued stays in order with later events behind it, except that a newer state may have taken the pending one out; then all the others stay in order, and whatever is newer stands behind them |
| SubscriptionDrain.GapsOrdered | pkg/owonrpc/owonserver/subscription_queue.go:393-407 | gaps at the end come by strictly ascending channel |
| SubscriptionDrain.EveryDropHasAGap | pkg/owonrpc/owonserver/subscription_queue.go:393-407 | every pending drop gets its gap |
| SubscriptionDrain.GapAt | pkg/owonrpc/owonserver/subscription_queue.go:450-457 | every gap is that of a pending drop, with its extent and count |
| SubscriptionDrain.NextDrains | pkg/owonrpc/owonserver/subscription_queue.go:317-350 | a finished queue yields the next of what remains, or the end |
| SubscriptionDrain.DrainOrder | pkg/owonrpc/owonserver/subscription_queue.go:251-350 | any number of looks see the rest in order, then one error for good: the terminal one, or joined with the first failed admission |
| SubscriptionOutcome.EndTellsEverything | pkg/owonrpc/owonserver/subscription_queue.go:317-419 | in every run, once the stream's own error is due, no drop and no report is left, and what was published and is queued covers every capture of every channel, or all but the last one whose refusal ended the stream |
| SharedBudget.BalanceIsExact | pkg/owonrpc/owonserver/subscription_queue.go:105-142 | in every interleaving of loads and swaps the balance is the sum of all queues' shares, within the limit, and no release panics |
| SharedBudget.RefusedOnlyIfFull | pkg/owonrpc/owonserver/subscription_queue.go:112-117 | a reservation is refused if and only if shares and charge exceed the limit at the load |
| SharedBudget.RetryMeansProgress | pkg/owonrpc/owonserver/subscription_queue.go:118-120 | a swap fails only after another one succeeded |
| SharedBudget.ReserveSucceeds | pkg/owonrpc/owonserver/subscription_queue.go:105-122 | undisturbed, a charge that fits is reserved whole and booked |
| SharedBudget.RemoveSucceeds | pkg/owonrpc/owonserver/subscription_queue.go:127-142 | undisturbed, a removed event's charge goes back whole |
| SharedBudget.CloseSucceeds | pkg/owonrpc/owonserver/subscription_queue.go:272-286 | undisturbed, closing gives back all the queue holds |
| SharedBudget.ClosedShareStaysZero | pkg/owonrpc/owonserver/subscription_queue.go:272-286 | a closed queue's share is zero for the rest of the run; that a closed queue does nothing more is proved of its operations as `SubscriptionTheorems.ClosedReservesNothing` |
| SharedBudget.ActConserves | pkg/owonrpc/owonserver/subscription_queue.go:192-196 | every access moves the balance by what it moves the queue's share |
| GeneratorCommands.CompileGenerator | pkg/owonscpi/generator.go:196-259 | waveform first, then the present settings in fixed order, output last |
| GeneratorCommands.CompiledInOrder | pkg/owonscpi/generator.go:217-259 | a patch compiles to one command per field present, each behind its field's own header, in the order of the headers; with a waveform its command is the first |
| GeneratorCommands.PatchRoundTrip | pkg/owonscpi/generator.go:217-259 | the patch can be read back from its commands: no field is lost or put behind another's header |
| GeneratorCommands.AppendSettings | pkg/owonscpi/generator.go:145-156 | present values are appended in order, absent ones emit nothing |
| GeneratorCommands.SplitCompiled | pkg/owonscpi/generator_observation.go:61-73 | of a compiled patch the text test sets exactly the output command apart and keeps the order of the rest |
| GeneratorCommands.OutputInAnyCase | pkg/owonscpi/generator_observation.go:64-66 | a command is an output command if and only if it begins with ":CHANNEL ", in any case of letters |
| GeneratorCommands.SplitInPieces | pkg/owonscpi/generator_observation.go:61-73 | whatever is split, the other commands keep their order and the last output command counts |
| GeneratorCommands.SplitGeneratorOutputCommand | pkg/owonscpi/generator_observation.go:61-73 | computes that split |
| GeneratorCommands.EchoIsUnderstood | pkg/owonscpi/generator_observation.go:78-112 | an echoed waveform token, with any white space around it, is read as the waveform that was sent |
| GeneratorCommands.OutputEchoIsUnderstood | pkg/owonscpi/generator_observation.go:117-161 | the word of an output command, in any case and with any white space around it, is read as the state the command sets |
| GeneratorCommands.FunctionReading | pkg/owonscpi/generator_observation.go:78-112 | a reply is a waveform if and only if it is one word, the waveform's token in some case of letters; unavailable if and only if it is the lone word "error" |
| GeneratorCommands.ChannelReading | pkg/owonscpi/generator_observation.go:117-161 | the same for ON and OFF |
| GeneratorCommands.OneWordOnly | pkg/owonscpi/generator_observation.go:78-90 | a reply of one word is that word with white space around it |
| GeneratorBarriers.BarrierIsExact | pkg/owoncontrol/generator_observed.go:349-452 | the replies alone decide when a barrier ends and how, unless the context ends it |
| GeneratorBarriers.PassedMeansTwice | pkg/owoncontrol/generator_observed.go:376-385 | it passes at the first two successive valid, equal, on-target replies and not before |
| GeneratorBarriers.BarrierReadsTwice | pkg/owoncontrol/generator_observed.go:349-452 | a passed barrier's last two exchanges are its query, answered both times with one value, the target if there is one |
| GeneratorBarriers.TargetLoop | pkg/owoncontrol/generator_observed.go:349-395 | the waveform loop is such a barrier, with at most eight queries |
| GeneratorBarriers.OutputLoop | pkg/owoncontrol/generator_observed.go:400-452 | so is the output loop, with a target or without |
| GeneratorBarriers.Conclude | pkg/owoncontrol/generator_observed.go:438-450 | a second match passes only with a live context; the eighth observation ends the loop |
| GeneratorTransaction.ExecuteRest | pkg/owoncontrol/generator_observed.go:249-257 | the remaining writes go out in order up to the first failure, acknowledged ones recorded |
| GeneratorTransaction.Preflight | pkg/owoncontrol/generator_observed.go:203-219 | an omitted output is settled before anything is written |
| GeneratorTransaction.Compensate | pkg/owoncontrol/generator_observed.go:474-496 | one output command, verified if acknowledged, and a status to match |
| GeneratorTransaction.Fail | pkg/owoncontrol/generator_observed.go:592-614 | delivery is "not attempted" only for early phases without writes |
| GeneratorTransaction.ContextStage | pkg/owoncontrol/generator_observed.go:233-247 | a failed barrier restores the output only for misread replies |
| GeneratorTransaction.OutputStage | pkg/owoncontrol/generator_observed.go:258-300 | the output command comes last and is verified after a waveform; the branch without a target is dead |
| GeneratorTransaction.Operate | pkg/owoncontrol/generator_observed.go:186-301 | every run is orderly and its result truthful, whatever the device and the context do: delivery, record, output, the waveform last read with its match, and the cause of the error |
| GeneratorOperation.SetGeneratorObserved | pkg/owoncontrol/generator_observed.go:158-301 | the same for the instrument's own commands and parsers; the branch without a waveform write is dead |
| GeneratorOperation.NumbersAreSettings | pkg/owoncontrol/generator_observed.go:306-314 | the fields that cannot be read back are exactly those compiled to settings |
| GeneratorOperation.OwonIsQuiet | pkg/owonscpi/generator_observation.go:36-56 | barriers only query, and no write asks for a response |
| GeneratorOperation.OutputIsReadTwice | pkg/owoncontrol/generator_observed.go:203-219 | with the output omitted, success means two output queries in a row were answered with one state before any write, the last write set it, and two more queries after all writes were answered with it |
| GeneratorOperation.WaveformIsReadTwice | pkg/owoncontrol/generator_observed.go:233-257 | no setting is written before two waveform queries in a row were answered with the waveform just written |
| GeneratorOperation.SentAsPlanned | pkg/owoncontrol/generator_observed.go:221-277 | whatever happens, the writes sent are a prefix of the compiled ones, then at most one output command: behind all of them, or behind the waveform to compensate |
| GeneratorOperation.RecordedAsAcknowledged | pkg/owoncontrol/generator_observed.go:319-330 | the completed writes are exactly the acknowledged ones in order; a failure claims no attempt if and only if nothing was sent |
| GeneratorOperation.MisreadingIsCompensated | pkg/owoncontrol/generator_observed.go:235-246 | a waveform barrier that misread gets exactly one restoring command, one that lost an exchange or the context gets none |
| GeneratorResults.MutationsByStage | pkg/owoncontrol/generator_observed.go:221-277 | the writes among all exchanges are those of the stages and no others |
| DmmTransaction.WaitForFunction | pkg/owoncontrol/dmm.go:338-375 | the loop ends at the first two successive matches, a malformed or lost reply, or the end of the context, reported if and only if it has ended; and keeps the last valid observation |
| DmmTransaction.DmmBarrierIsExact | pkg/owoncontrol/dmm.go:338-375 | the replies alone decide when the barrier ends and how, unless the context ends it |
| DmmTransaction.DmmPassedMeansTwice | pkg/owoncontrol/dmm.go:358-368 | it passes at the first two successive matches and at no others |
| DmmTransaction.ExecuteWrites | pkg/owoncontrol/controller.go:251-275 | writes go out in order up to the first failure |
| DmmTransaction.SetDmm | pkg/owoncontrol/dmm.go:177-286 | settings only after a passed barrier, a final barrier only after settings; an error tells its cause, the acknowledged writes and the last valid observation, and cancellation if and only if the context has ended |
| DmmTransaction.FunctionIsConfirmed | pkg/owoncontrol/dmm.go:247-285 | success means the selection was read twice in a row after the last write |
| UsbResources.OnlyOnce | pkg/owonusb/resources.go:43-128 | no handle is closed and no interface released twice |
| UsbResources.ClosedInOrder | pkg/owonusb/resources.go:56-90 | the interface is released before its device closes, the context closes after all devices |
| UsbResources.Resources.Close | pkg/owonusb/resources.go:43-93 | succeeds if and only if nothing is owned afterwards and the context was live; a failure stops nothing behind it: device and open peers are attempted once each, the context if none is left, and each stays open if and only if its own attempt failed |
| UsbResources.EachPeerTried | pkg/owonusb/resources.go:111-128 | peer by peer: open afterwards if and only if it was and its own attempt failed |
| UsbResources.Resources.CloseExtraDevices | pkg/owonusb/resources.go:111-128 | every open peer is attempted; failures stay for a retry |
| UsbResources.Resources.HasOpenExtraDevice | pkg/owonusb/resources.go:98-106 | true if and only if some peer is open |
| UsbResources.Resources.ContextOutlivesDevices | pkg/owonusb/resources.go:80-90 | a closed context has no open devices |
| UsbBackends.OpenResources | pkg/owonusb/discovery.go:32-104 | a failed opening cleans up and returns what it could not close |
| UsbBackends.Backend.Close | pkg/owonusb/backend.go:328-347 | the set is let go if and only if all of it is closed |
| UsbBackends.Backend.Reject | pkg/owonusb/backend.go:301-323 | a rejected candidate is closed, or kept for another attempt without a session |
| UsbIdentity.IdentityRoundTrip | pkg/owonscpi/identity.go:14-31 | an identity is parsed back from its own reply if and only if its four fields are nonempty, trimmed and without commas, whatever counts as white space |
| UsbIdentity.ParsedHasFields | pkg/owonscpi/identity.go:14-31 | whatever reply is parsed, its four fields are such fields |
| UsbIdentity.RightInstrumentIsRecognized | pkg/owonusb/backend.go:256-276 | an instrument that falls silent within the bound, accepts the query and answers with its OWON identity line, in any fragments, proves its identity |
| UsbIdentity.WhoIsRecognized | pkg/owonusb/backend.go:264-276 | whoever is recognized has answered with four such fields, an OWON manufacturer in any case of letters, and the expected serial and model |
| UsbBackends.AskIdentity | pkg/owonusb/backend.go:256-264 | draining and the identity query over a new session yield exactly the reply that the transfers decide |
| UsbBackends.Backend.Identify | pkg/owonusb/backend.go:249-276 | a candidate is accepted if and only if the context is live, its descriptor serial is the selected one, and the instrument proves over the wire that it is the expected one |
| UsbBackends.Backend.ReplaceAndValidate | pkg/owonusb/backend.go:209-280 | a new set is acquired only when nothing is owned; success publishes a fresh session of an instrument that proved its identity, and comes if nothing native fails and the right instrument answers; failure behind the close leaves no session |
| UsbBackends.Backend.ReopenAndValidate | pkg/owonusb/backend.go:184-204 | recovery is for the pinned serial and changes nothing for another |
| UsbBackends.Open | pkg/owonusb/backend.go:102-142 | an error keeps the backend if and only if something is left to be closed |

## Left out

- Sessions, streams and the budget's swaps are step functions on values, not classes, because their meaning is in the interleaving; updates in place by several goroutines are therefore atomic at the points where another goroutine can observe them, and the Go memory model below that is not modelled.
- Nil receivers, nil contexts and nil backends, and the error texts and wrapping, of which only the kinds are kept.
- Timers and real clocks: instants are integers and any clock reading is allowed; a wait is modelled by the dispatch that follows it.
- Logging, gRPC and protobuf, HTTP and TLS, the command line and the browser page.
- The wire size of an event is an arbitrary number, to which the eleven bytes of the sequence are added as in the code.
- Capture, publication and call counters are unbounded, not 64 bits wide.
- A queue without a budget, which admits every charge, and the growth and clearing of backing arrays.
- Validation of single patches and of USB configuration, number formatting, and the ranges of generator settings: a patch is taken as validated, its settings as serialized.
- `libusb` enumeration, serial selection and endpoint descriptors: discovery is given by where it fails.
- Unix sockets, screen headers, waveform decoding and the DMM's reply grammar.
- SubscriptionQueues.SubscriptionQueue.NextReady: one look under the mutex; the waiting loop around it is the handler of `SubscriptionStream`.
- PollScheduling.PollScheduler.EndRound: which of several ready channels `select` takes is a parameter, any of them being allowed.
- GeneratorCommands.EchoIsUnderstood: upper-casing and white space are those of ASCII; the code's Unicode cases can only concern replies it rejects as non-ASCII or takes for more separators.
- GeneratorTransaction.Operate: does not fix the texts of errors.
- DmmTransaction.SetDmm: takes the parser as a parameter; that the operation's context ends in the end is its precondition, which the configured timeout provides.
- SessionProgress.NoDeadlock: progress needs the caller to close what it began, as the documentation asks; fairness of the Go scheduler is not modelled.
