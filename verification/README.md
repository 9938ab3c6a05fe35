# Worker protocols, modelled and proved

The worker publishes overlay events for one Discord stream at a time, turns its audio into captions
through a speech provider, draws them into a scene, and sends that scene out as video. It does so with
several small concurrent protocols that rest on generation numbers, latest-wins maps and bounded queues.
This project models those protocols and proves what they keep, over every run.

Each protocol has two halves. A class holds the fields the worker updates, and its methods are the
sections it runs under one mutex; each method is proved against a function or relation on the old and the
new fields. A state machine then takes these functions as its steps, lets everything else that may
happen come in between (other goroutines, failures, deadlines, answers from outside), and proves
invariants of all reachable states and properties of all runs. Two protocols are closer to the ground: the
steps of a video session are those of its writer and its shutdown (the methods `RenderFrame` and `Shutdown`
go through them in one sweep), and the receipts protocol takes the list functions of its class. Time is an
integer that never goes back, and generations are natural numbers.

| protocol | class and functions | runs |
|---|---|---|
| event delivery | `EventKeys`, `EventDelivery` | `DeliveryProtocol`, `DeliveryCapacity`, `DeliveryRetries` |
| captions | `Transcripts`, `SceneState`, `SceneObject` | `TranscriptContent`, `SceneContent`, `SceneAgreement`, `CaptionConvergence` |
| provider connections | `Connections` | `ConnectionProtocol`, `ConnectionProgress` |
| caption audio | `CaptionQueue`, `CaptionRetry` | `CaptionSupersession`, and `CaptionRetry` and `CaptionCompletion` for one batch |
| job lifecycle | `Lifecycle` | `LifecycleProtocol`, `LifecycleSessions` |
| stop receipts | `StopReceipts` | `ReceiptProtocol` |
| scene appearance | `ChunkScan`, `AppearanceCache`, `AppearanceRuntime` | `AppearanceBindings` |
| video output | `VideoOutput` | `VideoProtocol` |

What the proofs found, where the code does not do what one might expect of it. Where a property fails
there is an input that shows it, and the exact condition under which it holds:

- The pending map is bounded by 256 only where events enter it: a failed retry is put back without the
  check. That is the only step that leads past 256 (`DeliveryCapacity.CapacityKeptIff`), it happens
  (`DeliveryCapacity.QueueReaches257`), and map and retry in flight together stay within 257
  (`DeliveryProtocol.QueueBound`).
- The 2 s ceiling of the retry back-off is never reached (`EventDelivery.BackOffBelowCeiling`).
- The scene's caption merge depends on the order of two events
  (`CaptionConvergence.MergeAloneDependsOnOrder`), exactly as `CaptionConvergence.MergeOrderIrrelevantIff`
  says. For what one connection sends it does not.
- A final entry in the conversation can be reopened by a late interim once its caption has been crowded out
  of the caption list (`SceneAgreement.LateInterimReopensEntry`), and only then
  (`SceneAgreement.FinalEntryStaysIff`).
- A caption session that was created for a start that then failed leaves its generation pair to the next
  session (`LifecycleSessions.AbortedPairIsReused`, `LifecycleSessions.SamePairIff`). It was never given
  audio, and every transcript that arrives comes from a session that was installed
  (`LifecycleProtocol.EveryTranscriptIsFenced`).
- If audio moves to a newer connection while the video output is starting, and that start fails, the
  newer ingress keeps running (`LifecycleProtocol.IngressOutlivesFailedStart`); and there is no other way
  for an idle manager to have one (`LifecycleProtocol.IdleIngressesStoppedIff`).
- A batch whose deadline passes between two packets ends without the rest being counted as dropped, though
  it was neither fenced nor cancelled (`CaptionRetry.DeadlineBetweenPackets`); a deadline met when a retry
  is due is counted (`CaptionRetry.AbandonedIff`).
- When a newer connection supersedes an ingress, a batch that was metered out and had not passed the fence
  is neither fed nor counted (`CaptionSupersession.BatchCanBeLost`,
  `CaptionSupersession.AllAccountedForIff`). One that was counted can still pass the check of the context
  (`CaptionSupersession.CountedBatchPassesContextCheck`), but never the fence
  (`CaptionSupersession.CountedNeverHanded`).
- A frame that passed the stopping check can begin its write after stopping is set
  (`VideoProtocol.WriteCanBeginAfterStopping`), and no other can
  (`VideoProtocol.WriteBeginsLaterIffChecked`).

## Model

| member | source | states |
|---|---|---|
| EventKeys.SameKeyIffSameSlot | internal/jobs/event_delivery.go:117-134 | within one stream two events share a queue key exactly when they are states of the same thing (roster, speaker, chat message, utterance, single event) |
| EventDelivery.Hub.StartEventDelivery | internal/jobs/event_delivery.go:27-40 | starts delivery once and leaves the queue as it is |
| EventDelivery.Hub.StopEventDelivery | internal/jobs/event_delivery.go:42-62 | delivery is off and both maps are empty |
| EventDelivery.Hub.Enqueue | internal/jobs/event_delivery.go:64-93 | accepts only the running job's events, becomes the latest of its key, and makes room by dropping one oldest droppable event only when a new key meets a full queue |
| EventDelivery.Hub.Supersede | internal/jobs/event_delivery.go:95-106 | a newer event of the running job becomes the latest of its key and removes the pending one |
| EventDelivery.Hub.DropOldestPending | internal/jobs/event_delivery.go:136-152 | removes an event queued no later than any droppable one, or finds that none is droppable |
| EventDelivery.Hub.NextPending | internal/jobs/event_delivery.go:182-207 | takes out an event that is due and was queued no later than any other that is due, or tells the wait until the next one is |
| EventDelivery.Hub.IsCurrent | internal/jobs/event_delivery.go:246-250 | a retry goes on only for the running job and the latest event of its key |
| EventDelivery.Hub.Requeue | internal/jobs/event_delivery.go:237-243 | a failed retry is put back unless a newer event waits under its key, or its job is over |
| EventDelivery.BackOffBelowCeiling | internal/jobs/event_delivery.go:229-235 | the delay after any attempt that is retried is below the ceiling |
| DeliveryProtocol.InvStep | internal/jobs/event_publishing.go:74-141 | every step of a direct publish, the retry loop, and the start and end of jobs keeps the invariant that ties queue, latest map, publish log and program counters |
| DeliveryProtocol.PublishOrder | internal/jobs/event_delivery.go:209-250 | for each key and generation the publish log never goes back in ingress order: no superseded event is published after its successor |
| DeliveryProtocol.AttemptsNumbered | internal/jobs/event_delivery.go:209-231 | an event is handed to the publisher at most five times, numbered 1, 2, 3 without gaps, and never after a success |
| DeliveryProtocol.QueueBound | internal/jobs/event_delivery.go:79-85 | pending events and the retry in flight are at most 257 |
| DeliveryCapacity.CapacityKeptIff | internal/jobs/event_delivery.go:79-85 | from at most 256 pending events a step leads to more if and only if it puts a failed retry of a current event back into a full queue |
| DeliveryCapacity.QueueReaches257 | internal/jobs/event_delivery.go:237-243 | a run that fills the queue, takes one event off it, fills the place, and puts the event back |
| DeliveryProtocol.UndroppableIsSmall | internal/jobs/event_delivery.go:136-152 | in a queue of one stream at most two events may not be dropped |
| DeliveryProtocol.EnqueueNeverRefused | internal/jobs/event_delivery.go:69-83 | a failed event is refused by the queue if and only if its job is no longer the running one |
| DeliveryProtocol.IdleDeliversNothing | internal/jobs/event_delivery.go:42-62 | when an operation that ended a job has returned, nothing of it is queued or in the retry loop's hands |
| DeliveryRetries.FirstRetryDue | internal/jobs/event_delivery.go:78-85 | a failed publish that is queued is due again after 100 ms, as it was, counted as tried once, the newest of its key |
| DeliveryRetries.MakesRoomForOne | internal/jobs/event_delivery.go:79-92 | other keys stay while there are fewer than 256 or the key is taken over; otherwise exactly an oldest droppable one goes |
| DeliveryRetries.TriedAgainIff | internal/jobs/event_delivery.go:209-224 | an entry taken off the queue goes on if and only if it is the newest of its key and its job runs, before and after the wait for the publisher |
| DeliveryRetries.AnotherRetryIff | internal/jobs/event_delivery.go:219-235 | in every reachable state another attempt follows if and only if the outcome is retryable, nothing was cancelled and the attempt was not the fifth, and it is due 200, 400 or 800 ms later |
| DeliveryRetries.PutBackIff | internal/jobs/event_delivery.go:237-243 | the event of that attempt is put back as it is if and only if its job runs and no newer event waits under its key |
| DeliveryRetries.FiveAttempts | internal/jobs/event_delivery.go:209-243 | a run in which an event that keeps failing is published five times and then given up |
| Transcripts.UtteranceIDInjective | internal/deepgram/transcript.go:189-221 | on one connection different utterances have different IDs |
| Transcripts.SpeakerConnection.ApplyResult | internal/deepgram/transcript.go:123-170 | the fields after a recogniser result and the transcript it yields, with segments collected and a final closing the utterance |
| Transcripts.SpeakerConnection.LocalFinalizeDue | internal/deepgram/transcript.go:172-187 | when silence has lasted long enough the open utterance is finalised from what it has |
| Transcripts.SpeakerConnection.BuildTranscript | internal/deepgram/transcript.go:189-213 | the transcript carries the utterance's next revision |
| Transcripts.SpeakerConnection.ResetUtterance | internal/deepgram/transcript.go:215-221 | clears the utterance and nothing else |
| Transcripts.SpeakerConnection.MarkAudio | internal/deepgram/speaker_connection.go:112-119 | audio only moves the time of the last audio |
| Transcripts.RunTracks | internal/deepgram/transcript.go:123-221 | for any inputs the connection's counters say exactly what it has emitted for the open utterance |
| Transcripts.EmitsWellRevised | internal/deepgram/transcript.go:123-221 | each utterance is emitted with revisions 1, 2, 3 without gaps and at most one final, which is the last and the highest |
| TranscriptContent.EmitsWhatWasRecognised | internal/deepgram/transcript.go:123-213 | after any inputs one more is answered exactly when it brings new text or closes an open utterance, and then with the text and confidence recognised last since the utterance began, its speaker, ID, earliest start, end, reason and last audio, all told from the inputs |
| TranscriptContent.EarliestIsLeast | internal/deepgram/transcript.go:142-152 | the start is no later than any the utterance's results name, and one of them, or the arrival of the first if that named none |
| SceneObject.Board.Apply | internal/scene/state.go:316-352 | an event of the current stream and generation prunes first, then has exactly the effect of its kind; any other changes nothing |
| SceneObject.Board.ApplyCaption | internal/scene/state.go:552-631 | the caption list and the conversation after a voice caption, by last-writer rules on finality and revision |
| SceneObject.Board.ApplyVoice | internal/scene/state.go:573-630 | an outdated caption changes nothing; another one is shown in both lists |
| SceneObject.Board.FindCaption | internal/scene/state.go:573-582 | the last caption of the utterance, if any |
| SceneObject.Board.IsOutdated | internal/scene/state.go:583-597 | whether what is shown is final or of a higher revision, as the rules compare them |
| SceneObject.Board.RemoveCaptions | internal/scene/state.go:599-610 | a final removes exactly the captions it replaces |
| SceneObject.Board.ApplyParticipants | internal/scene/state.go:410-464 | the roster, its order and the speaking marks after a list of participants |
| SceneObject.Board.ApplySpeaker | internal/scene/state.go:466-506 | who speaks, and the entry made for an unlisted speaker |
| SceneObject.Board.ApplyChat | internal/scene/state.go:508-550 | a chat message already seen changes nothing; a new one enters chat and conversation within their bounds |
| SceneObject.Board.Prune | internal/scene/state.go:633-672 | drops what has expired from every list, and the earliest of too many seen message IDs |
| SceneObject.Board.PruneSeen | internal/scene/state.go:655-671 | expired message IDs go, then those that expire first while there are too many |
| SceneObject.Board.InsertConversation | internal/scene/state.go:674-701 | replaces the entry with the item's ID where it stands, or inserts it within the reorder window, and keeps the newest entries |
| SceneObject.Board.RemoveConversationVoice | internal/scene/state.go:703-712 | removes exactly the voice entries the filter names |
| SceneObject.Board.UpsertConversationVoice | internal/scene/state.go:714-722 | the conversation after the entry of a voice caption was written |
| SceneObject.Board.ResolveSpeaker | internal/scene/state.go:724-736 | which user and name a caption is shown under |
| SceneObject.Board.FindUniqueSpeaker | internal/scene/state.go:738-759 | the only participant who speaks, if there is exactly one |
| SceneObject.Board.RefreshVoiceSpeakers | internal/scene/state.go:766-807 | captions and voice entries take their names from the roster, everything else stays |
| SceneObject.Board.Reset | internal/scene/state.go:236-250 | an empty scene for a stream and generation |
| SceneObject.Board.Clear | internal/scene/state.go:291-304 | an empty scene, unless another stream is current |
| SceneObject.Board.ConfigureDisplay | internal/scene/state.go:167-189 | takes the display settings that are in range |
| SceneAgreement.StepOk | internal/scene/state.go:316-352 | every operation keeps the agreement of the lists, their bounds and the roster |
| SceneAgreement.CaptionsAndConversationAgree | internal/scene/state.go:552-722 | in every state of every run an utterance is at most once in captions and once in the conversation, with the same text, finality, revision and expiry; conversation IDs are unique |
| SceneAgreement.ListsStayBounded | internal/scene/state.go:410-672 | all lists stay within their bounds and participantIDs lists the participants without repetition |
| SceneAgreement.FinalEntryStaysIff | internal/scene/state.go:573-597 | a late interim leaves a final conversation entry final if and only if its caption is still listed |
| SceneAgreement.LateInterimReopensEntry | internal/scene/state.go:674-683 | three events after which a final entry is an interim one again |
| SceneContent.ChatShown | internal/scene/state.go:508-550 | an accepted chat message not known is shown at the end of the chat and in the conversation where it belongs, with its cleaned ID, author, name, content, time and expiry; a known one changes nothing |
| SceneContent.PostedIsLast | internal/scene/state.go:540-548 | with room for any chat at all the message just posted is the last in the chat |
| SceneContent.RepeatIgnored | internal/scene/state.go:515-517 | a second delivery within ten minutes changes nothing but what pruning does |
| SceneContent.SeenStays | internal/scene/state.go:655-671 | a known ID is kept until its ten minutes are up while at most 256 are known |
| SceneContent.ForgottenFor256 | internal/scene/state.go:655-671 | before that an ID is only forgotten for 256 that expire no earlier |
| SceneContent.InsertPlaces | internal/scene/state.go:674-701 | an item replaces the entry with its ID, or stands before the first later entry, or at the end if it is older than the last by more than the reorder window; then the newest stay |
| SceneContent.PlacedIff | internal/scene/state.go:674-701 | a new entry is shown if and only if it was not pushed out at the front of a full list |
| SceneContent.CaptionShown | internal/scene/state.go:552-631 | an accepted caption that nothing listed stands against is shown in both lists with what was recognised, under the resolved speaker, for the final or the interim time to live; a final takes the place of what it replaces |
| SceneContent.VoicePlaced | internal/scene/state.go:703-722 | the conversation with the entry of a caption in it, after a final removed exactly the entries it replaces |
| SceneContent.ParticipantsShown | internal/scene/state.go:410-464 | after a list of participants everybody listed is as the first entry with the ID says, and nobody is left out but for lack of room or of an ID |
| SceneContent.SpeakerShown | internal/scene/state.go:466-506 | a speaker edge marks exactly its user, listing one who speaks if there is room; a stop without a user silences everybody |
| CaptionConvergence.ShowsNewestDelivered | internal/scene/state.go:573-625 | with the events of one connection in any order and repeated at will, the scene shows the (final, revision)-greatest delivered |
| CaptionConvergence.Convergence | internal/deepgram/transcript.go:123-221 | two scenes given the same events of an utterance, each in its own order and among its own other events, show the same caption |
| CaptionConvergence.MergeAloneDependsOnOrder | internal/scene/state.go:573-600 | two events, not numbered as the connection numbers them, for which the order decides |
| CaptionConvergence.MergeOrderIrrelevantIff | internal/scene/state.go:573-625 | exactly when two events of one utterance show the same in either order, versioned or not, listed already or not |
| CaptionConvergence.NumberedOrderIrrelevantIff | internal/scene/state.go:583-597 | what that comes to for numbered events of a new utterance |
| Connections.Session.FindOrDial | internal/deepgram/connections.go:30-130 | one pass over the table finds the live connection, waits for a dial, starts one, or says why not |
| Connections.Session.TryConnection | internal/deepgram/connections.go:30-107 | the table and outcome of that pass, with older generations and rivals of the user taken out |
| Connections.Session.MoveTo | internal/deepgram/connections.go:44-58 | a newer generation takes out exactly the dials and connections of older ones |
| Connections.Session.DropOldDials | internal/deepgram/connections.go:46-51 | which dials go, and that the others stay |
| Connections.Session.DropOldConns | internal/deepgram/connections.go:52-57 | which connections go, and that the others stay |
| Connections.Session.DropRivals | internal/deepgram/connections.go:78-91 | the other connections of the packet's user or SSRC go, and only they |
| Connections.Session.CompleteDial | internal/deepgram/connections.go:132-177 | removes only its own dial entry, installs the socket only if the dial succeeded, the session is open and the generation is still the latest, and has any other socket closed |
| Connections.Session.Discard | internal/deepgram/connections.go:179-186 | removes a connection only while it is the one listed |
| Connections.Session.Close | internal/deepgram/session.go:176-205 | the first close empties the table and hands back every connection to close |
| Connections.AttemptOk | internal/deepgram/connections.go:30-130 | a pass keeps every entry at the latest generation, keys disjoint, and the cap |
| Connections.CompleteOk | internal/deepgram/connections.go:132-177 | so does the completion of a dial |
| ConnectionProtocol.InvStep | internal/deepgram/connections.go:30-186 | every step of dials, readers, ingest calls and Close keeps table and socket accounting |
| ConnectionProtocol.TableAlwaysOk | internal/deepgram/connections.go:30-186 | at every point of every run all entries are at the latest generation, live and dialling keys disjoint, the cap holds, a resolved user has one live connection, and a closed session has none |
| ConnectionProtocol.FoundIsOpen | internal/deepgram/connections.go:74-77 | in every run a packet is only given a connection that is open, and of its own user and the latest generation |
| ConnectionProtocol.SocketConservation | internal/deepgram/connections.go:145-177 | every dialled socket is in exactly one of the table, its dial call's hands, or owed a close while it is open, and is closed at most once |
| ConnectionProtocol.NeverReinstalled | internal/deepgram/connections.go:132-186 | a connection that left the table never comes back |
| ConnectionProtocol.CloseLeavesNothingOpen | internal/deepgram/session.go:176-205 | once closed with no dial and no reader outstanding, every socket has been closed exactly once |
| ConnectionProgress.PassDecides | internal/deepgram/connections.go:74-130 | for a packet of the latest generation of an open session without rivals: a live connection is found, a dial awaited, and otherwise a dial started if and only if fewer than the maximum are live and dialling |
| ConnectionProgress.PassRefuses | internal/deepgram/connections.go:36-73 | a closed session, a stale packet and a terminal provider error are refused, each with its own error |
| ConnectionProgress.DecidedInTwo | internal/deepgram/connections.go:60-98 | a pass that evicts older generations or rivals is followed by one that does not, so that two decide |
| ConnectionProgress.EveryPacketDecided | internal/deepgram/connections.go:30-130 | from every reachable table two undisturbed passes decide about a packet that is not stale: it gets a live connection, a dial to wait for or one of its own, and is refused only when the maximum is reached |
| ConnectionProgress.DialInstalledIff | internal/deepgram/connections.go:132-177 | a dial ends with its connection in the table if and only if it succeeded, the session is open, and its generation is still the latest |
| ConnectionProgress.TableFills | internal/deepgram/connections.go:115-130 | for any maximum a run in which as many connections are live at once |
| CaptionQueue.Validate | internal/jobs/caption_audio.go:294-321 | a batch is accepted exactly when it is not empty, all packets are in order and of one generation pair, and it fits the budget; otherwise the error is that of the first packet refused |
| CaptionQueue.Ingress.Enqueue | internal/jobs/caption_audio.go:41-58 | a batch is taken exactly when the ingress is not cancelled and all three bounds hold with it; order is kept |
| CaptionQueue.Ingress.Receive | internal/jobs/caption_audio.go:110 | the oldest batch is received, still metered |
| CaptionQueue.Ingress.MarkDequeued | internal/jobs/caption_audio.go:60-71 | the counters go down by exactly the batch, so the clamps at zero are never taken |
| CaptionQueue.Ingress.Snapshot | internal/jobs/caption_audio.go:73-77 | the counters are what was accepted and not metered out |
| CaptionQueue.Ingress.Cancel | internal/jobs/caption_audio.go:283-292 | nothing is accepted afterwards, nothing else changes |
| CaptionQueue.MarkOk | internal/jobs/caption_audio.go:60-71 | metering a batch out keeps all bounds, and takes the counters to what is left |
| CaptionQueue.TakenIff | internal/jobs/caption_audio.go:41-58 | a batch is taken if and only if with it at most 1024 packets and 8 MiB are metered and at most 128 batches wait, and the ingress is not cancelled |
| CaptionQueue.RetainedIs | internal/jobs/caption_audio.go:316 | a batch is charged its payloads, its user IDs and 128 bytes a packet |
| CaptionSupersession.InvStep | internal/jobs/caption_audio.go:104-190 | every step of endpoint, goroutine and supersession, with count and cancellation apart and the fences under the manager's lock, keeps the invariant |
| CaptionSupersession.CountedNeverHanded | internal/jobs/caption_audio.go:377-385 | in every run no batch that was counted as dropped passes the fence or is handed to the provider, and the count is of exactly those packets |
| CaptionSupersession.AllAccountedForIff | internal/jobs/caption_audio.go:111-148 | after a supersession every accepted batch was let through to an attempt or counted, if and only if the goroutine held no batch metered out and not past the fence at the count |
| CaptionSupersession.BatchCanBeLost | internal/jobs/caption_audio.go:111-114 | a run in which a batch is neither |
| CaptionSupersession.CountedBatchPassesContextCheck | internal/jobs/caption_audio.go:379-380 | a run in which a counted batch passes the check of the context between count and cancellation |
| CaptionRetry.World.IngestAttempt | internal/jobs/caption_audio.go:476-535 | what an attempt hands over, has accepted and finds failed, and what cut it short, for any course of fences, deadlines and answers |
| CaptionRetry.World.PassOn | internal/jobs/caption_audio.go:510-517 | a batch-wide failure is passed on to every packet after it |
| CaptionRetry.World.AfterFailures | internal/jobs/caption_audio.go:151-174 | another attempt follows only if every failure may be retried, attempts are left, and no deadline, cancellation or fence is met |
| CaptionRetry.World.RecordDrop | internal/jobs/caption_audio.go:256-266 | a drop is counted exactly when the fence finds its generations current |
| CaptionRetry.World.ProcessBatch | internal/jobs/caption_audio.go:141-180 | how the work on a batch ends and what it did, for any course of events |
| CaptionRetry.AttemptSplits | internal/jobs/caption_audio.go:499-534 | an attempt hands its packets over in order, each at most once; a whole one splits them into those accepted and those to be retried, both in order |
| CaptionRetry.BatchConserved | internal/jobs/caption_audio.go:141-180 | however a batch ends no packet is handed over more than three times or accepted twice; delivered means all accepted once, dropped means all accepted once or counted once |
| CaptionRetry.AbandonedIff | internal/jobs/caption_audio.go:145-179 | a batch ends uncounted if and only if a fence or a cancellation was met, or the deadline before a packet |
| CaptionRetry.UndisturbedBatchCompletes | internal/jobs/caption_audio.go:157-168 | without these every packet is accepted once or counted once, also when the deadline is met as a retry is due |
| CaptionRetry.DeadlineBetweenPackets | internal/jobs/caption_audio.go:501-504 | a batch cut off by its deadline alone, with a packet neither accepted nor counted |
| CaptionRetry.FailuresRetryable | internal/jobs/caption_audio.go:221-231 | whether there are failures and all of them may be retried |
| CaptionRetry.FailurePackets | internal/jobs/caption_audio.go:200-206 | the packets to retry are those that failed, in order |
| CaptionRetry.FailureClass | internal/jobs/caption_audio.go:208-219 | the reported class is the one all failures share |
| CaptionRetry.FailureStatus | internal/jobs/caption_audio.go:233-244 | the reported status is the non-zero one all failures share |
| CaptionCompletion.EndsAsAnswered | internal/jobs/caption_audio.go:141-180 | undisturbed, how a batch ends is told from the provider's answers alone: three attempts, each with what failed before, as long as all failures may be retried; delivered as soon as none fails, else dropped with so many failures after so many retries |
| CaptionCompletion.DeliveredIff | internal/jobs/caption_audio.go:151-174 | a batch whose failures may all be retried is delivered if and only if its first, second or third attempt leaves no packet failing |
| CaptionCompletion.DroppedOnlyIf | internal/jobs/caption_audio.go:154-177 | whatever happens, a batch is dropped only over a failure that may not be retried, after two retries, or when the deadline had passed as a retry was due |
| CaptionCompletion.AcceptedAsAnswered | internal/jobs/caption_audio.go:499-534 | a packet counts as accepted exactly when the provider answered Ok to it, and every failure of a dropped batch is one the provider gave |
| Lifecycle.Manager.EnsureStreamLocked | internal/jobs/manager.go:436-450 | accepts only the active stream of a manager that is not stopping |
| Lifecycle.Manager.StartCheck | internal/jobs/manager.go:163-179 | the pair a new session would carry, unless the manager is busy |
| Lifecycle.Manager.StartCommit | internal/jobs/manager.go:231-313 | the fields after a start is refused, rolled back, or takes effect |
| Lifecycle.Manager.LaunchFailed | internal/jobs/manager.go:324-336 | the fields after the video output failed to start |
| Lifecycle.Manager.StopBegin | internal/jobs/manager.go:356-388 | a stop of another stream changes nothing; otherwise session and ingress are taken out behind the stop fence |
| Lifecycle.Manager.StopFinish | internal/jobs/manager.go:404-414 | the job ends only once its receipt is recorded |
| Lifecycle.Manager.StopDelivery | internal/jobs/event_delivery.go:42-51 | delivery is off, the other fields stay |
| Lifecycle.Manager.UpdateCheck | internal/jobs/caption_runtime.go:79-96 | the pair a replacement session would carry, for the active stream only |
| Lifecycle.Manager.UpdateSwap | internal/jobs/caption_runtime.go:134-165 | a prepared session takes over only if the job is still the one it was prepared for |
| Lifecycle.Manager.FailVideo | internal/jobs/scene.go:80-104 | a report ends the job if and only if it is for the current stream and generation and the job has video output |
| Lifecycle.Manager.FenceAudio | internal/jobs/caption_audio.go:350-387 | stale audio is refused, newer audio gets a new ingress and supersedes the old one |
| Lifecycle.Manager.AdmitAudio | internal/jobs/caption_audio.go:394-414 | audio is admitted only to the ingress it was fenced for |
| Lifecycle.Manager.IsAudioCurrent | internal/jobs/caption_audio.go:182-190 | whether a batch's ingress is still the one its stream uses |
| Lifecycle.Manager.TakeSession | internal/jobs/caption_audio.go:480-498 | audio is given to the installed session, if and only if the stream is active and the generations expected are the current ones |
| Lifecycle.Manager.AdmitTranscript | internal/jobs/event_publishing.go:75-87 | a transcript passes only with the current generations |
| LifecycleProtocol.InvStep | internal/jobs/manager.go:145-420 | every step of every operation, with failures at any point, keeps the invariant |
| LifecycleProtocol.SessionAccounting | internal/jobs/manager.go:195-349 | sessions created are those closed, each once, plus the installed one, plus one in the hand of the operation in progress |
| LifecycleProtocol.IdleHoldsNothing | internal/jobs/manager.go:351-420 | between operations an idle manager has no session, no ingress and no delivery, and delivery runs exactly while a job is active and not stopping |
| LifecycleProtocol.HandlerCarriesCurrentPair | internal/jobs/caption_events.go:13-24 | the generations an installed session's handler captured are the current ones, and not zero |
| LifecycleProtocol.InstalledPairsIncrease | internal/jobs/caption_runtime.go:157-165 | the pairs of successively installed sessions strictly increase |
| LifecycleProtocol.TranscriptAcceptedIffInstalled | internal/jobs/event_publishing.go:80-87 | a transcript of a session that was ever installed passes the fence exactly while that session is the installed one |
| LifecycleProtocol.LateTranscriptRejected | internal/jobs/scene.go:96-103 | once taken out, by whatever operation, a session's transcripts are rejected for ever |
| LifecycleProtocol.EveryTranscriptIsFenced | internal/jobs/caption_audio.go:493-508 | every transcript that arrives is of a session that was installed, and is taken exactly while it still is |
| LifecycleProtocol.FenceIffIngressCurrent | internal/jobs/caption_audio.go:182-190 | the fence lets a batch through exactly while its ingress is the current one |
| LifecycleProtocol.IngressHomogeneous | internal/jobs/caption_audio.go:350-426 | all batches accepted by one ingress carry one job and one connection generation |
| LifecycleProtocol.ConnectionNeverDecreases | internal/jobs/caption_audio.go:368-385 | the job generation never goes down, nor within a job the connection generation |
| LifecycleProtocol.UpdateSwapsOrChangesNothing | internal/jobs/caption_runtime.go:64-190 | a failed preparation leaves the manager as it was; a swap changes session, ingress and session generation only, and the old session and ingress are torn down |
| LifecycleProtocol.StoppingKeepsItsJob | internal/jobs/scene.go:80-86 | while a stop is unfinished no video failure report matches, and the job is there for the next stop |
| LifecycleProtocol.IdleIngressesStoppedIff | internal/jobs/manager.go:320-345 | an idle manager has cancelled every ingress if and only if no video start failed after audio had replaced its ingress |
| LifecycleProtocol.IngressOutlivesFailedStart | internal/jobs/manager.go:320-345 | a run that ends idle with an ingress still running |
| LifecycleSessions.SamePairIff | internal/jobs/manager.go:177-178 | two created sessions carry the same pair if and only if nothing was installed, stopped or lost to a video failure in between |
| LifecycleSessions.AbortedPairIsReused | internal/jobs/manager.go:231-236 | a run in which a closed session that was never installed, nor given audio, carries the pair of the installed one |
| StopReceipts.Book.FindStopped | internal/jobs/stopped_targets.go:8-16 | whether a receipt of the stream is alive |
| StopReceipts.Book.Remember | internal/jobs/stopped_targets.go:18-32 | the newest 64 with the stream's receipt last, or the old list when the write failed |
| StopReceipts.Book.RememberInMemory | internal/jobs/stopped_targets.go:34-45 | the same without a write |
| StopReceipts.Book.Forget | internal/jobs/stopped_targets.go:47-57 | the list without the stream, or unchanged when there is nothing alive to forget or the write failed |
| StopReceipts.Book.WithoutStopped | internal/jobs/stopped_targets.go:59-68 | exactly the other streams' receipts that are alive, in order |
| StopReceipts.Book.Load | internal/jobs/stopped_target_receipts.go:84-107 | the alive receipts of a well-formed file, or the first error in it |
| StopReceipts.Book.Persist | internal/jobs/stopped_target_receipts.go:110-167 | the file is replaced as a whole or not at all, and success means it was |
| StopReceipts.RememberedOk | internal/jobs/stopped_targets.go:18-32 | remembering keeps the list free of duplicates, within 64 and well-formed |
| StopReceipts.RememberedKeeps | internal/jobs/stopped_targets.go:22-26 | a stop pushes out only a receipt with 64 newer ones behind it |
| StopReceipts.AcceptIff | internal/jobs/stopped_target_receipts.go:84-103 | a file loads if and only if its IDs are trimmed, not empty and distinct and its times are set, and then to exactly what is alive |
| StopReceipts.LoadReturnsWritten | internal/jobs/stopped_target_receipts.go:84-107 | loading what was written gives the list in memory minus what expired |
| StopReceipts.LoadedOk | internal/jobs/stopped_target_receipts.go:84-107 | whatever loads is in order, whoever wrote it |
| StopReceipts.WasStoppedIff | internal/jobs/stopped_targets.go:8-16 | a stream counts as stopped if and only if it has a receipt not older than 24 hours |
| ReceiptProtocol.ReceiptsAlwaysOk | internal/jobs/manager.go:242-246 | in every run the list stays in order and the active stream has no receipt that is alive |
| ReceiptProtocol.ReceiptSurvives | internal/jobs/manager.go:404-412 | a stopped stream's receipt survives for 24 hours, across restarts of the process whose file is in step, unless the stream starts again or 64 other streams are stopped |
| ReceiptProtocol.LateStopAcknowledged | internal/jobs/manager.go:355-372 | until then a late stop for it is acknowledged and leaves the manager as it is |
| ReceiptProtocol.RestartKeepsReceipts | internal/jobs/stopped_target_receipts.go:35-44 | whenever the process restarts it has the receipts that are alive, unless since the last successful write one ended between rename and sync, or a video failure did without one |
| ChunkScan.IsAnimated | internal/sceneappearance/runtime.go:663-699 | the scan terminates on any bytes, stays within them, and gives what walking the whole chunks gives |
| ChunkScan.PngAnimated | internal/sceneappearance/runtime.go:665-679 | the loop over PNG chunks: length, kind, data, checksum |
| ChunkScan.WebpAnimated | internal/sceneappearance/runtime.go:680-696 | the loop over RIFF chunks, with the pad byte after odd data |
| ChunkScan.ScanIff | internal/sceneappearance/runtime.go:669-696 | on any bytes it says animated if and only if an unbroken row of whole chunks leads to a marking one |
| ChunkScan.AnimatedIffChunkPresent | internal/sceneappearance/runtime.go:663-699 | on any serialised list of chunks it says animated if and only if a chunk of one of the announcing kinds is in the list |
| ChunkScan.FrontBytes | internal/sceneappearance/runtime.go:669-690 | the bytes a serialised chunk starts with: its length with the most significant byte first and its kind for PNG, its kind and its length with the least significant byte first for RIFF |
| ChunkScan.MarksIff | internal/sceneappearance/runtime.go:674-691 | the kinds that announce an animation, by their letters: acTL, ANIM and ANMF |
| AppearanceCache.KeptIff | internal/sceneappearance/runtime.go:386-401 | an entry survives eviction if and only if it and all used since fit both budgets together |
| AppearanceCache.StoredOk | internal/sceneappearance/runtime.go:378-402 | after a store the bytes are the sum of the entries, both budgets hold, a stream has one entry, stamps are distinct, and the new entry is there |
| AppearanceCache.StoredKeepsIff | internal/sceneappearance/runtime.go:376-401 | a store keeps, of what was cached, exactly the pictures of other streams that fit both budgets together with the new one and all used since |
| AppearanceRuntime.OnePicture | internal/sceneappearance/runtime.go:605-648 | with an injective hash all accepted responses to a descriptor decode to the same pixels |
| AppearanceRuntime.AcceptedIff | internal/sceneappearance/runtime.go:605-661 | a response is accepted with certain pixels if and only if the decoder gave these for its body, and hash, size, signature and all metadata are those of the descriptor and it is no animation |
| AppearanceRuntime.AnimationRefused | internal/sceneappearance/runtime.go:628-630 | a response with a marking chunk anywhere in its list is refused |
| AppearanceRuntime.Runtime.constructor | internal/sceneappearance/runtime.go:253-268 | defaults for budgets that are not positive |
| AppearanceRuntime.Runtime.Prepare | internal/sceneappearance/runtime.go:270-337 | fails exactly when one of its steps does, with that code, and changes nothing that is cached; success binds the stream and gives pixels the descriptor asked for, which are cached, so that asked again no fetch can fail it |
| AppearanceRuntime.PrivateBufferStays | internal/sceneappearance/runtime.go:322-334 | what one call has decoded is not zeroed or taken by others before it stores it |
| AppearanceRuntime.Runtime.Cached | internal/sceneappearance/runtime.go:339-355 | a hit gives the stored picture and only stamps it as used |
| AppearanceRuntime.Runtime.Store | internal/sceneappearance/runtime.go:357-403 | the cache after a store, with exactly the pictures that left it zeroed and the one returned untouched |
| AppearanceRuntime.Runtime.DropStream | internal/sceneappearance/runtime.go:376-382 | exactly the older pictures of the stream leave, zeroed |
| AppearanceRuntime.Runtime.Evict | internal/sceneappearance/runtime.go:386-401 | the least recently used leave, zeroed, until both budgets hold |
| AppearanceRuntime.Runtime.FindOldest | internal/sceneappearance/runtime.go:387-396 | an entry used no later than any other |
| AppearanceRuntime.Runtime.RemoveLocked | internal/sceneappearance/runtime.go:405-415 | one entry leaves, its pixels are zeroed, and the byte count goes down by exactly its size |
| AppearanceRuntime.Runtime.Close | internal/sceneappearance/runtime.go:417-432 | zeroes exactly what was cached and empties both maps |
| AppearanceRuntime.Runtime.BindGeneration | internal/sceneappearance/runtime.go:434-481 | an older generation, or another appearance under the same one, is refused; otherwise the stream is bound and at most the oldest other binding goes |
| AppearanceRuntime.Runtime.MakeRoom | internal/sceneappearance/runtime.go:463-479 | of one binding too many the oldest goes that is not the stream's own |
| AppearanceRuntime.Runtime.FindOldestOther | internal/sceneappearance/runtime.go:465-474 | a binding used no later than any other but the stream's own |
| AppearanceRuntime.Runtime.ValidateAndDecode | internal/sceneappearance/runtime.go:605-648 | the decoded pixels in a new buffer, or the first check that failed |
| AppearanceBindings.GenerationsNeverGoBack | internal/sceneappearance/runtime.go:448-462 | while a binding is retained accepted generations never decrease, and equal ones mean equal appearances |
| AppearanceBindings.BindingsBounded | internal/sceneappearance/runtime.go:463-479 | at most 128 streams are bound, among them the one just accepted |
| AppearanceBindings.AcceptedIff | internal/sceneappearance/runtime.go:448-457 | a request is accepted if and only if its stream is not bound, bound to an older generation, or to the same generation and appearance |
| AppearanceBindings.UnbindsOnlyOldest | internal/sceneappearance/runtime.go:463-479 | no other stream is unbound while there are at most 128, and otherwise exactly the one used longest ago |
| VideoOutput.Wire.WriteFull | internal/videoout/manager.go:389-401 | success sends exactly the data, failure a prefix of it, and it fails only if a call of Write does or reports nothing or too much |
| VideoOutput.SceneError | internal/videoout/manager.go:298-312 | a scene is fit to send if and only if it was rendered and encoded in the shape asked for, to between 1 byte and 16 MiB |
| VideoOutput.Session.RenderFrame | internal/videoout/manager.go:298-324 | a frame is sent whole and counted, or not counted; none is sent when it is unfit or the session is stopping |
| VideoOutput.Manager.ClaimStart | internal/videoout/manager.go:135-141 | a start goes on only if none is under way and no session is current |
| VideoOutput.Manager.EndStart | internal/videoout/manager.go:142-146 | the claim is given up however the start ends |
| VideoOutput.Manager.Install | internal/videoout/manager.go:171-176 | the session whose first frame was sent is current |
| VideoOutput.Manager.TakeForStop | internal/videoout/manager.go:213-216 | Stop takes out whatever is current |
| VideoOutput.Manager.TakeForMonitor | internal/videoout/manager.go:247-252 | a monitor takes out its own session only |
| VideoOutput.Closer.Shutdown | internal/videoout/manager.go:355-387 | the first call goes through the steps of the protocol, closes once and reports the first thing that went wrong; any other does nothing |
| VideoOutput.FeedKept | internal/videoout/manager.go:298-324 | each step of the writer keeps what was sent whole frames followed by part of one |
| VideoOutput.EndingKept | internal/videoout/manager.go:355-387 | each step of a shutdown keeps that nothing is past its check once the probe had the write lock, and closes once |
| VideoProtocol.InvStep | internal/videoout/manager.go:131-258 | every step of starts, stops, writers, monitors and shutdowns keeps the invariant |
| VideoProtocol.FramesSentWhole | internal/videoout/manager.go:313-322 | in every run what a session sent is whole frames and then a part of at most one more, and its counter is the size of the whole ones |
| VideoProtocol.NeverClosedDuringWrite | internal/videoout/manager.go:360-374 | the connection is closed between a frame's check and the end of its write only if the context of a Stop ran out |
| VideoProtocol.OnlyCurrentIsOpen | internal/videoout/manager.go:355-387 | a session is closed at most once, and between operations every session but the current one is closed |
| VideoProtocol.RemovedOnce | internal/videoout/manager.go:246-257 | an installed session is taken out by exactly one of Stop and monitor, with at most one failure callback and none after a Stop |
| VideoProtocol.NoWriteBeginsAfterStopping | internal/videoout/manager.go:313-318 | after stopping is set a write begins only if its frame had passed the check before |
| VideoProtocol.WriteBeginsLaterIffChecked | internal/videoout/manager.go:313-318 | after stopping is set some continuation begins a write if and only if a frame has passed the check and not begun |
| VideoProtocol.WriteCanBeginAfterStopping | internal/videoout/manager.go:313-318 | a run in which that happens |
| VideoProtocol.NothingSentAfterIdle | internal/videoout/manager.go:360-371 | once the probe has had the write lock nothing is ever sent again |

## Left out

- HTTP handlers, the control panel and encoder clients, token checks, configuration, metrics and reports: plumbing around what is modelled.
- Publisher, dialer, fetcher, secret resolver, clocks and contexts: their outcomes are parameters, or steps that may happen at any time.
- Pixel drawing, fonts, image decoders, SHA-256, SRT and websockets: functions or outcomes about which nothing is assumed, except that `AppearanceRuntime.OnePicture` takes the hash to be injective.
- Generations are unbounded; the source's 64-bit wrap-around is not modelled.
- DeliveryProtocol.PublishOrder: ingress calls for one key are taken one at a time, because overlapping ones may each rewrite the latest ID; event IDs are taken to be unique.
- EventDelivery.Hub.NextPending: the wait is computed from a later reading of the clock and may not be positive, after which the loop sleeps until it is woken; that the loop makes progress is not claimed.
- EventDelivery.Hub.Enqueue: the wake-up of the retry loop has no model of its own, the loop may look at any time.
- EventDelivery.Hub.StopEventDelivery: the recent-event list and its counters are not modelled.
- Connections.Session.FindOrDial: that an SSRC has one entry is not claimed, since dials in progress are not evicted; idle timeouts and keep-alives are not modelled.
- Transcripts.EmitsWellRevised: the ID sequence starts again with each connection, so IDs of different connections are not told apart; parsing of provider messages is left out.
- CaptionConvergence.ShowsNewestDelivered: for as long as the utterance neither expires nor is crowded out, which the lemma's hypotheses say.
- SceneAgreement.CaptionsAndConversationAgree: for voice transcripts that are shown, and utterance IDs other than the scene's own `<speaker>:active`; the conversation is not claimed to be in chronological order.
- SceneObject.Board.ApplyParticipants: avatar URLs are taken as given, their validation and download are left out.
- CaptionRetry.World.ProcessBatch: delays between attempts are not modelled; the deadline and a cancellation may strike at one look and not at the next, which allows more courses than there are. The one report that audio has started is left out.
- CaptionSupersession.InvStep: one ingress at a time; that the fence asks for the current ingress is `LifecycleProtocol.FenceIffIngressCurrent`. What an attempt does with a batch let through is `CaptionRetry`.
- Lifecycle.Manager.StartCommit: profile lookup, secrets, display settings and the reset of counters are not modelled; identifiers are taken as already trimmed.
- LifecycleProtocol.SessionAccounting: closing a session is one step; what closing does inside is `ConnectionProtocol`.
- StopReceipts.Book.Persist: JSON and file permissions are left out; the file is taken to be under the read limit.
- AppearanceRuntime.Runtime.Prepare: one call at a time; its sections hold for any state other calls leave behind, and what it has decoded stays its own meanwhile (`AppearanceRuntime.PrivateBufferStays`). Validation of a snapshot and the trimming of its title are an input. Pixel buffers are addresses into a memory that is a map, with zeroing in place; the response body, which the source zeroes too, is a value.
- AppearanceRuntime.Runtime.BindGeneration: the two loop exits for the case that nothing is left to evict are omitted, since the proofs show they cannot be taken.
- VideoOutput.Wire.WriteFull: the writer is taken to send what it reports, as its interface demands.
- VideoProtocol.NeverClosedDuringWrite: avatars, dial failures and the startup timer have no state of their own.
- Avatar cache, runtime configuration, the installer and the release scripts: simpler copies of the above, or shell.
