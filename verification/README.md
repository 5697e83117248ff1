# Satellite: a verified model

Satellite takes controller input from paired devices over UDP and drives virtual gamepads.
This project models its concurrent core in Dafny and proves what the core is for: that no
device is driven before it is plugged or after its unplug starts, that a declared set of
controllers comes out as its results say whatever the backends answer, that no packet is sealed twice
under one counter or under a key that has been rotated away, that queues, rings, mailboxes
and flushes lose nothing they promise to keep, and that the updater installs only what it
verified.

`dafny verify dfyconfig.toml` checks everything.

## How it is modelled

- **Sequential code** is a class with the source's fields, loops and branches.
  `SessionService.Service` is the topology engine, with `SerialPool.Pool` and
  `GamepadMux.Mux` under it. Its account of the serials (`Pads.Accounted`) is stated on plain
  values: every serial in use is bound to one active pad, reserved for one pending change, or
  retired and waiting for its unplug. Each phase of an operation is a method that changes the
  state and a lemma that the account survives it; the lemmas are in `Pads`, `Commit`,
  `Convergence`, `Publication` and `Sessions`. `Plugs` says what each result rests on: every
  request to a backend is logged with its answer, and every search for a serial with what it met.
- **Lock-free and interleaved code** is a transition system with one step per atomic access or
  per locked section: a state, a step, an invariant each step keeps, and theorems over every
  run. Where such code also has a plain sequential reading it is a class as well
  (`LogRing.Ring`, `SpscRing.Ring`, `MpscQueue.Queue`, `PointerWorker.Injection`,
  `Rumble.Controller`, `UpdateService.Service`). The handlers of the last three are proved equal
  to the functions their transition systems step by, and say what they leave a caller with; what
  the handlers are for is stated by the theorems about those systems, and only those are listed
  below.
- **Backends** answer as they like within the port's contract: a refused plug leaves nothing,
  a confirmed unplug and a closed bus leave nothing, an unconfirmed unplug may leave the device,
  and a bus that is not open holds nothing. In the model a child's bus goes down only through
  closeBus, and that is called only with no pad active, so an active pad always has a bus
  (`SessionService.Service.ActivePadHasBus`): the planner's branch for a replug while the bus is
  down (`src/core/session_service.cpp:544`) is in the model and never taken. Sinks, persists,
  downloads, verifications, clocks, fresh tokens and the reaper's timeouts are answers or
  parameters too. A plug or an unplug of a pad returns with no rumble callback of that pad still
  running, as the adapters see to in their unplug; the port itself does not promise it.
- **Rows by slot.** Sessions are kept by hot-table slot rather than by token; a row keeps its
  slot for life, and tokens are proved distinct.
- **Steps are sequentially consistent**; 64-bit counters are `nat`, and so are pointer stamps,
  plug generations, session epochs and packet counters, which the source keeps in 32 or 16 bits:
  the theorems about them hold until they wrap.

The lock-free side (`HotTable`) obliges the topology engine to plug only serials that are not
live, to publish only live ones and to unplug only serials no published word names. `Coupling`
proves that the engine meets each of these where it plugs, publishes and unplugs, and that what a
heartbeat reads off the table is one of the engine's publications.

## Found on the way

- A release of the pointer can clear a press of the very binding it starts: the housekeeping tick
  posts its retry without the topology lock, and a drain that stops at that retry's claimed but
  unpublished cell lets the new binding's frame overtake the release behind it
  (`PointerWorker.ReleaseCanClearItsOwnBinding`). `PointerWorker.ReleaseMeetsOwnInputIff` says
  exactly when a release meets input of its own binding, and
  `PointerWorker.OvertakenBehindRetry` that it takes such a retry.
- A HID rumble level that is taken for a haptic-only command already running stops with that
  command and stays stopped until the refresh is due (`Rumble.RaisedOnShortGoesQuiet`, and
  `Rumble.RaisedOnShortHappens` for a run); `Rumble.HeldLevelRunsIff` says exactly when.
- A pad unplugged under a held level, plugged again and bound leaves the client running the old
  command, for up to 500 ms or until the game writes (`Rumble.StaleCommandRuns`;
  `Rumble.HidOnlyRunsExactlyIff` is the exact condition).
- Build metadata is not ignored. It makes the patch read as zero, a hyphen in it starts a
  pre-release, and behind a pre-release it becomes part of the last identifier:
  `1.2.3+5`, `1.2.0+a-b` and `1.0.0-beta+exp.sha.5114f85` all differ from what precedes the plus.
  `Semver.BuildMetadataKeepsOrderIff` says exactly when the order is kept.
- The multi-producer queue's `depth` loads the consumed count before the enqueued one, so it
  reports the backlog at the second load and every pop completed in between: it can exceed the
  capacity by any amount (`MpscQueue.DepthIsBacklogAndPops`, with the exact condition;
  `MpscQueue.DepthCanReportAnything`).

## Model

| member | source | states |
|---|---|---|
| SessionService.Service.constructor | src/core/session_service.cpp:175-204 | A new service is valid and has no session. |
| SessionService.Service.SerialsAreTheActivePads | src/core/session_service.cpp:278-361 | Between operations the serials in use are exactly the active pads' serials, no two alike, all in 1..16, none quarantined, each plugged; and no device sits on a serial that is neither in use nor quarantined. |
| SessionService.Service.HotIsCold | src/core/session_service.cpp:48-114 | At every release of the lock a published word names a serial at a pad exactly when the row does, with the row's caps, type, mode and generation, the owner table is the inverse of both, token and epoch are the row's, and the active count is the sum of the rows' active pads. |
| SessionService.Service.EpochNamesThePads | src/core/session_service.cpp:1019-1047 | Of all publications a slot has had, any two of one session have epochs in order, and the same active pads if the same epoch; the latest is the row's own. |
| SessionService.Service.UpsertSession | src/core/session_service.cpp:803-861 | Refused exactly when the device is new and all 32 slots are taken, and then nothing changes; otherwise one slot's row changes, the device's own or a new one, under the token given, the declared set comes out as `Declared` says, and every result rests on what this operation tried as `ResultsExplained` says; the service stays valid whatever the backends answer, and with no pad left the bus is down. |
| SessionService.Service.UpsertAt | src/core/session_service.cpp:803-861 | Results are one per index, each for the last descriptor given for it and true of its pad: ok is an active pad with the descriptor's type, identity, caps, clamped mode and backend, on a serial some backend plugged with that identity if it was plugged now; pluginFailed and replugFailed mean every backend that could was asked since the operation began and refused, or for a refit that no bus would open or no serial was free after settling; backendUnavailable means every backend was asked to open its bus and did not; noSlots means every serial was taken at the last search, which came after settling if the operation frees any serial; invalidType and replugFailed leave the old pad; no index left unnamed stays active; neither the active set nor a pad's device changes under the same epoch. |
| SessionService.Service.UpsertRounds | src/core/session_service.cpp:803-861 | Both rounds together: removals of exactly the active pads not named, one change per descriptor, each with the outcome its result names and the attempts that result rests on. |
| SessionService.Service.ApplyController | src/core/session_service.cpp:863-887 | Not found means no session has that connection id with that device, and nothing changes; otherwise the one pad has the outcome its result names, resting on what was tried, and no other pad or session is touched. |
| SessionService.Service.RemoveController | src/core/session_service.cpp:889-911 | Not found means no session has that connection id with that device, and nothing changes; otherwise the pad at the index is gone, every other pad and session is untouched, and the epoch moves if the active set does. |
| SessionService.Service.CloseSessionById | src/core/session_service.cpp:942-964 | -1 and no change if and only if no session has that connection id and, if a device is named, that device; otherwise exactly that session's row is gone and its number of active pads is returned. |
| SessionService.Service.CloseSessionsForDevice | src/core/session_service.cpp:966-988 | Exactly the rows of the device are gone; the count is one if there was such a row, and else zero. |
| SessionService.Service.CloseAllSessions | src/core/session_service.cpp:990-1009 | No row, no serial in use, none quarantined and no device held is left, whatever the backend confirmed. |
| SessionService.Service.ReapTimedOut | src/core/session_service.cpp:1965-2007 | Exactly the rows silent for longer than the timeout and past their grace are gone, and the count is their number. |
| SessionService.Service.RetireConnection | src/core/session_service.cpp:254-269 | The row is gone, its slot names nothing, and its serials stay accounted for as retired. |
| SessionService.Service.FinishTeardown | src/core/session_service.cpp:292-301 | After unplugs, settling and an idle bus's close the service is valid again, and with no pad left the bus is down. |
| SessionService.Service.CloseBusIfIdle | src/core/session_service.cpp:350-361 | With no active pad nothing is held afterwards, and a bus that was up leaves nothing quarantined; otherwise nothing changes. |
| SessionService.Service.ConvergePads | src/core/session_service.cpp:768-776 | From any sound plan to a valid service in which every change has the outcome its result names and that outcome rests on what was tried. |
| SessionService.Service.SettlePadChange | src/core/session_service.cpp:778-789 | Retired serials are unplugged and settled after the publication, then the changes that waited search again, are plugged, committed and published. |
| SessionService.Service.SecondRound | src/core/session_service.cpp:778-789 | The second round commits exactly the changes that waited, and ends in a valid service. |
| SessionService.Service.ActivePadHasBus | src/core/session_service.cpp:543-544 | An active pad has an open bus, at any point where its serial is accounted for, so no replug is planned without one. |
| SessionService.Service.PlanPad | src/core/session_service.cpp:519-550 | The change planned is the one the descriptor and the pad call for; a serial reserved for it is held by nobody, a replug always has one, and whoever has none found all sixteen taken. |
| SessionService.Service.PlanSession | src/core/session_service.cpp:588-605 | Removals for exactly the active pads not named, then one change per descriptor, all reserved serials accounted for; an addition left without a serial waits if the plan frees one. |
| Pads.PlanRemovals | src/core/session_service.cpp:588-600 | Removals for exactly the active pads the set does not name. |
| Pads.DedupDescriptors | src/core/session_service.cpp:571-586 | One descriptor per index named, the last one given for it. |
| Pads.DeferUnservedAdds | src/core/session_service.cpp:559-569 | An addition without a serial waits exactly when some change of the plan will free one; nothing else changes. |
| SessionService.Service.PlugPads | src/core/session_service.cpp:613-630 | Only the round's changes are plugged, never on a serial that may hold a device; one plugged was accepted by a backend for its identity, one not plugged was refused by every backend that could, or every backend was asked to open its bus and did not; a reopen is reported exactly when the bus came up, and then nothing else is held. |
| SessionService.Service.CommitPads | src/core/session_service.cpp:632-642 | Every change of the round is committed to its own pad and no other; serials stay accounted for; a reopened bus clears the quarantine; neither the active set nor a pad's device changes under the same epoch. |
| SessionService.Service.CommitPad | src/core/session_service.cpp:644-661 | One change's exact effect on row, counts, serials and retired list, by kind and by what became of its plug. |
| Commit.CommitAccount | src/core/session_service.cpp:644-751 | Every such effect keeps the account of the serials and does to the pad what the change says. |
| Convergence.TwoRoundsDone | src/core/session_service.cpp:768-801 | Plan, first round, second search and second round together give every change the outcome its result names and touch no other pad. |
| Plugs.RoundsExplained | src/core/session_service.cpp:613-766 | Both rounds together leave every result resting on what was tried: the plugs asked for, the buses asked to open, and a last search that came after settling for every change that waited. |
| SessionService.Service.AllocateWaiting | src/core/session_service.cpp:753-766 | Only waiting changes get a serial, one nobody holds; a change still without one has searched again, now, and found all sixteen taken. |
| SessionService.Service.AllocateAgain | src/core/session_service.cpp:757-763 | A refit gets the serial its pad gave up whenever that is free. |
| SessionService.Service.UnplugRetired | src/core/session_service.cpp:271-276 | Called only for serials no published word names; nothing but those is unplugged, what is confirmed is gone, and what is not was asked for and left unconfirmed by its backend. |
| SessionService.Service.SettleRetired | src/core/session_service.cpp:278-290 | A confirmed serial is freed, any other quarantined. |
| Commit.SettleAccount | src/core/session_service.cpp:278-290 | Settling keeps the account: a serial with a device left on it is never free. |
| SessionService.Service.PublishRow | src/core/session_service.cpp:48-75 | The slot's words become the row's and the owner table stays the exact inverse of all words. |
| SessionService.Service.PublishOwners | src/core/session_service.cpp:48-66 | The owner table names this slot's active pads and no other of its own. |
| SessionService.Service.ControllersPublished | src/core/session_service.cpp:77-88 | True exactly when the slot's words are the row's. |
| SessionService.Service.PublishSession | src/core/session_service.cpp:438-445 | Token and controllers are published together: afterwards the words, the owner table, the counts and the answers to heartbeats agree with the rows. |
| SessionService.Service.FindFree | src/core/hot_table.h:338-344 | A slot without a session, or none when all are taken. |
| SerialPool.Pool.Allocate | src/core/session_service.cpp:303-316 | 0 exactly when every serial is in use or quarantined; else the first available going round from where the last scan stopped. |
| SerialPool.Pool.Release | src/core/session_service.cpp:318-322 | Takes the serial, if it is one, out of use. |
| SerialPool.Pool.Quarantine | src/core/session_service.cpp:324-329 | Moves the serial from use to quarantine. |
| SerialPool.Pool.Claim | src/core/session_service.cpp:331-337 | Succeeds exactly for a known serial neither in use nor quarantined. |
| GamepadMux.Mux.PluginDevicePreferring | src/core/gamepad_mux.h:58-82 | Children are asked in `AskOrder`, for the identity given, until one accepts and owns the serial; a failure means all of them were asked in vain. |
| GamepadMux.AskOrderComplete | src/core/gamepad_mux.h:58-82 | Exactly the children that support the identity are asked, each once. |
| GamepadMux.AskOrderPrefers | src/core/gamepad_mux.h:58-82 | The first child with the preferred id, if it supports the identity, is asked first; the others follow in the order of the ports. |
| GamepadMux.AskOrderWithoutPreference | src/core/gamepad_mux.h:58-82 | With no such child all are asked in the order of the ports. |
| GamepadMux.Mux.UnplugDevice | src/core/gamepad_mux.h:84-92 | The owner is asked if there is one, and its answer is the answer; a confirmed unplug leaves the serial held by nobody, an unconfirmed one still routes to the child that may hold it. |
| GamepadMux.Mux.OneHolder | src/core/gamepad_mux.h:58-92 | At most one child holds a serial. |
| GamepadMux.Mux.CloseBus | src/core/gamepad_mux.h:31-33 | Nothing is held afterwards and no bus is up. |
| GamepadMux.Mux.IsBusOpen | src/core/gamepad_mux.h:35-40 | True exactly when some child's bus is open; when none is, nothing is held. |
| HotTable.NoEarlierSnapshot | src/core/hot_table.h:355-374 | In every run, once the wait of a write is over, every participant inside entered after the write began, and every read it has of any slot was begun after it. |
| HotTable.HeldSerialIsLive | src/core/session_service.cpp:1816-1834 | In every run a serial named by a snapshot a participant holds is plugged and still published. |
| HotTable.UnplugMeetsNoHolder | src/core/session_service.cpp:271-276 | In every run, when an unplug starts no participant holds a snapshot that names the serial. |
| HotTable.SubmitBetweenPlugAndUnplug | src/core/mic_worker.cpp:119-146 | In every run each per-serial submit falls after the serial's plug and before its unplug starts. |
| HotTable.SnapshotIsOnePublication | src/core/session_service.cpp:1019-1047 | A snapshot that is accepted is one publication's words, all together. |
| Coupling.HeartbeatsAgree | src/core/session_service.cpp:1019-1047 | In every run over the engine's publications, the epoch and active pads any two heartbeats of a slot are answered with are two of its publications, made under their tokens; within one session the epochs are in the same order, and equal epochs name the same active pads. |
| Coupling.AnswerIsPublished | src/core/session_service.cpp:1019-1047 | In every run a heartbeat's answer is that of one publication, made under its token. |
| Coupling.PlugGuard | src/core/session_service.cpp:613-630 | What the engine plugs is not live, and the plug makes exactly it live. |
| Coupling.StoreGuard | src/core/session_service.cpp:67-75 | The words published for a row name only live serials. |
| Coupling.UnplugGuard | src/core/session_service.cpp:271-276 | A retired serial is named by no slot of the table when its unplug starts. |
| Coupling.UnplugsLive | src/core/session_service.cpp:271-290 | Unplugs and settling together take exactly the retired serials off the live ones. |
| SeqLock.AcceptedIsWhole | src/core/hot_table.h:128-143 | A read whose version is even and unchanged saw one write's words. |
| SendGate.RotationMeetsNoSender | src/core/session_service.cpp:404-445 | When the key is stored and the counter reset the gate is free, no ack is deferred and nobody is sending. |
| SendGate.SentUnderCurrentKey | src/adapters/client_adapter.cpp:48-53 | Every datagram leaves under the key in force. |
| SendGate.CountersNeverRepeat | src/adapters/client_adapter.cpp:78-141 | Within a key, datagrams leave with strictly increasing counters. |
| SendGate.AckHandedAtMostOnce | src/adapters/client_adapter.cpp:55-76 | A stored ack is handed over at most once, in order. |
| SendGate.WireCarriesWhatIsDue | src/adapters/client_adapter.cpp:48-76 | In every run what is on the wire are messages begun and acks handed over, none twice, and the acks in the order they were stored. |
| SendGate.NothingDueIsLost | src/adapters/client_adapter.cpp:48-141 | In every run a message begun or an ack handed over is on the wire, was given up or failed to be sent, or is in a sender's hands; once all have returned it is exactly one of the first two. |
| SendGate.AllReturnedAcksSettled | src/adapters/client_adapter.cpp:143-153 | When all senders have returned the mailbox is empty and every ack was handed over or replaced by a newer one. |
| HotWords.AckRoundTrip | src/adapters/client_adapter.cpp:25-70 | The bytes framed decode to the values packed, and a packed ack is never the empty mailbox. |
| HotWords.ActiveBitmap | src/core/session_service.cpp:1033-1037 | A bit is set exactly for each active controller word. |
| HotWords.CtrlWordRoundTrip | src/core/hot_table.h:26-28 | Activity and serial come back from the controller word. |
| HotWords.PadInfoRoundTrip | src/core/hot_table.h:30-39 | Caps, type and mode come back from the info word. |
| HotWords.SessionWordRoundTrip | src/core/hot_table.h:41-47 | Epoch and mouse grant come back from the session word. |
| HotWords.PadOwnerRoundTrip | src/core/hot_table.h:49-55 | Slot and index come back from an owner word, which is never the word for no owner. |
| HotWords.MotorsRoundTrip | src/core/session_service.cpp:43-46 | Both motor levels come back from the packed word. |
| HotWords.ClientAddrRoundTrip | src/core/hot_table.h:80-88 | Address and port come back from the packed word. |
| HotWords.Utf8Prefix | src/core/hot_table.h:73-78 | The longest prefix within the limit that splits no UTF-8 sequence. |
| MpscQueue.PopsFollowClaims | src/core/mpsc_queue.h:28-58 | In every run, items are popped exactly once, in the order their positions were claimed. |
| MpscQueue.NoUnreadItemOverwritten | src/core/mpsc_queue.h:28-48 | A cell is written only after its last item was popped, and no other unread cell changes. |
| MpscQueue.RefusalsOnlyWhenFull | src/core/mpsc_queue.h:41-43 | In every run a push that refuses read its cell, as its own last step, at a moment when Capacity claimed positions were unconsumed. |
| MpscQueue.DepthIsBacklogAndPops | src/core/mpsc_queue.h:64-67 | In every run the depth reported is exactly the backlog at its second load and the pops completed since its first; so it is at most the capacity if and only if those pops fit into the room left. |
| MpscQueue.DepthBound | src/core/mpsc_queue.h:64-67 | So it is at most the capacity and those pops, and one more if the second load falls between a pop's freeing and advancing. |
| MpscQueue.DepthCanReportAnything | src/core/mpsc_queue.h:64-67 | For every capacity and every number a run in which that number is reported of an empty queue. |
| MpscQueue.Queue.Push | src/core/mpsc_queue.h:28-48 | Alone: appended exactly when fewer than Capacity are queued, else refused and counted. |
| MpscQueue.Queue.Pop | src/core/mpsc_queue.h:50-58 | Alone: the oldest item, or none exactly when the queue is empty. |
| SpscRing.ConsumerSeesStream | src/core/spsc_ring.h:23-59 | In every run the items released are a prefix of the items published, in order, and a cell the consumer looks at holds the next one for as long as it looks. |
| SpscRing.Ring.Push | src/core/spsc_ring.h:34-40 | Alone: appended exactly when the ring is not full. |
| SpscRing.Ring.Pop | src/core/spsc_ring.h:53-59 | Alone: the oldest item, or none exactly when the ring is empty. |
| WorkerWake.NoLostWakeup | src/core/worker_wake.h:11-22 | In every run, when the worker is blocked without a permit and a source holds work, some producer is between its publish and the end of its notify. |
| WorkerWake.BlockedMeansIdle | src/core/pointer_worker.cpp:89-109 | Once all producers have returned, a blocked worker without a permit has nothing to do. |
| LogRing.CopyIsNeverTorn | src/core/log_ring.h:47-82 | In every run a copy holds strictly increasing numbers, all from the range asked for as far as the ring held it when the copy began, each with the record published under it. |
| LogRing.MissedOnlyIfOverwritten | src/core/log_ring.h:47-82 | In every run a number of that range the copy passed without its record was in a slot already opened for a later record when the copy left it. |
| LogRing.Ring.Publish | src/core/log_ring.h:31-43 | The record is appended and the surviving suffix stays readable. |
| LogRing.Ring.CopySince | src/core/log_ring.h:47-59 | With no writer running, the whole surviving suffix from the given number. |
| AudioRing.BatchesAreWhole | helper/hidmaestro/AudioBridge.cs:335-368 | In every run a batch read is one batch written, whole. |
| AudioRing.MissedOnlyIfLapped | helper/hidmaestro/AudioBridge.cs:335-368 | In every run a number passed without its batch being taken was lapped before the read that passed it began, and that read asked for the oldest batch not lapped. |
| FrameMailbox.FramesAreWhole | helper/hidmaestro-core/FrameMailbox.cs:15-38 | In every run a frame taken is one frame written, whole. |
| FrameMailbox.TakesTheLatest | helper/hidmaestro-core/FrameMailbox.cs:15-38 | In every run a frame is taken only while it is the last one written. |
| LogWriter.FlushMeansDurable | src/core/log_writer.cpp:158-174 | In every run a flush that returns true had every record queued before it consumed, written and synced, except ring-only ones. |
| LogWriter.DurableSeenIff | src/core/log_writer.cpp:158-174 | In every run a waiting flush moves on exactly when a pass with everything queued before the call has ended with nothing left to sync. |
| LogWriter.ConfirmedIff | src/core/log_writer.cpp:158-174 | In every run it then returns true if and only if no pass begun before its target was ever refused by the sink. |
| LogWriter.StopDrains | src/core/log_writer.cpp:147-203 | In every run, when the worker has left after a stop, every record queued before the stop is in the ring, once and in order; each is ring-only, in a batch the sink accepted or in one it refused, never in both; unless the last sink flush failed all accepted ones are durable. |
| LogWriter.EveryRecordAccounted | src/core/log_writer.cpp:205-267 | In every run the ring holds each consumed record once, in queue order, and its drop lines sum to the drops reported. |
| LogWriter.SubmissionsCounted | src/core/log_writer.cpp:124-130 | Every submission is queued or counted as dropped. |
| ConfigStore.RetryDelayAfter | src/core/config_store.cpp:15-21 | The doubling loop computes the capped delay. |
| ConfigStore.RetryDelayGrows | src/core/config_store.cpp:15-21 | The delay never shrinks and lies between 250 and 30000 ms. |
| ConfigStore.RetryDelayIsCappedDoubling | src/core/config_store.cpp:15-21 | After n failures the delay is 250 ms doubled n - 1 times, or 30000 ms if that is less. |
| ConfigStore.UpdatesFormOneChain | src/core/config_store.cpp:57-71 | In every run the configuration is all updates applied in order, none lost. |
| ConfigStore.FlushMeansSaved | src/core/config_store.cpp:81-93 | In every run, after a flush that returns true the snapshot last persisted has every earlier update applied, in order. |
| ConfigStore.FlushAnswersIff | src/core/config_store.cpp:81-93 | In every run a flush answers true if and only if there was nothing to save at the call, or a successful persist with every update made before it was noted. |
| ConfigStore.SavesNeverFall | src/core/config_store.cpp:105-145 | In every run no persist writes an earlier generation than one before it. |
| ConfigStore.StopSavesOrFails | src/core/config_store.cpp:95-145 | After stop, the snapshot last persisted has every update completed before it applied, in order, or the last persist failed. |
| UpdateService.AppliesOnlyVerified | src/core/update_service.cpp:614-675 | In every interleaving applyUpdate gets a path verifyArtifact accepted for the same version, asset and digest, with no download begun since. |
| UpdateService.IdleIsSettled | src/core/update_service.cpp:257-311 | In every interleaving an idle worker with nothing pending leaves the state at none of Checking, Downloading and Verifying, and at Installing only after a successful apply. |
| UpdateService.NextInv | src/core/update_service.cpp:108-675 | Every request, skip, cancel, worker section and answer keeps the updater's invariant. |
| UpdateService.VerifiedSince | src/core/update_service.cpp:614-646 | A verification on record stems from an accepting verify with no download begun since. |
| UpdateService.CheckSettles | src/core/update_service.cpp:428-509 | In every run a check whose known release is not skipped meanwhile leaves what it fetched as the release known: Downloaded exactly if that installer was verified and is still staged, else UpdateAvailable exactly if on offer, else UpToDate; a skip meanwhile leaves everything as it was. |
| UpdateService.FailedCheckSettles | src/core/update_service.cpp:446-461 | In every run a failed check keeps the release known; a user's own ends in Error, any other falls back to what is staged or on offer. |
| UpdateService.OfferedIsAccepted | src/core/update_service.cpp:119-128 | In every run a download requested right after a check is accepted exactly if what was fetched is on offer, installs itself and is not staged. |
| UpdateService.AutoDownloadIff | src/core/update_service.cpp:278-289 | In every run exactly when a check brings a download about by itself, and when a repair is dropped. |
| UpdateService.InstallAcceptedIff | src/core/update_service.cpp:151-162 | In every run an install is accepted exactly after a download or a failed install, if the release known is the one verified and still staged. |
| UpdateService.CancelDropsQueued | src/core/update_service.cpp:186-199 | In every run a cancel drops exactly a download not yet taken up and its repair, and the state falls back to what is on offer. |
| UpdateService.StagedIsLastVerified | src/core/update_service.cpp:212-228 | In every run what is staged is the installer last verified for a download still wanted, or nothing once a download began or its version was skipped. |
| UpdateService.KnownIsLastFetched | src/core/update_service.cpp:428-444 | In every run the release known is the one the last check not superseded fetched, or none once it was skipped. |
| UpdateService.DecideCheck | src/core/update_service.cpp:491-509 | Offered exactly when newer than ours and above any skipped version. |
| UpdateService.SkipLeavesLaterVersions | src/core/update_service.cpp:212-228 | Skipping an offered version leaves exactly the versions above it on offer. |
| PointerWorker.AcceptedUnlessReleased | src/core/pointer_worker.cpp:122-169 | In every run a frame is accepted exactly when no release with a higher stamp was applied for its serial; a refused one changes nothing. |
| PointerWorker.PadHoldsLastFrame | src/core/pointer_worker.cpp:122-159 | In every run a pad's buttons are exactly those of the last frame accepted for it, or none before the first and after a release. |
| PointerWorker.RetryPendingIff | src/core/pointer_worker.cpp:140-169 | In every run a retry is pending exactly while the host's last answer was a refusal. |
| PointerWorker.HostHoldsLastFrames | src/core/pointer_worker.cpp:122-179 | In every run, unless its last answer was a refusal, the host holds exactly the buttons the last frame accepted for some pad pressed. |
| PointerWorker.ReleasedStaysReleased | src/core/pointer_worker.cpp:149-159 | In every run, after a release whatever its pad holds came with its stamp or a later one. |
| PointerWorker.CurrentStampIsAccepted | src/core/session_service.cpp:1288-1307 | In every run a frame under its serial's current stamp is accepted. |
| PointerWorker.HostHoldsTheUnion | src/core/pointer_worker.cpp:171-179 | In every run, with no retry pending, the host holds exactly the buttons some pad holds. |
| PointerWorker.ReleaseMeetsOwnInputIff | src/core/pointer_worker.cpp:89-159 | In every run a release finds its pad stamped with its own stamp or a later one exactly when a frame of that stamp was drained for and processed while the release was queued, and no older frame was accepted since. |
| PointerWorker.OvertakenBehindRetry | src/core/pointer_worker.cpp:111-120 | In every run the drain such a frame comes after stopped at a retry claimed and not yet published. |
| PointerWorker.ReleaseCanClearItsOwnBinding | src/core/session_service.cpp:1117-1120 | A run in which that happens, and a release clears a press of the binding it starts. |
| PointerWorker.Injection.SubmitMouse | src/core/pointer_worker.cpp:171-179 | What is injected is the union of what all pads hold. |
| PointerWorker.ApplyKeepsHost | src/core/pointer_worker.cpp:149-169 | A command keeps the host holding the union of the pads' buttons, or leaves a retry pending. |
| Rumble.NothingWrittenIsLost | src/core/session_service.cpp:1049-1115 | In every run a bound pad holds the level last written since its plug, also one written before the bind. |
| Rumble.HidOnlyRunsExactlyIff | src/core/session_service.cpp:1062-1165 | In every run without haptics and with ticks at most 300 ms apart, the client runs exactly the level the game last wrote, if and only if its binding found a level, one was delivered under it, or the command it ran at the bind has run out, which takes 500 ms at most. |
| Rumble.StaleCommandRuns | src/core/session_service.cpp:1102-1115 | A run in which none of these holds: a pad unplugged under a held level, plugged again and bound. |
| Rumble.HeldLevelRunsIff | src/core/session_service.cpp:1062-1165 | In every run with ticks at most 300 ms apart, haptics or not, the client runs at least the held level, if and only if it is not past the end of a haptic-only command that the raising write was taken for, with no command sent since. |
| Rumble.RaisedOnShortGoesQuiet | src/core/session_service.cpp:1076-1085 | Every such write leaves the client still from the command's end until the refresh is due. |
| Rumble.RaisedOnShortHappens | src/core/session_service.cpp:1076-1085 | A run from the start in which such a write comes and the client stands still under a held level. |
| Rumble.LongerGapLapses | src/core/types.h:396-405 | With ticks any further than 300 ms apart a held level can lapse. |
| Rumble.TickStops | src/core/session_service.cpp:1146-1161 | A tick that finds neither source stops the motors. |
| Rumble.CommandIsTheMix | src/core/session_service.cpp:1062-1100 | In every run every command sent carries the least level at least the one the game holds and the last haptic window's, if that has not ended. |
| AudioLane.CutAndTailRebuild | src/core/session_service.cpp:1724-1764 | Windows and tail are the stream, and every window is whole. |
| AudioLane.BatchingDoesNotMatter | src/core/session_service.cpp:1724-1764 | Any split into batches gives the windows and tail of the whole stream. |
| AudioLane.SameStreamSameWindows | src/core/session_service.cpp:1446-1471 | Two splits of one stream give the same windows and tail. |
| AudioLane.Lane.EncodeAndSend | src/core/session_service.cpp:1724-1764 | The windows of the pending samples and the batch go out in order and the tail waits. |
| AudioLane.Lane.Reduce | src/core/session_service.cpp:1446-1471 | The haptic reduction cuts the very same windows. |
| AudioLane.Lane.SendWindow | src/core/session_service.cpp:1674-1703 | Packets are those of non-silent windows, in window order and none twice, each numbered by the non-silent windows before it mod 65536; silence takes no number. |
| AudioLane.GapCountsWindows | src/core/session_service.cpp:1674-1703 | Of any two packets the earlier carries the earlier window, and their numbers are as far apart mod 65536 as there are non-silent windows from one to the other. |
| AudioLane.Lane.Select | src/core/session_service.cpp:1606-1616 | A new plug generation starts a new stream, the same one goes on. |
| AudioLane.IsDigitalSilence | src/core/types.h:456-462 | True exactly when every sample is zero. |
| Semver.SemverOrderIsTotalPreorder | src/core/semver.h:67-89 | On all strings the order is antisymmetric in sign and transitive. |
| Semver.DigitOrderIsNaturalOrder | src/core/semver.h:32-40 | Digit strings of any length compare as the numbers they denote. |
| Semver.WellFormedOrderIsPrecedence | src/core/semver.h:67-89 | On well-formed versions without build metadata it is the precedence of section 11 of Semantic Versioning 2.0.0. |
| Semver.ParseRender | src/core/semver.h:9-89 | A rendered version reads back as itself. |
| Semver.BuildMetadataKeepsOrderIff | src/core/semver.h:67-89 | For every well-formed version and every build metadata, adding it keeps the order exactly behind a release whose patch is zero and with nothing after a first hyphen in the metadata. |
| Semver.ReleaseWithBuild | src/core/semver.h:67-89 | A release with build metadata reads as patch zero, with whatever follows a first hyphen in the metadata as its pre-release. |
| Semver.LastIdentMarred | src/core/semver.h:42-65 | A pre-release with build metadata never reads as the identifiers it was rendered from. |
| Semver.BuildBehindPatch | src/core/semver.h:67-89 | `1.2.3+5` does not compare equal to `1.2.3`. |
| Semver.BuildWithHyphen | src/core/semver.h:67-89 | `1.2.0+a-b` does not compare equal to `1.2.0`. |
| Semver.BuildBehindPrerelease | src/core/semver.h:67-89 | `1.0.0-beta+exp.sha.5114f85` does not compare equal to `1.0.0-beta`. |
| Semver.PrecedenceZero | src/core/semver.h:67-89 | Two versions have the same precedence only if they are the same. |
| Semver.CompareSemver | src/core/semver.h:67-89 | The loop computes that order on all strings. |
| Semver.ComparePrerelease | src/core/semver.h:42-65 | The loop computes the order of pre-releases. |
| Semver.CompareNumericIdent | src/core/semver.h:32-40 | The loop compares digit strings as numbers. |
| Semver.SplitAtDots | src/core/semver.h:9-22 | The loop splits at every dot. |
| Semver.IdentIsNumeric | src/core/semver.h:24-30 | True exactly for a non-empty string of digits. |

## Left out

- Weak memory orders and the process-wide barrier: steps are sequentially consistent.
- Sockets, sealing, key derivation and HTTP routes: sealing and sending are events that carry a key and a counter.
- Platform backends, drivers and the rest of the C# helper: they are the port's nondeterministic answers.
- Audio codecs, the jitter window and the haptic envelope: the encoder and the reduction are not looked into.
- Cursor scaling in floating point: only buttons and stamps of a pointer frame are modelled.
- The lock-free queues, the hot table, the send gate, LogWriter and ConfigStore as interleaved code are state machines on values: update in place and aliasing are not captured there.
- Wrap-around of 16- and 32-bit epochs, stamps, generations and packet counters.
- LogWriter restart after a stop, and the three separate audio flags of ConfigStore.
- The updater's requestRetry, which picks one of the modelled requests and makes it a moment later, its progress reports, dismissals and timer.
- Lightbar, trigger-effect, player-LED and mic-LED state, microphone windows and battery.
- Logging, log rate limits, session salts, names and addresses of a session row.
- JSON, catalog, configuration patching, web pages, tray, discovery and lock statistics.
- SessionService.Service.ReapTimedOut: does not model the return of zero when the topology lock is taken, which changes nothing, nor the log line for a silent link.
