# KerMP coordination core, verified in Dafny

KerMP lets several players share one household of The Sims 4. One sidecar process is the host;
it decides when everybody travels, who may build, whose save is current and who controls which
Sim. Every other sidecar is a client that follows the host's broadcasts. This project models
that coordination core and proves what it keeps over all of its runs.

Each part has the same shape. A value-level specification says what one call does (`Step`,
`Handle`, `OnRaw`, ...). A class with the source's fields carries out the call statement by
statement, and its contract says that its new state is the one the specification gives.
Theorems about all runs are then proved about the specification: what is safe, and, in the
modules whose names end in `Laws`, what must be taken up and what must be refused, in terms of
the events and of the states and messages around them.

* **Travel barrier** (`Travel`, `TravelRuns`): the two-phase barrier with epochs, departures
  and aborts.
* **View-update stream** (`Wire`, `ClientStream`, `PlainFifo`, `ClientRefinement`): what a
  client filters, buffers and releases. `PlainFifo` is an independent, much simpler queue
  without sorting or bridge messages; the client code is proved to refine it, so the laws of
  delivery are proved on the queue and carried over.
* **Host and composition** (`HostSide`, `HostRuns`, `World`, `WorldRuns`, `Resume`,
  `Departures`): the host's handlers, its broadcast log, its own game behind a local bridge, and
  any number of clients each reading the log in order. `HostLaws` says when the host must take
  something up and what it then sends, `Handover` what reaches the clients' games, end to end, and
  `ClientTells` what else they are told. `GuestRuns`, `EarlyLoad`, `HostDropped`
  and `LeftAlone` hold the runs in which travel fails.
* **Building** (`BuildSync`, `BuildRuns`, `BuildLaws`, `Adapter`, `ReplayRuns`, `CaptureLaws`,
  `BuildPipeline`, `Contours`): the timed lease and the bounded log, the replica in each game, and the path from
  one to the other.
* **Save transfer** (`SaveSync`, `SaveRuns`, `SaveLaws`), **session index** (`Session`,
  `SessionRuns`, `SessionLaws`, `StaleList`) and **capture queue** (`CaptureQueue`).

`dafny verify dfyconfig.toml` checks the whole project.

## Findings

* **A zone that loads before the commit can leave clients buffering.** `_travel_prepare`
  already sets the pending transaction, so a zone load between prepare and commit makes the
  host's game send the batch end and its zone-ready early. The host then broadcasts end before
  begin, and a resume does not release a client. `EarlyLoad` gives such a run.
* **A refused join under the host's name drops the host's own player.** The connection handler
  removes the name it was given when it ends, also after it refused it as a duplicate. If that
  happens during a travel, the barrier no longer waits for the host's zone, and the resume can
  come before the batch end and leave clients buffering. `HostDropped` gives such a run. The
  host's player does not come back.
* **When a resume releases.** A resume releases a client in its epoch if and only if the last
  batch mark broadcast before it is an end. That holds for every resume sent while the host's
  game loaded zones only after its commit and the host's own player had not been dropped,
  whatever the clients send.
* **Departures can open a barrier silently.** `remove_participant` may commit or complete a
  travel, but `remove_player` drops its answer. An opened barrier is announced if and only if it
  was not the departure of the last missing participant that opened it; after such a departure
  no commit, or no resume, of that epoch is ever broadcast. `LeftAlone` gives such a run. The
  repository's README says that every participant must report; in the code a departed one counts
  as accounted for.
* **Host captures are told apart by content.** The host broadcasts its own game's operations
  with the `op_id` of their data, usually null, which takes precedence over `op_seq` in the
  adapter. A replica applies all of a log if and only if no two of its operations clash: they
  have the same id, or have none and the same content. Client operations are identified by their
  sequence number and never clash with each other; buying the same thing twice in the host's game
  is applied once.
* **The authority logs creations that every replica refuses**: `object.create` without an
  `object_id`. That is the only such difference.
* **Build data is measured before ids become text.** Logged data would be accepted again if and
  only if no id in it prints as a text that is too long; a long list as `object_id` is accepted
  once.
* **An empty save never transfers**; every other file does, if its lines can be read (see below).
* **A refused chunk costs the bytes kept so far, but not the count.** `SaveReceiver.abort` removes
  the partial file and leaves its counters. The file that is then committed is what was accepted
  since the last refusal, and the acknowledged size is true if and only if nothing had been
  accepted before it; a manifest whose digest is that of the rest gets an untrue report.
* **Two transfers of a slot within one second can lose a save.** A backup's name holds only
  session, slot and second, and a second backup of that name replaces the first. An event keeps
  every save if and only if the backup it makes has a new name or replaces one that is also kept
  elsewhere; the only copy of a save survives if and only if its name is not reused.
* **`select_sim` can leave the list of the player's old Sim stale**; so can joining a second
  time without leaving. Nothing else can. `StaleList` gives such a run.
* **A history limit of 0 keeps everything**, and a negative one nothing.

## Assumptions

Handlers are atomic and read the clock once. Transaction ids and dialog ids are fresh. The
bridge from the host's game to the host loses nothing once connected; the one to the game may.
Network peers other than the host are not trusted in what they send about travel, but they
cannot send in the host's name (`kermp/net.py:104` and `kermp/net.py:132`). A digest is an
arbitrary function of the bytes. An explicit operation id is never the JSON text of an
operation. File and folder names are compared exactly, and a session id is a plain folder name.
A line of any length can be read: the code leaves asyncio's limit at 64 KiB
(`kermp/net.py:310`), which the line of a full chunk of the default size exceeds.

## Model

| member | source | states |
|---|---|---|
| Travel.TravelCoordinator.Propose | kermp/travel.py:41-55 | a refused proposal keeps the very same transaction object, an accepted one installs a fresh object, and answer and state agree with the barrier specification |
| Travel.TravelCoordinator.MarkReady | kermp/travel.py:57-68 | the in-place update is the barrier specification's, including the stranger, stale-epoch, late and unknown-transaction cases |
| Travel.TravelCoordinator.BeginZoneWait | kermp/travel.py:70-74 | moves on only from COMMITTED and raises otherwise, as the barrier specification says |
| Travel.TravelCoordinator.MarkZoneReady | kermp/travel.py:76-88 | the in-place update is the barrier specification's; it is also accepted straight from COMMITTED |
| Travel.TravelCoordinator.AbortTxn | kermp/travel.py:90-91 | aborts the named transaction in any phase, even a complete one |
| Travel.TravelCoordinator.RemoveParticipant | kermp/travel.py:93-105 | removes a player from all three sets of a live transaction and advances the phase when nobody else is missing |
| TravelRuns.InvHolds | kermp/travel.py:41-105 | in every reachable state the acks are subsets of the participants and fit the phase: WAITING_READY is never already full, COMMITTED and later have everybody's ready, COMPLETE everybody's zone-ready |
| TravelRuns.ProgressIsMonotone | kermp/travel.py:41-105 | over any run the pair of epoch and phase only moves forward; COMPLETE and ABORTED are left only by a new epoch |
| TravelRuns.TrueAtMostOncePerEpoch | kermp/travel.py:65-67 | each of `mark_ready` and `mark_zone_ready` answers True at most once per epoch |
| TravelRuns.ProposalsIncreaseEpochs | kermp/travel.py:47-49 | later accepted proposals have strictly larger epochs |
| TravelRuns.AbortIs | kermp/travel.py:90-91 | an abort that names the current transaction ends it in any phase and keeps the rest of it; any other raises and changes nothing |
| TravelRuns.NoTrueAfterAbort | kermp/travel.py:57-91 | over any run of calls, after an abort neither `mark_ready` nor `mark_zone_ready` answers True in that epoch |
| TravelRuns.RaisesIff | kermp/travel.py:41-105 | exactly which calls raise which exception, and that they change nothing |
| TravelRuns.Explain | kermp/travel.py:41-105 | every ack in a transaction's sets comes from a call that was counted after its proposal, and every listed player who is missing departed after it |
| TravelRuns.ResumeOnlyAfterAllZones | kermp/travel.py:76-105 | the second barrier opens only when each player listed at `propose` has since had a zone-ready counted for that epoch or departed |
| TravelRuns.ZoneCountedOnlyAfterAllReady | kermp/travel.py:57-88 | a zone-ready is counted only after each listed player's ready was counted or the player departed |
| TravelRuns.ReadyConfluence | kermp/travel.py:57-68 | any list of readies, permuted, repeated, stale or from strangers, ends in the state fixed by the set of valid ackers, and True is answered exactly at the shortest prefix that covers the participants |
| TravelRuns.ZoneConfluence | kermp/travel.py:76-88 | the same for zone-readies, also with no participants left |
| TravelRuns.OrderIsIrrelevant | kermp/travel.py:57-88 | two lists of acks with the same valid ackers lead to the same state at either barrier |
| Wire.SortBySequence | kermp/runtime.py:485 | sorted by sequence number, with the same updates |
| Wire.SortIsStable | kermp/runtime.py:485 | updates with the same number keep their order |
| Wire.SortIsNoOp | kermp/runtime.py:485 | sorting an increasing buffer changes nothing |
| ClientStream.ClientRuntime.ReceiveRaw | kermp/runtime.py:461-488 | the fields after a raw message are those of the client specification, for every rejection, buffering, overflow and direct delivery |
| ClientStream.ClientRuntime.ReceiveBatch | kermp/runtime.py:489-504 | begin, end and other batch marks change buffer and flags as the client specification says |
| ClientStream.ClientRuntime.OnNetworkMessage | kermp/runtime.py:432-523 | every travel and stream message is handled as the client specification says |
| ClientStream.ClientRuntime.MarkLocalZoneLoaded | kermp/runtime.py:555-559 | a report for another epoch changes nothing; it answers True exactly when it released the buffer |
| ClientStream.ClientRuntime.FinishLocalTravel | kermp/runtime.py:561-566 | hands the whole buffer to the game in number order, empties it and stops buffering |
| PlainFifo.InvHolds | kermp/runtime.py:461-566 | shown and held numbers strictly increase together, and nothing is held unless the queue is holding |
| PlainFifo.DeliveryIncreases | kermp/runtime.py:463-488 | what was shown, followed by what is held, is strictly increasing |
| PlainFifo.ShownWasReceived | kermp/runtime.py:461-488 | nothing is shown or held that was not received |
| PlainFifo.IncreasingStampedIsSubsequence | kermp/runtime.py:76-86 | a strictly increasing selection of the host's numbered updates is a subsequence of them |
| PlainFifo.Conservation | kermp/runtime.py:479-520 | every accepted update is in exactly one of shown, held, discarded by a proposal or batch begin, and dropped on overflow |
| PlainFifo.AcceptedOnce | kermp/runtime.py:463-479 | accepted numbers strictly increase, so no update is accepted twice |
| PlainFifo.Held | kermp/runtime.py:480-513 | while holding, nothing has been shown since the latest reset, and the queue is exactly the first 256 updates accepted since it |
| PlainFifo.EndSeen | kermp/runtime.py:495-502 | a complete batch means that an end of the current epoch was read after the latest reset |
| PlainFifo.ReleaseIsGatedAndExact | kermp/runtime.py:495-520 | holding stops only after an end of the current epoch that follows the latest reset, and then exactly the first 256 updates accepted since are shown, in order |
| PlainFifo.EpochNeverDecreases | kermp/runtime.py:505-509 | the client's epoch never decreases |
| PlainFifo.NoForeignEpochIsDelivered | kermp/runtime.py:472-478 | once in an epoch, only updates tagged with it are shown |
| ClientRefinement.StepRefines | kermp/runtime.py:461-566 | each handler of the client code corresponds to one step of the plain queue |
| ClientRefinement.CodeIsFifo | kermp/runtime.py:461-566 | after any inputs the code's shown list, buffer and flags are those of the plain queue, so its sorts do nothing |
| ClientRefinement.DeliveryIsOrderedSubsequence | kermp/runtime.py:461-566 | under any loss, repetition and reordering the game is handed a subsequence of what the host stamped, with strictly increasing numbers |
| ClientRefinement.ClientReleaseIsGatedAndExact | kermp/runtime.py:489-566 | the release law of the plain queue, on the client code |
| HostSide.HostRuntime.ReceiveRaw | kermp/runtime.py:67-87 | an unreadable update only tells the game; a readable one gets the next number and the live travel's epoch |
| HostSide.HostRuntime.ReceiveViewBatch | kermp/runtime.py:89-102 | forwards marks of the current epoch only, begin to the game before the broadcast and end after it |
| HostSide.HostRuntime.RequestTravel | kermp/runtime.py:282-297 | announces an accepted proposal, and fails exactly when a named zone meets a coordinator that refuses |
| HostSide.HostRuntime.ReceiveReady | kermp/runtime.py:299-315 | the ready that fills the barrier broadcasts begin, then commit, and the zone wait never raises |
| HostSide.HostRuntime.ReceiveZoneReady | kermp/runtime.py:317-331 | broadcasts the resume exactly when the second barrier opens |
| HostSide.HostRuntime.ReceiveAbort | kermp/runtime.py:181-188 | aborts and announces only the current epoch |
| HostRuns.ReadyOpens | kermp/runtime.py:304-315 | a ready that fills the barrier takes the transaction from its first phase to waiting for zones, with everybody ready |
| HostRuns.HandleKeepsInv | kermp/runtime.py:67-331 | every event, the removal of any player included, keeps the log well formed (consecutive epochs, consecutive update numbers, only current-epoch messages, one commit and one resume per epoch) and in step with the coordinator |
| HostRuns.HostStaysListed | kermp/session.py:49-60 | only the removal of the host's own player takes it out of the session and of a live travel |
| HostRuns.OncePerEpoch | kermp/runtime.py:307-331 | of every epoch at most one commit and at most one resume is broadcast, in the order of the epochs |
| HostRuns.UpdatesAreStamped | kermp/runtime.py:76-86 | the updates of a well-formed log are numbered 1, 2, 3, ... |
| HostLaws.HandleKeepsLaws | kermp/runtime.py:67-331 | every event keeps that a commit repeats the zone, actors and id of its proposal, that no commit, resume or tagged update follows an abort of its epoch, and that nothing untagged comes between a proposal and its resume |
| HostLaws.NothingAfterAbort | kermp/runtime.py:181-188 | in the log, commits, resumes and tagged updates after an abort are of later epochs |
| HostLaws.AbortIsTakenIff | kermp/runtime.py:181-188 | an abort ends the travel and is broadcast if and only if it names the current epoch; otherwise nothing changes |
| HostLaws.RequestIsTakenIff | kermp/runtime.py:282-297 | a request proposes the next epoch to everybody present if and only if it names a zone, somebody is present and no travel is in progress; otherwise nothing changes |
| HostLaws.RequestAfterAbort | kermp/travel.py:41-55 | after an abort the next request for a zone opens the next epoch |
| HostLaws.UpdateIsStamped | kermp/runtime.py:67-87 | a readable update goes out as captured, numbered next, with the epoch of the travel in progress if there is one; an unreadable one is only reported to the game |
| HostLaws.MarkIsBroadcastIff | kermp/runtime.py:89-102 | a batch mark is broadcast if and only if it is of the current epoch |
| HostLaws.ReadyIsCounted | kermp/runtime.py:299-315 | a participant's ready is counted, and the last one broadcasts begin and commit |
| HostLaws.ZoneReadyIsCounted | kermp/runtime.py:317-331 | a participant's zone-ready is counted once everybody is ready, and the last one ends the travel and broadcasts the resume |
| HostLaws.StaleAckIsIgnored | kermp/runtime.py:299-327 | an acknowledgement for another transaction or epoch changes nothing |
| HostLaws.ComingAndGoing | kermp/session.py:38-60 | a departure takes the player out of session and live travel and tells nobody; a joiner is in no travel |
| HostLaws.GameIsTold | kermp/runtime.py:282-331 | every event keeps that the host's game is told exactly the broadcast proposals, commits, resumes, begins and ends, in their order |
| WorldRuns.HostKeeps | kermp/runtime.py:282-331 | the log only grows, the coordinator is where its calls took it, and each resume in the log has the call that opened the barrier |
| WorldRuns.InvHolds | kermp/runtime.py:67-566 | in every run of host, game and clients, each client's epoch and batch flag agree with the part of the log it has read |
| WorldRuns.ClientsShowSubsequences | kermp/runtime.py:76-566 | in every run each client's game is handed a subsequence of the host's updates, strictly increasing |
| Handover.AbortIsFinal | kermp/runtime.py:181-188 | in every run nothing of an aborted epoch follows its abort, the travel is over until the next proposal, and the next request for a zone opens the next epoch |
| Handover.GameHearsInOrder | kermp/runtime.py:282-331 | in every run the host's game is sent exactly the travel messages that are broadcast, in their order |
| Handover.LiveIff | kermp/travel.py:41-105 | in every run a travel is in progress if and only if something was proposed and since then nothing was aborted or resumed and no departure completed it |
| Handover.UpdatesCarryTheLiveEpoch | kermp/runtime.py:76-86 | in every run a readable update is broadcast as captured, tagged with the last proposal's epoch if its travel is live by that reading, and else untagged |
| Handover.ResumeHandsOver | kermp/runtime.py:461-520 | in every run, when a client reads the resume of its epoch after an end, everything since the proposal was tagged; if it still buffers, its game is handed exactly the first 256 updates broadcast since the last proposal or begin; and if there were no more than that, its game has all of them, buffering or not |
| Handover.ShowsAllUntilTravel | kermp/runtime.py:472-487 | in every run a client that has read no proposal since it joined has shown every update it has read |
| ClientTells.NoticesAreExact | kermp/runtime.py:489-523 | for any inputs the client's game is given exactly the commits, aborts, resumes, marks of the client's epoch and newer proposals it read, in order |
| ClientTells.NoticeComesLast | kermp/runtime.py:499-521 | a notice follows the updates that its message releases |
| ClientTells.ErrorIff | kermp/runtime.py:463-483 | an update causes an error if and only if it is new and cannot be read, is not of the client's epoch, or meets a full buffer, and then exactly one |
| Resume.ResumeMeansEveryoneArrivedOrLeft | kermp/runtime.py:282-331 | a resume in the log of any run means that each player listed in that epoch's proposal had a zone-ready counted or departed in between |
| Resume.ResumeReleasesIffBatchDone | kermp/runtime.py:515-520 | a client in epoch e that reads the resume of e releases its whole buffer if and only if the last batch mark it has read since the proposal is an end; otherwise it shows nothing |
| Resume.DisciplinedRunsAreOrderly | sims_mod_src/kermp_mod/hooks.py:3156-3177 | as long as zones load only after the commit and the host's own player stays, commit and end precede the host's zone-ready and every resume, through every bridge loss, departure and forged message |
| Resume.ResumeFollowsCommitAndEnd | kermp/runtime.py:307-331 | a resume sent under these two conditions follows a commit and an end of its epoch in the log, for good |
| Resume.ResumeAlwaysReleases | sims_mod_src/kermp_mod/hooks.py:3173-3177 | if, up to the sending of a resume, zones loaded only after the commit and the host's own player had not been dropped, every client that reads it in its epoch releases its whole buffer |
| HostDropped.DroppedHostLeavesTheGuestBuffering | kermp/net.py:104-145 | a concrete run in which no zone loads early but the host's own player is dropped, after whose resume the guest still buffers |
| Departures.SilentCommitIff | kermp/session.py:59 | the first barrier opens with nothing broadcast if and only if the last participant that was not ready departs, and the phase COMMITTED is never left standing otherwise |
| Departures.SilentCompletionIff | kermp/session.py:59 | the travel completes with nothing broadcast if and only if the last participant whose zone was not ready departs |
| Departures.NothingIsAnnounced | kermp/travel.py:93-105 | in every run, after such a departure no commit, or no resume, of that epoch is ever in the log |
| Departures.AnnouncedIff | kermp/runtime.py:299-331 | in every run an opened barrier is announced if and only if it was not such a departure that opened it |
| LeftAlone.DepartureCommitsInSilence | kermp/travel.py:100-102 | a concrete run in which the guest's departure commits the travel, and however the run goes on no commit of it is broadcast |
| EarlyLoad.EarlyLoadLeavesTheGuestBuffering | sims_mod_src/kermp_mod/hooks.py:2210-2229 | a concrete run with a zone load between prepare and commit, after whose resume the guest still buffers |
| BuildSync.ValidateBuildData | kermp/buildsync.py:17-41 | the checking and converting loops give the specified data or the specified error |
| BuildSync.RevalidationIsIdentityIff | kermp/buildsync.py:23-30 | accepted data is accepted again, unchanged, if and only if it came with no id that is not a text and prints as one that is too long |
| BuildSync.LongListIsAcceptedOnce | kermp/buildsync.py:26-30 | a destruction whose object id is a long list is accepted, and refused when sent again as logged |
| BuildRuns.ExpiredIffNotRenewedInTime | kermp/buildsync.py:50-52 | on a clock that never goes back, a lock is expired exactly when none of its owner's renewals, by request or logged operation, lies within the lease time |
| BuildSync.BuildAuthority.RequestLock | kermp/buildsync.py:79-86 | lock, lease id and answer are the specified ones, with an expired lock dropped first even on refusal |
| BuildSync.BuildAuthority.ReleaseLock | kermp/buildsync.py:88-93 | only the owner releases, expired or not |
| BuildSync.BuildAuthority.SubmitOperation | kermp/buildsync.py:95-106 | numbering, renewal, trimming and each error are the specified ones; an expired lock is dropped and its lease id stays |
| BuildRuns.LockOrigin | kermp/buildsync.py:79-106 | the lock in force dates from its owner's last renewal and nothing has touched it since |
| BuildRuns.LoggedWithinLease | kermp/buildsync.py:95-106 | every logged operation comes from a player who has held the lease without a break since a renewal at most the lease time ago |
| BuildRuns.HandoverIsExplicit | kermp/buildsync.py:79-106 | logged operations of two players are separated by the first one's release, removal or expiry |
| BuildRuns.OwnerIsNotDisplaced | kermp/buildsync.py:79-106 | with a clock that never goes back, an owner who requests or has an operation logged within every lease window keeps the lease |
| BuildRuns.OthersAreRefused | kermp/buildsync.py:79-106 | while one player keeps the lease nobody else is granted it or has an operation logged |
| BuildLaws.GrantedIff | kermp/buildsync.py:79-86 | in every run on a clock that never goes back, a request is granted, and its player then holds the lease, if and only if nobody else holds it by a renewal at most the lease time ago |
| BuildLaws.AcceptedIff | kermp/buildsync.py:95-100 | a submission is logged if and only if its player holds the lease by a renewal in time and the data is valid, and the error says which failed |
| BuildLaws.LoggedAsSubmitted | kermp/buildsync.py:100-104 | a logged operation has the submitted player and operation, the validated data and the next number |
| BuildLaws.ReleasedIff | kermp/buildsync.py:88-93 | a release or removal ends the lease of its player if it has it, and nobody else's |
| BuildLaws.LeaseIdNamesTheGrant | kermp/buildsync.py:83-84 | while there is a lock, the lease id names its owner and the stamp of its last grant |
| BuildLaws.ValidIff | kermp/buildsync.py:17-41 | data is valid exactly under conditions on what was submitted, and is kept entry by entry with ids as text |
| BuildLaws.RefusalIs | kermp/buildsync.py:17-41 | each error is given exactly for the first thing wrong |
| BuildRuns.HistoryIsLogTail | kermp/buildsync.py:102-106 | the history is the last min(sequence, limit) operations of the unbounded log, numbered without gaps, for every limit including 0 and negative ones |
| BuildRuns.HistorySuffices | kermp/buildsync.py:112-113 | `history_since` gives the full tail of the unbounded log if and only if nothing after the asked number was trimmed |
| Adapter.SimsBuildAdapter.CaptureLocal | sims_mod_src/kermp_mod/build_adapter.py:243-267 | suppression, refusal, repeated-definition filter and id choice are the specified ones |
| Adapter.SimsBuildAdapter.ApplyRemoteOperation | sims_mod_src/kermp_mod/build_adapter.py:269-291 | state and outcome are the specified ones, also when the callback raises or is missing |
| ReplayRuns.CapturesAreSuppressed | sims_mod_src/kermp_mod/build_adapter.py:243-246 | during an apply any list of captures changes nothing but the suppression counter |
| ReplayRuns.ApplyEmitsNothing | sims_mod_src/kermp_mod/build_adapter.py:269-291 | no apply emits a capture, and the suppression flag is off afterwards, even after an exception |
| ReplayRuns.AppliedAtMostOnce | sims_mod_src/kermp_mod/build_adapter.py:275-284 | in any run of captures and deliveries no key is handed to the callback twice |
| CaptureLaws.TakenIff | sims_mod_src/kermp_mod/build_adapter.py:136-155 | what a replica takes as valid, in terms of the payload, and that it keeps what each entry prints as |
| CaptureLaws.CapturedIff | sims_mod_src/kermp_mod/build_adapter.py:243-267 | in every run, outside applies, an operation is emitted if and only if it is valid and does not give an object the definition emitted for it last; it is emitted as it is, under its own id or the next running number |
| CaptureLaws.GeneratedIdsDiffer | sims_mod_src/kermp_mod/build_adapter.py:260-261 | different running numbers give different ids |
| CaptureLaws.AnswerIs | sims_mod_src/kermp_mod/build_adapter.py:269-291 | exactly when an apply is invalid, a duplicate, without a callback, applied, or raised, and that the callback is called in the last two cases only |
| ReplayRuns.OnlyDeliveriesMatter | sims_mod_src/kermp_mod/build_adapter.py:243-291 | callbacks that capture or raise, and captures between deliveries, change nothing about what is handed over |
| ReplayRuns.ReplayConverges | sims_mod_src/kermp_mod/build_adapter.py:269-291 | if no two usable entries share a key, any run, with any callbacks and captures, that delivers a gap-free schedule of overlapping log slices applies exactly the usable log prefix, in order |
| ReplayRuns.OnePassAppliesAllIffKeysDistinct | sims_mod_src/kermp_mod/build_adapter.py:275-278 | a run that delivers a log once applies all its usable entries if and only if their keys are distinct |
| BuildPipeline.LogIsVetted | kermp/buildsync.py:100-104 | all data in the log is the outcome of a successful validation |
| BuildPipeline.AdapterTakesIff | sims_mod_src/kermp_mod/build_adapter.py:136-155 | of what the authority logs, replicas refuse exactly the creations without an object id and leave the data of the rest unchanged |
| BuildPipeline.OperationsConverge | kermp/net.py:267-276 | for every run of the authority whose log has no clash, and every run of a replica that delivers a gap-free schedule of overlapping slices, the replica has applied the reached log prefix, once each and in order, but for the creations without an object id |
| BuildPipeline.ClientLogsAreClashFree | kermp/net.py:276 | a log of client operations alone has no clash, so it always converges |
| BuildPipeline.ExpectedLength | kermp/buildsync.py:31-35 | nothing is missing from that prefix if and only if it has no creation without an object id |
| BuildPipeline.OnePassConvergesIffClashFree | kermp/runtime.py:203-208 | one pass over the log of any run of the authority applies all it should if and only if no two operations have the same id, or none and the same content |
| BuildPipeline.KeysAreDistinctIff | sims_mod_src/kermp_mod/build_adapter.py:275 | for every log, the adapter's keys are distinct if and only if nothing in it clashes |
| BuildPipeline.SecondOfAClashIsLost | kermp/runtime.py:203-208 | the second of two clashing operations is dropped as a duplicate, whatever the callbacks do |
| BuildPipeline.PurchasesClash | kermp/buildsync.py:36-40 | two equal purchases in the host's game are accepted and clash |
| BuildPipeline.CreationWithoutObjectIsLoggedAndRefused | kermp/buildsync.py:31-35 | a creation without an object id is accepted by the authority and refused by every replica whatever its ids |
| Contours.Count | sims_mod_src/kermp_mod/build_adapter.py:65-70 | the dictionary holds each key's number of occurrences, each key once, in order of first appearance |
| Contours.Surplus | sims_mod_src/kermp_mod/build_adapter.py:71-78 | the collected items have as bag of keys exactly the multiset difference, come in order of first appearance, and each is the first item of its list with its key |
| Contours.ContourDelta | sims_mod_src/kermp_mod/build_adapter.py:57-78 | added and removed are the two multiset differences, each in order of first appearance: before plus added is after plus removed, and they share no key |
| SaveSync.CutHasChunkCount | kermp/save_sync.py:56 | the file falls into as many pieces as the manifest's rounded-up division says |
| SaveSync.ReadChunks | kermp/net.py:89-93 | the sending loop reads each byte once: its chunks are the cut file |
| SaveSync.SaveReceiver.constructor | kermp/save_sync.py:76-91 | a valid manifest starts counters at zero and removes a left-over partial file and nothing else |
| SaveSync.SaveReceiver.WriteChunk | kermp/save_sync.py:93-104 | an out-of-order, oversized or short chunk changes nothing; any other is appended |
| SaveSync.SaveReceiver.Abort | kermp/save_sync.py:106-107 | removes the partial file and leaves the counters |
| SaveSync.SaveReceiver.Commit | kermp/save_sync.py:109-121 | folder and outcome are the specified ones: the old file copied over the backup named by session, slot and second, then replaced, or the partial file removed |
| SaveSync.SaveClient.OnManifest | kermp/runtime.py:433-439 | a bad manifest keeps the receiver in use, a valid one replaces it |
| SaveSync.SaveClient.OnChunk | kermp/runtime.py:440-449 | a refused chunk removes the partial file and keeps the receiver |
| SaveSync.SaveClient.OnEnd | kermp/runtime.py:450-460 | acknowledges or reports the failure, and drops the receiver either way |
| SaveRuns.ChunksAreAccepted | kermp/save_sync.py:93-104 | from any point of a transfer, the rest of the sender's chunks is accepted and appended in full |
| SaveRuns.TransferSucceedsIffNotEmpty | kermp/net.py:85-94 | for every file and chunk size all chunks are accepted, and the file ends in place, byte for byte, if and only if it is not empty; the answer is then its slot, digest and length and whether there was a file before |
| SaveRuns.AcknowledgedTransferIsComplete | kermp/save_sync.py:93-111 | under any schedule an acknowledged transfer received its total, in as many chunks as the rounded-up division says or one more |
| SaveLaws.AckReports | kermp/runtime.py:450-460 | in every run an acknowledgement names slot, digest and size of the manifest that began the transfer; the slot's final file then has that digest and is what was accepted since the last refusal; no other final file changed; and it says truly whether there was one to back up |
| SaveLaws.SizeIsTrueIff | kermp/save_sync.py:106-111 | the reported size is that of the final file if and only if nothing had been accepted before the last refused chunk |
| SaveLaws.OneByteIsReportedAsTwo | kermp/save_sync.py:106-107 | a concrete run with an untrue report |
| SaveLaws.EventReceives | kermp/save_sync.py:93-107 | exactly which chunk is accepted, with what progress, and why any other is refused and what that costs |
| SaveLaws.ManifestBegins | kermp/runtime.py:433-453 | a valid manifest begins a transfer at nothing, an invalid one changes nothing, and without one chunks and ends are refused |
| SaveLaws.EndIsRefused | kermp/save_sync.py:109-112 | a refused end costs the partial file alone, and says why |
| SaveLaws.AnnouncedTruly | kermp/save_sync.py:53-59 | a manifest is made exactly for allowed chunk sizes and announces the slot, the length and as many chunks as will be cut |
| SaveRuns.FinalsChangeOnlyOnCommit | kermp/save_sync.py:109-121 | final files and backups change only in an acknowledged commit: the final file becomes a partial file with the manifest's digest, and the one backup that changes gets the old content |
| SaveRuns.KeepsAllIff | kermp/save_sync.py:114-120 | an event keeps every final file and backup content of every slot if and only if the backup it makes has a new name or replaces content that is also kept elsewhere |
| SaveRuns.NothingIsLost | kermp/save_sync.py:114-120 | under any schedule in which every backup has such a name, whatever was once a final file or backup stays one |
| SaveRuns.OnlyCopySurvivesIff | kermp/save_sync.py:115-119 | the only copy of a save, not sent again, survives a run if and only if no later commit of its slot reuses the session and second of its backup |
| SaveRuns.SecondTransferLosesTheFirst | kermp/save_sync.py:115-119 | two transfers of a slot that end in the same session and second lose the file that was in place before them |
| SaveRuns.TwoTransfersWithinASecond | kermp/save_sync.py:115-119 | a concrete pair of such transfers |
| SaveRuns.FinalsAreOldOrVerified | kermp/save_sync.py:109-121 | under any schedule a final file is the original one or has the digest of a valid manifest received for its slot |
| Session.DialogRouter.Answer | kermp/routing.py:64-70 | only the owner's answer closes a dialog; anybody else's leaves it open |
| Session.DialogRouter.Disconnect | kermp/routing.py:71-74 | closes exactly the player's dialogs |
| Session.ControllersOf | kermp/session.py:123-125 | lists exactly the players whose active Sim it is |
| Session.HostSession.AddPlayerRecord | kermp/session.py:38-47 | the new session is the specified one; a returning player gets the remembered Sim and only its list is derived anew |
| Session.HostSession.RemovePlayerRecord | kermp/session.py:49-60 | lease, barrier, dialogs and all lists are updated together as specified |
| Session.HostSession.UpdateRoster | kermp/session.py:101-108 | the roster comprehension and the refresh loop give the specified Sims |
| Session.HostSession.Select | kermp/session.py:113-121 | refuses unknown players and Sims, and derives only the new Sim's list |
| Session.HostSession.Validate | kermp/session.py:127-147 | each refusal changes nothing; an accepted request adds one record |
| Session.HostSession.Cancel | kermp/session.py:149-168 | a cancellation by the Sim's player marks the record, making one if there is none |
| Session.HostSession.Report | kermp/runtime.py:229-237 | a status event changes only status and interaction id of a known record |
| SessionRuns.IntegrityHolds | kermp/session.py:38-125 | in every run by joined callers, lease owner, live-travel participants, dialog owners and all controllers are current players; each list has no repeats and holds everyone whose active Sim it is |
| SessionRuns.SelectKeepsExactIff | kermp/session.py:113-121 | a selection keeps all lists exact if and only if it does not move the player away from another Sim of the roster |
| SessionRuns.StepKeepsExactIff | kermp/session.py:38-125 | any event keeps all lists exact if and only if it is not such a move or a second join that acts like one |
| SessionRuns.ExactUntilAMove | kermp/session.py:101-121 | after a roster update or a departure all lists stay exact until a player moves away |
| SessionRuns.RefreshedIsExact | kermp/session.py:54-55 | a departure or roster update leaves every list exact, whatever it was before |
| StaleList.MovingLeavesAStaleList | kermp/session.py:118-119 | a concrete run of four events after which a Sim lists a player who plays another |
| SessionRuns.LedgerKeepsRecords | kermp/session.py:127-168 | in every run a request id is never dropped and its player, Sim and affordance never change |
| SessionRuns.IdsAreNotReused | kermp/session.py:132 | no request id is accepted twice |
| SessionRuns.RecordsAreLegitimate | kermp/session.py:133-146 | every record with an affordance goes back to an acceptance at which its Sim was in the roster and was its player's active one |
| SessionLaws.RequestEntersIff | kermp/session.py:127-147 | in every run a request is entered if and only if its id is nonempty and new, it names no Sim or the player's own active one, that Sim is in the roster, and it has an affordance; its record is for the very Sim it names; a refused one changes nothing |
| SessionLaws.RequestRefusal | kermp/session.py:131-136 | each refusal is given exactly for the first thing wrong |
| SessionLaws.CancelIs | kermp/session.py:149-168 | a cancellation takes effect if and only if it names the player's active Sim and an interaction; it marks the record under its id, whoever made it, or makes one, and touches nothing else |
| SessionLaws.ReportIs | kermp/runtime.py:233-237 | a report sets status and, if it brings one, interaction id of a known record and nothing else |
| SessionLaws.DialogClosesIff | kermp/routing.py:64-74 | in every run a pending dialog is closed exactly by its owner's answer or departure, and keeps its owner until then |
| SessionLaws.AnswerIs | kermp/routing.py:64-70 | an answer closes a pending dialog if and only if it is its owner's, and otherwise changes nothing |
| SessionLaws.SelectIs | kermp/session.py:113-121 | a selection takes effect if and only if player and Sim are known, and changes nobody else's |
| SessionLaws.LeaveIs | kermp/session.py:49-60 | a departure takes away the player's own entry, lease and dialogs and nobody else's |
| SessionLaws.RosterIs | kermp/session.py:101-106 | the roster is exactly the listed Sims that have an id, each under the name listed last |
| SessionLaws.ReturningPlayerGetsItsSim | kermp/session.py:43-52 | in every run a player who left playing a Sim and comes back plays it again, and is listed for it, if and only if it is still in the roster |
| SessionLaws.NewPlayerPlaysNone | kermp/session.py:43-47 | a player with no remembered Sim comes in playing none |
| CaptureQueue.CaptureQueue.Create | kermp/native_capture.py:8-14 | a queue is made exactly for capacities of at least one |
| CaptureQueue.CaptureQueue.Push | kermp/native_capture.py:16-25 | the item issued is the newest one queued, and the queue never exceeds its capacity |
| CaptureQueue.EveryIdIsAccounted | kermp/native_capture.py:7-28 | in every run each id issued is that of exactly one item, taken, dropped or queued |
| CaptureQueue.RunsKeepInv | kermp/native_capture.py:7-28 | in every run the counters count what was dropped and issued, queued ids are the newest without gaps, and taken ids strictly increase |
| CaptureQueue.DropsOnlyTheOldest | kermp/native_capture.py:18-24 | an item is dropped exactly by a push into a full queue, and it is the oldest |

## Left out

- Sockets, tasks, threads and the bridges' transport: a channel is a sequence, a lost peer is a leave step.
- Handlers interleaving at their awaits: a zone-ready between `kermp/runtime.py:311` and `kermp/runtime.py:315` would make `begin_zone_wait` raise.
- Per-peer message numbers of `kermp/net.py:135-139` and the dispatch of the other message types.
- Exceptions that end a connection, such as a second travel request or invalid build data from a client: the peer's leave step stands for them.
- The lookup of a request by interaction id at `kermp/net.py:254-256`: the id it finds is a parameter of the cancellation.
- Liveness of travel and delivery after a travel ends: the code promises neither. After a travel ends updates carry no epoch, and clients that were in it refuse them.
- JSON, base64 and SHA-256: payloads are readable or not, values carry their printed form, the digest is any function.
- Value and key length errors of build data are one error in the model; a boolean amount is a number, as in Python.
- The `changed` list of `contour_delta`, and `resolve_parent_context`.
- A callback that applies another remote operation while it runs: it would switch suppression off too early.
- Lease ids after an expiry: they go stale in `submit`, and nothing is stated about them.
- Aliasing of stored records with broadcast dictionaries: players, Sims, requests and dialogs are values in maps.
- Counters kept for diagnostics and the adapter's `reset_diagnostics`, after which running numbers start again, the `IDLE` phase (never used), readiness, manifests, clock, command router and dialog payloads.
- A client's queue of build operations waiting for the lease, which is sent in order when the lease arrives.
- The client's own game hooks beyond what the sidecar is told, and everything else in `sims_mod_src/kermp_mod/hooks.py`.
- Travel.TravelCoordinator.AbortTxn: an abort of a complete travel is allowed, because the code allows it.
