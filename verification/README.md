# Verified model of the visual-inertial flight application

A Dafny model of the code that decides, byte by byte, what a flying vehicle is told, and of the
recording, sensor and camera paths that feed it. Each component is modelled on the C++ or Python it
comes from, with the same branches, limits and error exits; an exception is a null object, an `Option` or
an error value. Time is an integer number of nanoseconds.

## What is modelled

**Publication protocol.** `FlightSession.dfy` is the five-state session policy, `MavlinkLink.dfy` the
link object that drives it over a stream which may take any number of bytes per write, and
`LinkModel.dfy` the same link as a value. Every method of the two classes is proved to compute the
corresponding function. `SessionRuns.dfy` and `SessionLaws.dfy` say what every sequence of calls on a session
keeps, and when exactly it stands in each of its states. `LinkHistory.dfy` keeps a log of the messages heard, the
estimates offered and the bytes the stream accepted, and states one rule per event; `LinkProofs.dfy` proves that
every call keeps these rules for every read, every partial write, restart, expiry and I/O failure.
`LinkTheorems.dfy` reads off the log what may happen, `LinkPermissions.dfy` and `LinkPolls.dfy` prove what does:
what each message means, which estimates are queued, and what each poll puts on the wire. `LinkFailures.dfy`
follows the attempt count through every way a session can fail, and `LinkScenes.dfy` runs whole scenes.
Packet encoding is any function from a packet and its sequence number to at most 280 bytes, none of them
empty; the coordinate transform is any function whose results say whether they fit the wire.

**Reset byte.** `SessionStore.dfy` persists the counter on a disk that keeps only what was synced, with a
stop at any step and a power loss at any time. `FlightApplication.dfy` launches and ends processes, starts
one session after another and proves the byte on the wire in step with the durable counter.

**Recorder.** `Recording.dfy` holds the locked sections as methods of the shared state,
`RecorderModel.dfy` the transition system of producers, writer thread and owner with their program
counters, and all recorders of the process with their single writer slot. `RecorderProofs.dfy`,
`RecorderTheorems.dfy` and `RecorderOutcomes.dfy` cover every interleaving.

**Sensors.** `ImuLowPass.dfy` is the low-pass filter over the reals: its design and response, the transposed form as a
mutable object, and the difference equation that form computes. `ImuPairing.dfy` proves that the
streaming two-queue pairing equals the batch interpolation of the calibration tool for any chunking.
`CameraQueue.dfy` and `EstimatorFeed.dfy` follow frames and IMU rows into the estimator, and
`CameraPath.dfy` joins the two queues and the camera thread between them into one system.

**Arithmetic and arrays.** `Frames.dfy` composes rotations, `CameraCapture.dfy` copies frames and selects
exposures, `Allan.dfy` proves the prefix-sum Allan deviation equal to its definition.

## Where the code differs from what is said about it

- The comment at src/session_store.cpp:35 says crashes cannot reuse a reset byte. The reservation is never
  reused, but its byte is taken modulo 256: `SessionStores.ByteZeroComesBack` is a history that brings it
  back, `SessionStores.SameByteExactlyAfterAFullTurn` says exactly when any does.
- src/recording.cpp:152 waits for producers to have stopped, but the recorder does not enforce it: a
  recording can be complete although a later submission was refused, as `RecorderTheorems.CompleteThoughRefused`
  runs; `RecorderTheorems.CompleteIsTotalExactlyWithoutLatecomers` says exactly when it is not.
- A complete recording can become incomplete again: a producer caught between its two checks reports a record
  that is too large after the writer has finished (src/recording.cpp:193-199), as
  `RecorderOutcomes.CompletenessCanBeTakenBack` runs; `RecorderOutcomes.CompleteStaysExactlyUnlessOversized` says
  exactly when it cannot.
- A session cut off while aligned keeps its attempt count although no command is unresolved
  (`LinkScenes.CutOffMiscounts`). In every other failure the count is right:
  `LinkFailures.FailureCountsUnlessAligned`.
- The replay check of low bytes (src/openvins_runner/sensor_runner.cpp:384-389) samples every 997th pixel
  after the first frame; `CameraCaptures.UnsampledByteGoesUnseen` changes any other unseen, and
  `CameraCaptures.AcceptedFrameIsARecording` says exactly what is missed.
- The check for a non-increasing timestamp after filtering (src/openvins_runner/sensor_runner.cpp:270)
  never fires: `ImuPairings.StopsExactlyWhen`.
- A frame can pass the gate before any IMU sample was fed if its time plus the estimated offset lies below
  zero, because the last IMU time starts at zero: `EstimatorFeeds.UncoveredFrame` does,
  `EstimatorFeeds.EveryFrameIsCovered` says only then.
- Roll, pitch and yaw lose the attitude straight up or down, as src/frames.cpp:65-66 warns:
  `Frames.StraightUpLosesItsHeading` shows it, `Frames.AnglesNameTheAttitude` says for which attitudes.

## Model

| member | source | states |
|---|---|---|
| `Sessions.FlightSession.Create` | src/flight_session.cpp:9-16 | a session exists exactly for positive time limits and 1 to 256 attempts, so that the confirmation byte cannot overflow |
| `Sessions.FlightSession.Start` | src/flight_session.cpp:20-34 | refused and unchanged after a failure, with an unresolved command, or for a generation that does not increase; otherwise a clean session with the next reset byte |
| `Sessions.FlightSession.Tick` | src/flight_session.cpp:56-83 | heartbeat loss revokes alignment, an expired request is retried or fails the session |
| `Sessions.FlightSession.Heartbeat` | src/flight_session.cpp:44-52 | expire first, then record; arming during a request fails the session |
| `Sessions.FlightSession.AlignmentSent` | src/flight_session.cpp:109-116 | counts the attempt and starts its clock, or reports the logic error of a command sent when none was due |
| `Sessions.FlightSession.Acknowledge` | src/flight_session.cpp:120-144 | acceptance, progress, retry and rejection of an outstanding request; ignored in any other state, from a silent or armed controller |
| `SessionRuns.EveryRunIsBounded` | src/flight_session.cpp:56-144 | after any calls: a pending request is disarmed and counted within 1 to the limit, and a session that may still ask has an attempt left |
| `SessionRuns.FailureIsFinal` | src/flight_session.cpp:20-23 | Failed is absorbing: no call changes generation, attempts or reset byte, and nothing may be published or requested |
| `SessionRuns.ProgressKeepsTheDeadline` | src/flight_session.cpp:73-82 | any number of progress reports and heartbeats leaves the request time unchanged, and at every call that can notice the request has waited less than its limit |
| `SessionRuns.DelayIsBounded` | src/flight_session.cpp:132-139 | no run postpones the next request by more than the alignment timeout |
| `SessionRuns.RetryWaitsItOut` | src/flight_session.cpp:132-138 | after the controller asked for a retry no request is due before the alignment timeout has passed, whatever arrives meanwhile |
| `SessionRuns.RetryStaysPossible` | src/flight_session.cpp:94-99 | once that long has passed, a priming session with a disarmed controller may ask exactly when it has a fresh sent measurement |
| `SessionLaws.AlignedExactlySince` | src/flight_session.cpp:56-127 | over every sequence of calls a session is aligned if and only if the controller accepted an outstanding request and ever since every call that could notice found it heard in time, with no new generation |
| `SessionLaws.FailedExactlyOnce` | src/flight_session.cpp:44-142 | over every sequence of calls a session has failed if and only if some call found its request broken off, arming, a final refusal or a retry with no attempt left |
| `SessionLaws.FailsExactlyFor` | src/flight_session.cpp:44-142 | and no call fails a session for any other reason |
| `SessionLaws.AwaitsExactlyFor` | src/flight_session.cpp:73-116 | a request is outstanding exactly from the call that sent it, on that call's clock, while it is in time, unanswered but for progress, and the vehicle disarmed |
| `SessionLaws.AlignsExactlyFor` | src/flight_session.cpp:56-127 | a call aligns a session exactly by accepting its outstanding request, and leaves it aligned exactly if it finds the controller heard and begins nothing |
| `SessionLaws.WaitsExactlyFor` | src/flight_session.cpp:56-72 | a session waits for its controller exactly from its start, or from a call that did not find it heard in time, until one that does |
| `SessionLaws.AttemptsAreCounted` | src/flight_session.cpp:65-112 | attempts count the requests made since the session began or lost its alignment |
| `SessionLaws.ControllerIsNoted` | src/flight_session.cpp:44-52 | only a heartbeat changes what is known of the controller |
| `SessionLaws.GenerationIsNoted` | src/flight_session.cpp:20-34 | only a start that is accepted changes generation and reset byte |
| `SessionLaws.NextRequestIsTimed` | src/flight_session.cpp:73-138 | an expired request may be repeated at once, a refused one only after the alignment timeout, and a start clears any delay |
| `SessionLaws.MeasurementLasts` | src/flight_session.cpp:56-104 | the evidence of a written measurement lasts exactly while the session goes on and hears its controller |
| `SessionLaws.ExpiredRequestIsRetried` | src/flight_session.cpp:73-82 | a request that ran out of time with an attempt left is due again as soon as a measurement is fresh |
| `Estimates.Validate` | src/estimate.cpp:8-31 | accepts exactly the initialised, current, neither future nor stale, finite and oriented estimates, and names a check any other one fails; throws exactly on a negative clock or limit |
| `MavlinkLinks.MavlinkLink.Create` | src/mavlink_link.cpp:22-32 | a link exists exactly for a stream, usable session limits and distinct, nonzero addresses |
| `MavlinkLinks.MavlinkLink.StartSession` | src/mavlink_link.cpp:36-45 | the whole new state, including the closed link after a partial transmission and the unchanged link after a refusal |
| `MavlinkLinks.MavlinkLink.EndSession` | src/mavlink_link.cpp:48-54 | withdraws unsent data, or closes the link around a partial packet |
| `MavlinkLinks.MavlinkLink.Receive` | src/mavlink_link.cpp:58-84 | which heartbeats and acknowledgments reach the session, from whom, and as what |
| `MavlinkLinks.MavlinkLink.Append` | src/mavlink_link.cpp:87-92 | packs into the fixed array behind what is there, or reports the capacity error |
| `MavlinkLinks.MavlinkLink.Publish` | src/mavlink_link.cpp:97-140 | every reason to hold or reject, in order, and the buffer, stamp and deadline of a queued measurement |
| `MavlinkLinks.MavlinkLink.Expire` | src/mavlink_link.cpp:206-221 | drops expired or no longer permitted data, or closes the link around a partial packet |
| `MavlinkLinks.MavlinkLink.Send` | src/mavlink_link.cpp:226-244 | refills a free buffer with due control traffic, writes once, and concludes a whole buffer |
| `MavlinkLinks.MavlinkLink.Poll` | src/mavlink_link.cpp:185-248 | one service of the connection on the real array computes the model's poll, for every read and write outcome |
| `LinkTheorems.WireIntegrity` | src/mavlink_link.cpp:211-237 | over every run the wire is whole packet buffers followed by the sent part of one more, which on an open link is the sent part of the pending buffer |
| `LinkTheorems.NoSplicing` | src/mavlink_link.cpp:214-219 | consecutive writes either start a new buffer after a complete one or resume the same buffer at the next byte; an abandoned packet is the last thing written |
| `LinkTheorems.FailureSilencesTheWire` | src/mavlink_link.cpp:175-180 | after a failure no later call writes a byte |
| `LinkTheorems.FullReadWritesNothing` | src/mavlink_link.cpp:222-225 | a poll whose read filled the budget writes nothing |
| `LinkTheorems.ArmedPublicationIsJustified` | src/flight_session.cpp:87-90 | measurement bytes written to an armed vehicle are preceded, in the same generation, by a whole measurement, a whole alignment command and the controller's own message accepting it while disarmed, with no heartbeat gap since |
| `LinkTheorems.WrittenMeasurementsAreFresh` | src/mavlink_link.cpp:206-221 | every write of measurement bytes is within the age limit of its timestamp and carries the reset byte of the current generation, however long it waited |
| `LinkTheorems.MeasurementsTellTheEstimate` | src/mavlink_link.cpp:104-139 | every measurement written carries the position, attitude and configured velocity of an estimate offered in this generation, in the controller's axes and under its own stamp in whole microseconds, and that estimate passed every check when it was offered |
| `LinkTheorems.MeasurementsAreOrdered` | src/mavlink_link.cpp:104-105 | within a generation complete measurements have strictly increasing nanosecond and nondecreasing microsecond stamps, and no measurement byte is sent twice |
| `LinkTheorems.AlignmentFollowsAMeasurement` | src/flight_session.cpp:94-99 | an alignment command is written only to a disarmed, recently heard controller after a fresh whole measurement, and its confirmation byte is exactly the number of unanswered commands |
| `LinkPermissions.MessagesMeanWhatTheySay` | src/mavlink_link.cpp:58-84 | on every reachable link the controller's heartbeats set the armed bit they carry, each of its four kinds of answer decides an outstanding command in its own way, and any other message does nothing |
| `LinkPermissions.DenialIsFinal` | src/flight_session.cpp:140-142 | a command refused for good leaves the session failed, and nothing is written after it |
| `LinkPermissions.PublicationIsPermittedExactly` | src/flight_session.cpp:87-90 | on every reachable link publication is permitted if and only if a generation has begun, the controller was heard in time, the session has not failed, and it is aligned or the vehicle last said it was disarmed |
| `LinkPermissions.AlignmentLasts` | src/flight_session.cpp:59-71 | a call ends an alignment if and only if it begins a generation, closes the link, or finds the controller not heard in time |
| `LinkPermissions.OffersAreQueuedExactly` | src/mavlink_link.cpp:97-140 | an offered estimate is queued if and only if publication is permitted, the estimate is current, in time, usable, newer than the last one queued and fits the wire, the buffer is free and no control traffic is due; the buffer then holds exactly its measurement |
| `LinkPermissions.AlignedVehicleIsServed` | src/mavlink_link.cpp:97-140 | after an alignment, while calls find the controller heard and the link stays open, each usable newer estimate is queued on a free buffer, armed or not |
| `LinkPolls.PendingDataIsSent` | src/mavlink_link.cpp:206-244 | on every reachable link a poll that reads less than its budget and fails nothing puts exactly the bytes the stream takes of a permitted, timely buffer on the wire, the next ones, and concludes the buffer exactly at its end |
| `LinkPolls.SlowStreamGetsItAll` | src/mavlink_link.cpp:206-244 | a stream that takes at least one byte in each timely poll has the whole rest of the buffer after no more polls than bytes were left |
| `LinkPolls.FreeBufferServesControl` | src/mavlink_link.cpp:206-240 | with nothing pending that may go on, the wire grows by the bytes the stream takes of the alignment command, or else the heartbeat, that is due, and by nothing if neither is |
| `LinkPolls.PollClosesExactly` | src/mavlink_link.cpp:185-247 | a poll closes the link if and only if the read threw, the session failed, a half-sent packet may not go on, or the stream threw on bytes it was offered; it then wrote nothing |
| `LinkPolls.ReceivingIsInOrder` | src/mavlink_link.cpp:191-201 | messages are taken in the order they arrived |
| `LinkPolls.StatisticsAreTrue` | src/mavlink_link.cpp:206-240 | over every run the measurements counted as sent are those on the wire in full, and no queued one is counted twice as sent or dropped |
| `LinkScenes.ArmedVehicleIsTold` | src/mavlink_link.cpp:185-244 | for every configuration a run aligns, hears the vehicle arm, and goes on to write a whole measurement |
| `LinkTheorems.AlignmentIsBounded` | src/flight_session.cpp:109-116 | never more than the configured number of commands between starts and acceptances; in every reachable state the attempt count is the number of unresolved commands, except that an aligned session has none and a failed one may have none |
| `LinkFailures.PolicyFailsWithTheCountRight` | src/flight_session.cpp:44-82 | an expired request, arming, a rejection or an exhausted retry fails the session with its count equal to the unresolved commands |
| `LinkFailures.CloseCountsUnlessAligned` | src/mavlink_link.cpp:175-180 | closing the link keeps that equality if and only if the session was not aligned |
| `LinkFailures.FailureCountsUnlessAligned` | src/mavlink_link.cpp:36-54 | over every run, from the call that fails the session on, the equality holds if and only if that call did not cut off an aligned session |
| `LinkScenes.CutOffMiscounts` | src/mavlink_link.cpp:234-247 | for every configuration, a run that aligns and then loses its stream in a write: one attempt counted, no command unresolved |
| `LinkPolls.ControlIsNotStarved` | src/mavlink_link.cpp:106-109 | while control traffic is due a publication leaves a free buffer free, and the next poll with a partial read that does not fail puts on the wire what the stream takes of the due alignment command, or else of our heartbeat |
| `LinkTheorems.StartsExactlyWhenResolved` | src/mavlink_link.cpp:36-45 | a start succeeds if and only if no packet is half sent, the session has not failed, every command was accepted and the generation is new; a refusal changes nothing, and nothing queued before survives it |
| `LinkTheorems.NeverBreaksItsContract` | src/mavlink_link.cpp:87-113 | on every reachable link neither poll nor publish trips its internal checks, and an unused buffer is empty |
| `LinkTheorems.EndedCaptureIsSilent` | src/mavlink_link.cpp:48-54 | after the capture ends only our own heartbeats are written until a session starts again |
| `LinkProofs.PollHolds` | src/mavlink_link.cpp:185-248 | a poll keeps the link invariant: buffer, session and history agree and every event obeys the rules |
| `LinkProofs.PublishHolds` | src/mavlink_link.cpp:97-140 | so does a publication, and it never throws for a clock that is not negative |
| `LinkProofs.StartHolds` | src/mavlink_link.cpp:36-45 | so does a session start |
| `SessionStores.SessionStore.ReserveReset` | src/session_store.cpp:36-66 | open, write, sync, rename and directory sync in order, stopping at any of them, leave the modelled disk and byte |
| `SessionStores.ReserveIsNext` | src/session_store.cpp:38-46 | a successful attempt holds and returns the byte of the next reservation; a failed one leaves the old file or adds the next one behind it |
| `SessionStores.DamageIsRefused` | src/session_store.cpp:38-45 | a counter file that does not hold a byte is refused and left alone |
| `SessionStores.HappenKeepsSound` | src/session_store.cpp:36-66 | attempts stopped anywhere and power losses anywhere keep every file the disk may come back with an intact reservation, none older than the last one handed out |
| `SessionStores.History` | src/session_store.cpp:35-36 | so over every history reservations strictly increase and the counter is never found malformed |
| `SessionStores.SameByteExactlyAfterAFullTurn` | src/session_store.cpp:35-45 | the next byte equals the last one handed out if and only if the reservations persisted but never returned in between are 255 modulo 256 |
| `SessionStores.CrashesCanReuseTheByte` | src/session_store.cpp:57-65 | attempts dying between rename and directory sync bring the byte back exactly after 255 of them, modulo 256 |
| `SessionStores.ByteZeroComesBack` | src/session_store.cpp:57-65 | from a first start: byte 0, then 255 such deaths, then byte 0 again |
| `FlightApplications.FlightApplication.Launch` | src/flight_application.cpp:163-173 | a process owns a link exactly with a durable byte, a stream and usable settings, and starts from that byte, which is spent in any case |
| `FlightApplications.FlightApplication.BeginSession` | src/flight_application.cpp:182-185 | every session after the first reserves first; counter and link advance together or the process ends |
| `FlightApplications.ActKeepsStep` | src/flight_application.cpp:182-185 | launches, sessions, link calls, exits and power losses keep the link's byte in step with the durable counter |
| `FlightApplications.LaunchesExactlyWhenReserved` | src/flight_application.cpp:163-173 | a process comes up exactly if its reservation was made, with the byte of that reservation |
| `FlightApplications.BeginsExactlyWhenResolved` | src/flight_application.cpp:182-185 | a running process begins a session exactly if it needs no new byte or could reserve one, no packet is half sent, nothing failed and every command was accepted; the session has the latest reservation's byte |
| `FlightApplications.SessionsNeverShareAReservation` | src/flight_application.cpp:182-185 | over any life every session has its own reservation, larger than all before it and never above what the disk is sure to remember |
| `FlightApplications.MeasurementsCarryTheirReservation` | src/flight_application.cpp:170-185 | the byte on every transmitted measurement is that of its session's reservation; in the current session, of the latest one |
| `Recorders.RecordingState.Measure` | src/recording.cpp:195-202 | the size of a record, or none exactly when it exceeds the byte limit, without ever overflowing |
| `Recorders.RecordingState.Offer` | src/recording.cpp:204-215 | admission under the lock, exactly within both limits, and the exact byte count |
| `Recorders.RecordingState.TakeOldest` | src/recording.cpp:136-145 | the oldest record leaves, and its bytes with it, without underflow |
| `RecorderProofs.AdvanceKeeps` | src/recording.cpp:131-216 | every step of producer, writer and owner keeps the recorder's invariant |
| `RecorderTheorems.EveryRunIsHonest` | src/recording.cpp:131-172 | for every recorder and interleaving: the three statements below at once |
| `RecorderTheorems.HonestPrefix` | src/recording.cpp:193-211 | sink writes are a prefix of the accepted records, and those a prefix of all submissions in decision order |
| `RecorderTheorems.NothingVanishes` | src/recording.cpp:184-216 | per stream, submitted = written + in flight + lost + queued + rejected + still inside submit, with nothing lost unless the sink threw |
| `RecorderTheorems.CompleteMeansWritten` | src/recording.cpp:163-171 | a complete recording is exactly the submissions decided before it finished, and its sink finished well; all later submissions were refused |
| `RecorderTheorems.StoppedProducersAreAllWritten` | src/openvins_runner/sensor_runner.cpp:742-744 | if producers stop before close, complete implies submitted = written and rejected = 0 for every stream |
| `RecorderTheorems.CompleteThoughRefused` | src/recording.cpp:193-194 | a reachable run, for any record: complete, one submission, none written, one rejected |
| `RecorderTheorems.EveryRecorderIsHonest` | src/recording.cpp:10-16 | over every run of the whole process, each recorder is honest and within its limits while at most one writer lives |
| `RecorderTheorems.CompleteIsTotalExactlyWithoutLatecomers` | src/recording.cpp:193-194 | without that discipline, a complete recording has everything written if and only if nothing was decided after the finish and nothing is under way |
| `RecorderTheorems.FailureIsIrrevocable` | src/recording.cpp:13-16 | the first failure wins and excludes completeness for ever |
| `RecorderTheorems.TimeoutIsIrrevocable` | src/recording.cpp:223-228 | after a timed-out close the recording is never complete, even if the writer finishes |
| `RecorderTheorems.ResourcesAreBounded` | src/recording.cpp:204-214 | queue and byte limits hold in every reachable state, the byte count is exact until the writer is done, and the subtraction never underflows |
| `RecorderTheorems.AtMostOneWriter` | src/recording.cpp:12-16 | at most one writer lives in the process, and the slot is taken exactly while one does |
| `RecorderOutcomes.SubmissionIsDecidedByRoom` | src/recording.cpp:184-216 | an uninterrupted submission is queued last exactly if nothing failed or finished and both limits leave room; otherwise it is counted as rejected, and a lack of room is the backlog failure |
| `RecorderOutcomes.AdmittedExactlyWithRoom` | src/recording.cpp:204-213 | and so is the decision under the lock, in every reachable state |
| `RecorderOutcomes.FirstFailureIsNamed` | src/recording.cpp:13-16 | the first failure is recorded under its own name, storage, backlog or timeout, exactly when its cause is met, and nothing else is recorded as one |
| `RecorderOutcomes.FailedFinishDisqualifies` | src/recording.cpp:47-57 | a sink whose finish ends badly or throws disqualifies the recording for good, for storage unless something failed before |
| `RecorderOutcomes.CanAlwaysComplete` | src/recording.cpp:131-172 | from every reachable state in which nothing has failed, the owner and a writer whose sink works lead to a complete recording of everything accepted, without any producer |
| `RecorderOutcomes.CloseReturnsExactly` | src/recording.cpp:217-232 | the close returns exactly when the writer is done, or at the timeout of one that is not, which then is the failure unless another came first |
| `RecorderOutcomes.CompleteStaysExactlyUnlessOversized` | src/recording.cpp:193-199 | a complete recording stays complete whatever follows if and only if no producer stands between its two checks with a record above the byte limit |
| `RecorderOutcomes.CompletenessCanBeTakenBack` | src/recording.cpp:193-199 | a reachable run in which it does not stay complete |
| `ImuLowPasses.ImuLowPassState.Filter` | src/openvins_runner/sensor_runner.cpp:116-130 | one sample through the transposed form, with its restarts |
| `ImuLowPasses.CoefficientsAreStable` | src/openvins_runner/sensor_runner.cpp:98-104 | every cutoff gives unit gain at rest and poles inside the unit circle |
| `ImuLowPasses.DelayIsClosedForm` | src/openvins_runner/sensor_runner.cpp:105-106 | the group delay at rest is sqrt(2) / (2 K) samples |
| `ImuLowPasses.DesignedFilter` | src/openvins_runner/sensor_runner.cpp:98-108 | and that is the delay, in whole nanoseconds, the design stores |
| `ImuLowPasses.ResponseIsButterworth` | src/openvins_runner/sensor_runner.cpp:98-104 | at every frequency the power gain is that of a second-order Butterworth filter with the prewarped cutoff |
| `ImuLowPasses.TransposedFormIsTheRecurrence` | src/openvins_runner/sensor_runner.cpp:116-130 | over a stretch the outputs satisfy y = b0 x + b1 x' + b2 x'' - a1 y' - a2 y'' with the history padded by the restart sample |
| `ImuLowPasses.ConstantPassesUnchanged` | src/openvins_runner/sensor_runner.cpp:119-124 | a constant input passes unchanged from the first sample |
| `ImuLowPasses.OffHandsThrough` | src/openvins_runner/sensor_runner.cpp:117-118 | a filter that is off hands every sample through |
| `ImuLowPasses.EnergyNeverGrows` | src/openvins_runner/sensor_runner.cpp:126-129 | the deviation energy never grows under constant input, and shrinks unless the deviation is zero |
| `ImuLowPasses.OutputStaysBounded` | src/openvins_runner/sensor_runner.cpp:126-129 | so the output never again strays further from a constant input than that energy allows |
| `ImuPairings.ImuPairing.Read` | src/openvins_runner/sensor_runner.cpp:259-273 | a read of any length: the lane after it, or a stop at the first bad record |
| `ImuPairings.ImuPairing.PairUp` | src/openvins_runner/sensor_runner.cpp:277-300 | the pairing loop on the two queues computes the model's rows and leaves its queues |
| `ImuPairings.ImuPairing.Serve` | src/openvins_runner/sensor_runner.cpp:241-301 | one round of the thread |
| `ImuPairings.InterpolationIsLinear` | tools/calibration/kalibr_imu_csv.py:62 | the specification's interpolation is, on every closed segment, the line through its two samples |
| `ImuPairings.RowsAreTheCoveredGyros` | tools/calibration/kalibr_imu_csv.py:55-62 | the specification's rows are exactly the gyro samples within the acceleration span, in increasing order and each once |
| `ImuPairings.KalibrIsBatch` | tools/calibration/kalibr_imu_csv.py:43-66 | the calibration tool writes those rows cut to its window, and gives up exactly on an empty or non-increasing stream or under a hundred rows |
| `ImuPairings.HeadIsInterpolation` | src/openvins_runner/sensor_runner.cpp:282-288 | what the loop computes from the head of its queue is the interpolation over the whole stream |
| `ImuPairings.DrainKeepsPaired` | src/openvins_runner/sensor_runner.cpp:277-300 | draining keeps decided rows right and leaves only gyro samples later than the last acceleration |
| `ImuPairings.StreamingIsBatch` | src/openvins_runner/sensor_runner.cpp:275-300 | for any split of the streams into reads, a run that does not stop has emitted exactly the batch rows of what was read so far |
| `ImuPairings.ChunkingDoesNotMatter` | src/openvins_runner/sensor_runner.cpp:275-300 | two ways of cutting the same streams give the same rows |
| `ImuPairings.StreamingIsCalibration` | src/openvins_runner/sensor_runner.cpp:275-276 | the live pairing gives the calibration tool's rows for a recording of the same conditioned streams |
| `ImuPairings.StopsExactlyWhen` | src/openvins_runner/sensor_runner.cpp:263-272 | a reading stops the thread exactly for a non-increasing or future timestamp or a full queue; the second timestamp check never fires |
| `CameraQueues.CameraQueue.PushFrame` | src/camera_queue.h:20-30 | a closed queue ignores the frame; a full one drops its oldest and counts it |
| `CameraQueues.CameraQueue.Read` | src/camera_queue.h:31-41 | an error wins over frames, frames leave oldest first |
| `CameraQueues.FramesComeOutInOrder` | src/camera_queue.h:11-67 | over every run frames come out in order, each at most once and never with more than three newer ones waiting; every accepted frame is read, dropped, thrown away or queued |
| `CameraQueues.OnlyTheOldestGiveWay` | src/camera_queue.h:20-30 | after any pushes nobody reads, the queue holds the newest four of the old and new frames in order and counts the rest as dropped |
| `CameraQueues.TheFirstErrorStays` | src/camera_queue.h:42-48 | until a reset every read reports the first error |
| `CameraQueues.ClosedStaysEmpty` | src/camera_queue.h:49-54 | a closed queue delivers no frame until a reset |
| `CameraQueues.ResetStartsAfresh` | src/camera_queue.h:11-19 | after a reset of any queue the newest four frames pushed are there to be read, oldest first, and only the others count as dropped |
| `EstimatorFeeds.EstimatorFeed.PushSample` | src/openvins_runner/sensor_runner.cpp:293-298 | a full estimator queue ends the capture instead of losing a sample |
| `EstimatorFeeds.EstimatorFeed.EnqueueFrame` | src/openvins_runner/sensor_runner.cpp:345-356 | the dropping loop keeps the newest frames that leave room for this one |
| `EstimatorFeeds.EstimatorFeed.FeedSamples` | src/openvins_runner/sensor_runner.cpp:455-461 | takes and feeds the queued samples in order, moving the last IMU time |
| `EstimatorFeeds.EstimatorFeed.ChooseFrame` | src/openvins_runner/sensor_runner.cpp:462-478 | the ready test, the stall clock and the exits of the update loop |
| `EstimatorFeeds.FeedingIsSteps` | src/openvins_runner/sensor_runner.cpp:458-461 | feeding a batch is the steps of feeding one sample at a time, between which other threads may run |
| `EstimatorFeeds.StepKeepsSound` | src/openvins_runner/sensor_runner.cpp:438-496 | every step of the three threads keeps the account of frames and samples |
| `EstimatorFeeds.FramesAreConserved` | src/openvins_runner/sensor_runner.cpp:345-356 | received = processed + dropped + queued + in flight, with both queues within their limits, always |
| `EstimatorFeeds.OnlyTheOldestGiveWay` | src/openvins_runner/sensor_runner.cpp:349-355 | in every reachable state a new frame pushes out only the oldest, only as many as must go, and they are counted |
| `EstimatorFeeds.FramesAreFedInOrder` | src/openvins_runner/sensor_runner.cpp:477-478 | the estimator sees an in-order selection of the captured frames, each at most once |
| `EstimatorFeeds.SamplesAreFedInOrder` | src/openvins_runner/sensor_runner.cpp:455-461 | IMU rows are fed in order, none lost and none twice |
| `EstimatorFeeds.RowsArriveOrTheCaptureStops` | src/openvins_runner/sensor_runner.cpp:293-298 | over every run each row pushed has arrived, in order, unless the capture is stopped |
| `EstimatorFeeds.FlagsAreExact` | src/openvins_runner/sensor_runner.cpp:293-298 | the capture stops exactly when it is told to or the IMU queue overflows, and frames end exactly when the camera thread says so |
| `EstimatorFeeds.EveryFrameIsCovered` | src/openvins_runner/sensor_runner.cpp:446-451 | when a frame was fed, a sample fed before it was strictly later than its time plus the offset used; without any sample only a time below zero passes |
| `EstimatorFeeds.UncoveredFrame` | src/openvins_runner/sensor_runner.cpp:446-451 | the failing family: a frame captured before any IMU row is fed with none before it if and only if its time plus the offset lies below zero |
| `EstimatorFeeds.ChoiceIsExact` | src/openvins_runner/sensor_runner.cpp:446-478 | the update thread takes the oldest frame if and only if the last sample fed is later than its time plus the offset, and ends if and only if it is told to, or no more can come and none is left or the stall has lasted a second |
| `EstimatorFeeds.StoppedFeedsNoMore` | src/openvins_runner/sensor_runner.cpp:438-478 | after a stop the estimator gets no frame but the one it is being given and no rows but those already taken, whatever follows |
| `EstimatorFeeds.OffsetIsTheLatest` | src/openvins_runner/sensor_runner.cpp:438-510 | each frame is gated with the offset the estimator had come to with the frame before it |
| `EstimatorFeeds.FramesAreNotAbandoned` | src/openvins_runner/sensor_runner.cpp:464-476 | the update thread leaves frames behind only on a stop, or when no more can come and the stall lasted over a second |
| `CameraPaths.FramesPassBothQueuesInOrder` | src/openvins_runner/sensor_runner.cpp:404-433 | over every capture of the joined system, driver queue, camera thread and estimator feed, the estimator sees an in-order selection of the driver's frames, each at most once |
| `CameraPaths.EveryFrameIsSomewhere` | src/openvins_runner/sensor_runner.cpp:345-358 | and each frame the driver delivered is dropped or thrown away by one queue, waiting in one, on offer, being processed or processed |
| `EstimatorFeeds.EstimatorSeesTheBatchPairing` | src/openvins_runner/sensor_runner.cpp:275-300 | end to end, even in the middle of a round, the estimator has been fed a prefix of the batch pairing of the two raw streams |
| `Frames.MountIsProper` | src/frames.cpp:26-36 | both mounts are rotations at every tilt |
| `Frames.InvertedIsHalfTurned` | src/frames.cpp:26-36 | the inverted mount is the upright one turned by half about the optical axis |
| `Frames.HalfTurnIsRotation` | src/frames.h:10-11 | and that turn is the rotation of the unit quaternion about that axis |
| `Frames.RotationIsProper` | src/frames.cpp:61-64 | every unit quaternion gives an orthogonal matrix of determinant one |
| `Frames.RotationTurns` | src/frames.cpp:59-64 | and it turns every vector as the quaternion does by Hamilton's product |
| `Frames.MountLooksDown` | src/frames.cpp:26-36 | the optical axis points forward and down by the tilt, and the right of the image is the right of the body, or its left upside down |
| `Frames.AttitudeIsProper` | src/frames.cpp:59-64 | with a proper calibration the attitude is a rotation and keeps lengths, for every estimate and both mounts |
| `Frames.ProperIsAccepted` | src/frames.cpp:40-49 | a proper calibration is accepted |
| `Frames.AcceptedExactlyNearRotation` | src/frames.cpp:40-46 | a calibration is accepted if and only if it is within a millionth of a rotation, in its product with its transpose and in its determinant |
| `Frames.AttitudeKeepsTheDrift` | src/frames.cpp:40-64 | for every accepted calibration the attitude is exactly as far from orthogonal as the calibration, with the same determinant |
| `Frames.ScaleDoesNotMatter` | src/frames.cpp:54-61 | a quaternion and any nonzero multiple of it give the same pose |
| `Frames.RefusedExactlyWithoutOrientation` | src/frames.cpp:51-58 | the transform refuses exactly numbers that are not finite and quaternions too small to name an orientation |
| `Frames.AcceptableIsTransformed` | src/frames.cpp:51-58 | an estimate that passed the publication checks is never refused by the transform |
| `Frames.PoseTellsTheEstimate` | src/frames.cpp:51-74 | with a proper calibration the pose carries the position and velocity in north-east-down axes, and an attitude that takes every direction of the IMU, seen from the body, to where the estimate turns it |
| `Frames.StationaryAccelerationMatchesAttitude` | src/frames.cpp:76-81 | the predicted force at rest, taken through the attitude, is the support force (0, 0, -g) of the body, of magnitude g for a proper calibration |
| `Frames.NedSwapsAxes` | src/frames.cpp:10-19 | world to NED is (y, x, -z) and its own inverse |
| `Frames.StraightUpLosesItsHeading` | src/frames.cpp:65-69 | the failing family: a body pointing straight up has all but one of its headings lost |
| `Frames.AnglesNameTheAttitude` | src/frames.cpp:65-69 | roll, pitch and yaw rebuild the attitude in ZYX order, except straight up or down, where they do exactly when the middle entry is one |
| `CameraCaptures.CopyMonoFrame` | src/camera_capture.cpp:9-26 | fails exactly on a missing or short buffer, a short stride or a nonzero low byte; otherwise copies the image, with every access inside the buffer |
| `CameraCaptures.PaddingIsIgnored` | src/camera_capture.cpp:17-24 | buffers with the same rows give the same image whatever their strides and padding |
| `CameraCaptures.ImageIsUnique` | src/camera_capture.cpp:16-25 | a buffer holds at most one image |
| `CameraCaptures.RecordingRoundTrip` | src/openvins_runner/sensor_runner.cpp:419-424 | copying a frame in the recorder's layout gives its pixels back, for any pixels |
| `CameraCaptures.UnpaddedIsItsOwnImage` | src/camera_capture.cpp:9-26 | a buffer of one byte a pixel without padding is its own image |
| `CameraCaptures.DecodeFrame` | src/openvins_runner/sensor_runner.cpp:387-394 | the replay loops: the sampled check of low bytes, then the high bytes |
| `CameraCaptures.ReplayUndoesRecording` | src/openvins_runner/sensor_runner.cpp:387-394 | replay undoes recording on every frame |
| `CameraCaptures.AcceptedFrameIsARecording` | src/openvins_runner/sensor_runner.cpp:384-389 | an accepted first frame is exactly the recording of its image; a later one if and only if its unsampled low bytes are zero |
| `CameraCaptures.UnsampledByteGoesUnseen` | src/openvins_runner/sensor_runner.cpp:387-390 | the failing family: any unsampled low byte of any later frame can be changed unseen, and then the frame is no recording |
| `CameraCaptures.TimestampsIncrease` | src/camera_capture.cpp:28-36 | a run of frames is accepted if and only if each timestamp is positive, within two seconds behind and ten milliseconds ahead of the clock, and later than the one before |
| `CameraCaptures.AutoKeepsTheLight` | src/camera_capture.cpp:70-79 | auto exposure succeeds exactly for light in range, keeps shutter times gain exactly, with 1 <= shutter <= max and 1 <= gain <= 16, and takes the longest shutter that will do |
| `CameraCaptures.Choose` | src/camera_capture.cpp:101-110 | the choice is the first brightest usable probe, or else the first least clipped one |
| `CameraCaptures.BestIsUnique` | src/camera_capture.cpp:101-110 | that rule names one probe |
| `CameraCaptures.Sweep` | src/camera_capture.cpp:81-111 | the sweep succeeds exactly when a shutter is allowed and no probe throws, and returns the best allowed shutter at gain one |
| `Allans.Adev` | tools/calibration/allan.py:87-103 | the loop computes the overlapping Allan deviation of the series, with its tau, at every block length up to a tenth of it |
| `Allans.FastFormIsDefinition` | tools/calibration/allan.py:90-102 | second differences of the prefix sum give the variance of all overlapping adjacent block means, for every series, sample time and block length |
| `Allans.OffsetDoesNotMatter` | tools/calibration/allan.py:90-102 | adding a constant changes nothing |
| `Allans.ScaleIsSquared` | tools/calibration/allan.py:90-102 | scaling the series scales the variance by the square |
| `Allans.DeviationScales` | tools/calibration/allan.py:90-102 | so the deviation scales by the magnitude |
| `Allans.LongestRun` | tools/calibration/allan.py:119-126 | the scan finds the first of the longest runs |
| `Allans.FindWindow` | tools/calibration/allan.py:117-133 | the first tolerance with three points in a row and the first widest window at it, or none exactly when no tolerance will do |
| `Allans.LongestContiguousIsFirstLongest` | tools/calibration/allan.py:77-84 | the stretch is contiguous, each sample later than the last by no more than the limit, no contiguous stretch is longer, and none as long begins earlier |

## Left out

- Integer widths: times, generations and counts are unbounded; the wrapping reset byte, the packet sequence
  number, the confirmation byte and the unsigned subtractions of the recorder are modelled explicitly.
- Floating point: poses, filters, exposures and Allan sums are real numbers; whether the doubles of an
  estimate are finite and whether they fit a MAVLink float are inputs.
- `tan`, `cos`, `sin`, `atan2`, `asin` and square roots: the prewarped cutoff, the root of two, the mount's
  cosine and sine, the quaternion norm, the cosines and sines of the three angles and the root of the Allan
  variance are parameters tied to each other by their defining equations.
- MAVLink encoding, checksums and the byte parser: encoding is opaque and reception starts from parsed
  messages and a count of damaged ones. A delayed duplicate acknowledgment cannot be told from a fresh one,
  because COMMAND_ACK carries no transaction number; the model does not claim otherwise.
- POSIX, UART, libcamera, sysfs and OpenVINS: the stream, the sink, the clock, the camera and the estimator
  are parameters of each step.
- Liveness: nothing is said about when a thread runs, a wait ends or storage answers. Bounds hold at the
  calls that can notice the time.
- Locked sections are single steps of the recorder and of the estimator feed; condition variables are
  waits that may end at any time. Weak memory orderings of the atomics are not modelled.
- The rest of `run_flight` and `run_capture`: backoff, calibration comparison, probe cancellation and the
  decision to capture only with a disarmed controller; the link is proved safe for any order of these calls.
- `probe` and pixel statistics in `select_exposure`: a probe's clipped share and mean brightness, or that it
  throws, are given.
- File formats of the recorder's sink, its status report, metadata JSON and logging.
- Metadata parsing and the matching of frame and metadata in `meta_thread` and `frame_thread`.
- `update_thread`'s publication of snapshots, its statistics and its feature log.
- Plotting, bias statistics and the log-log fit of the Allan tool.
- Allans.Adev: the geometric list of block lengths it starts from is an input, positive as in the source.
- Simulation, ROS, rendering and capture scripts: input and output around libraries.
- FlightApplications.SessionsNeverShareAReservation: says nothing about two processes, which the file lock
  in src/session_store.cpp:15-27 excludes and which is not part of this model.
- SessionStores.SessionStore.ReserveReset: assumes storage that honours file sync, rename and directory
  sync; the temporary file's leftovers after a crash are not read by anyone.
- EstimatorFeeds.FramesAreNotAbandoned: the source never resets its stall clock, so the second counts from
  the first stall after the frames ended, as it does here, and not from the latest one.
- RecorderTheorems.StoppedProducersAreAllWritten: assumes producers idle at the close, as the joined worker
  threads are.
