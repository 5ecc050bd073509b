# The crossfade pipeline, verified

A Dafny model of the native audio library of Spotify TV Crossfade: the ring pipeline that sits between the
client's buffer queue and the real player, the boundary model that decides between cuts and fades, and the
storage, mixer and debug dump they use.

- `Audio.dfy`: samples, frames, ramp positions and what one mixed sample is.
- `Ring.dfy`, `Mixer.dfy`: the wrap-around ring and the equal-power mixer, loop for loop.
- `Boundary.dfy`: the boundary model as a class, the decision functions it computes, and theorems over traces.
- `Renderer.dfy`: the read head and the scheduled fade as a renderer of one output frame at a time, with the
  re-anchor and the application of decisions. `RendererProofs.dfy`, `FadeAlone.dfy` and `FadeRuns.dfy` prove what
  it plays, `RefitProofs.dfy` how the outgoing gain continues over a re-anchor.
- `Pipeline.dfy`: the whole pipeline as a state machine with one step per critical section of the program's
  mutex. `PipelineProofs.dfy` proves the invariant of every step. What holds over every run is in `Playback.dfy`
  (which frames are played), `QueueRuns.dfy` (which buffers are handed back, and when), `ArmRuns.dfy` (how the
  padding filter's arms go) and `Theorems.dfy`.
  `Witnesses.dfy` has the runs that meet the limits of the design.
- `Sound.dfy`: what the output sounds like, sample by sample in each phase, and over runs without a boundary.
- `Chunks.dfy`, `RingPipeline.dfy`: the pipeline as a class that mutates its state and fills its output buffer
  in chunks, each method proved equal to the matching step of the state machine. `Output.dfy` adds the four
  output buffers, and `Dump.dfy` the debug dump.

`dafny verify dfyconfig.toml` checks the whole project.

## Main results

- The chunked output loop plays, sample for sample, what playing one frame at a time would. A run without a
  boundary lets the accepted stream through, without its padding and otherwise sample for sample; a fade whose
  audio is there is the ideal crossfade.
- A natural transition has its boundary at the frame where the current track's duration runs out, whatever padding
  was dropped, when the announcement is near it; a fade that has not started when the incoming track's audio
  arrives moves there exactly if 200 ms of outgoing audio are left.
- Over every run a frame is played twice exactly when output is asked for while the read head stands inside
  the incoming frames that a fade has already mixed in. Only an overflow of the ring can put it there
  (`OverflowCanRepeat` is a run in which one does), and a client with at most 5 s of unacknowledged audio never
  overflows the ring.
- Every frame behind the read head of a run was played, or was given up by a cut, a re-scheduled fade, a
  re-anchor or an overflow of that run; never both, unless output repeats itself as above.
- A fade left alone plays every incoming frame once, in order, at the position of its own ramp, under any
  delivery stalls. It completes, within the output frames its two sides need, if and only if its incoming side
  has been delivered whole. One scheduled while an earlier fade is in progress is dropped unplayed exactly when
  the read head, moved past what that fade mixed in, is past its boundary.
- Whatever fade is in progress, from the metadata or the timeout after a flush on, nothing delivered before
  that flush is played.
- Once output had to be silent, no written buffer waits for the lead target any more: one turn of the
  acknowledgement thread per queued buffer empties the queue, provided that the turn for a piece of dropped padding
  comes while playing and not before its probe is due. Buffers are handed back at most once and in order, and the
  dropped ones of every arm no faster than one per probe interval.
- Acknowledgement turns go on until the queue is empty or its head may not pass: a probe that is not due, or audio
  ending beyond the read head plus the lead target.
- An arm of the padding filter stays open exactly as long as it has dropped less than 12 s and the unplayed audio
  since its boundary is short of the lead target and of 45 s. It ends within 57 s of accepted frames and moves the
  fade at most once.

## Where the code and its comments differ

- `ring_pipeline.cpp:535-536` says a completed fade can end below b + n. It cannot: completion requires that n
  incoming frames have been consumed (line 534).
- `ring_pipeline.cpp:178-185` says that a re-fitted ramp continues within one sample step and that the cap only
  bites at a gain of about zero. With m steps left of an nA-step ramp (one, when it has finished), r frames left
  and a longest possible ramp of L, the outgoing gain steps up exactly when nA (2r - 1) > L (2m - 1). A running
  ramp never steps down by more than one step; a finished one takes the longest ramp and does exactly when
  L > nA (2r + 1) (`RefitRaisesTheGainExactlyWhenCapped`). `ReanchorCanStepTheGain` has a run for either step.
- `ring_pipeline.cpp:162` says that a re-anchored fade is dumped once more. It is not if its outgoing ramp starts
  before the read head (`OneDumpPerFade`), since line 491 asks for the dump at the ramp's first step only.

## Model

| member | source | states |
|---|---|---|
| Ring.Ring.Write | native/src/ring.h:35-44 | whatever the length and wherever it wraps, the last `capacity` positions up to the end of the write hold the source rows, and older positions of that window keep theirs |
| Ring.Ring.Read | native/src/ring.h:46-55 | the requested rows are the stored rows of those absolute positions, and no other row of the destination changes |
| Ring.Ring.Append | native/src/ring.h:35-44 | appending at the end of the log keeps the storage in agreement with the unbounded log over the last `capacity` frames |
| Ring.Ring.Fetch | native/src/ring.h:46-55 | any range inside the last `capacity` frames reads back exactly as the unbounded log has it |
| Ring.SlotsDiffer | native/src/ring.h:37 | two frames less than a capacity apart never share a row |
| Mixer.MixEqualPowerSplit | native/src/mixer.cpp:6-29 | each output sample is the clamped, rounded mix of its two inputs at their own held positions and lengths; a missing side is silence; other rows are untouched |
| Mixer.MixOne | native/src/mixer.cpp:22-26 | the sample nearest to the weighted sum of both sides, a half rounded away from zero, or the nearer end of the 16-bit range |
| Audio.RoundsToNearest | native/src/mixer.cpp:23-26 | rounding and clamping give the nearest sample, a half away from zero, and the nearer end outside the range |
| Boundary.Decide | native/src/boundary.cpp:23-36 | a fade exactly when a crossfade is set, neither side forbids it and the tail is long enough; its length is the tail or the crossfade, whichever is shorter, so it starts no earlier than the read head |
| Boundary.MetadataStep | native/src/boundary.cpp:38-90 | metadata resolves any pending flush as a cut at its frame and never schedules a fade longer than the crossfade or than its boundary |
| Boundary.BoundaryModel.OnFlush | native/src/boundary.cpp:12-17 | the latest flush wins and forgets a timeout cut |
| Boundary.BoundaryModel.OnMetadata | native/src/boundary.cpp:38-90 | the flag-by-flag update computes the decision function and its new state |
| Boundary.BoundaryModel.Predict | native/src/boundary.cpp:74-79 | the frame where the duration runs out if it is within 2500 ms of the announcement, else the announcement; and the difference in milliseconds, truncated towards zero |
| Boundary.BoundaryModel.Tick | native/src/boundary.cpp:92-104 | an expired flush becomes one cut, remembered for its late announcement |
| BoundaryTraces.BurstYieldsOneCut | native/src/boundary.cpp:12-17 | a burst of flushes yields exactly one boundary, a cut at the latest of them, from metadata or from the clock, in any interleaving and however long the clock runs on |
| BoundaryTraces.LateAnnouncementIsNotABoundary | native/src/boundary.cpp:62-70 | the first new track within the window after a timeout cut yields no second boundary and is anchored at the frame of the cut |
| BoundaryTraces.FadeExactlyOnNaturalTransitions | native/src/boundary.cpp:71-84 | exactly when metadata schedules a fade, that it ends within the sanity window, and that it starts at or after the read head with the length the tail or the crossfade gives |
| BoundaryTraces.NaturalTransitionsDecide | native/src/boundary.cpp:19-36 | a new track's boundary is where the current one's duration runs out if that is known and near, else the announcement; it is a fade exactly if a crossfade is set, both are music and 200 ms are left, of the crossfade length or what is left |
| BoundaryTraces.OtherMetadataDecides | native/src/boundary.cpp:41-70 | any other metadata cuts at a pending flush or decides nothing |
| BoundaryTraces.MetadataAnchors | native/src/boundary.cpp:85-90 | the new anchor is the boundary, the timeout cut it belongs to, or the announcement |
| BoundaryTraces.DeltasAreTruncated | native/src/boundary.cpp:76-77 | the reported difference is the prediction's distance in milliseconds, truncated towards zero, and only changes when there is a prediction |
| BoundaryTraces.TheClockCuts | native/src/boundary.cpp:92-104 | the clock cuts exactly when a flush has been pending for more than 500 ms, and remembers it |
| RendererProofs.StepIsFair | native/src/ring_pipeline.cpp:481-556 | one output frame keeps the invariant, uses up exactly the frames it plays and none used up before, and never withdraws the acknowledgement frontier |
| RendererProofs.StretchPlaysWhatItUsesUp | native/src/ring_pipeline.cpp:474-563 | a stretch of any length plays each frame it uses up exactly once and nothing used up before |
| RendererProofs.StretchSkipsNothing | native/src/ring_pipeline.cpp:474-563 | every frame the read head moves over in a stretch of output is played or was mixed in as incoming before, even after an overflow left it inside those |
| RendererProofs.DeliveryKeepsInv | native/src/ring_pipeline.cpp:246-255 | delivering keeps the invariant even when room is made, and making room leaves the read head clean exactly when it does not land inside the incoming frames already mixed in |
| RendererProofs.ApplyKeepsInv | native/src/ring_pipeline.cpp:441-471 | a cut or a fade keeps the invariant, never moves the read head back and makes nothing playable that was played; a cut leaves no fade and reaches its frame |
| RendererProofs.ReanchorKeepsInv | native/src/ring_pipeline.cpp:140-196 | the same for a re-anchor in all its branches |
| RendererProofs.BoundariesTakeEffect | native/src/ring_pipeline.cpp:441-471 | where playing goes on after a cut, and all a scheduled fade starts out with |
| RendererProofs.UnstartedFadesMoveOrDrop | native/src/ring_pipeline.cpp:164-177 | a re-anchor keeps a fade that has not started if and only if 200 ms are left before the new audio; it then ends there, keeps its incoming length and fades the outgoing over the crossfade length or what is left |
| RendererProofs.StartedFadesMove | native/src/ring_pipeline.cpp:147-192 | a started fade is never dropped, and where it moves |
| RendererProofs.RoomIsMadeExactly | native/src/ring_pipeline.cpp:246-255 | room is made exactly when the delivery does not fit, and no more than it needs |
| RendererProofs.WhatBoundariesSkip | native/src/ring_pipeline.cpp:147-161 | exactly which unplayed frames a fade, a cut and a re-anchor give up, wherever the read head is |
| RendererProofs.FrontierNeverMovesBack | native/src/ring_pipeline.cpp:400 | playing never moves the acknowledgement frontier back while the read head has not passed the boundary, including at completion |
| RendererProofs.RunningDryOpensTheGate | native/src/ring_pipeline.cpp:524-527 | once silence had to be played, in any phase, everything delivered is behind the parked read head and within the acknowledgement frontier |
| RefitProofs.RefitRaisesTheGainExactlyWhenCapped | native/src/ring_pipeline.cpp:178-192 | for a running and for a finished ramp, exactly when the re-fitted one continues louder than the last step played, in whole numbers a caller can check; a running ramp steps down by at most one step, and exactly when a finished one steps down by more |
| Witnesses.ReanchorCanStepTheGain | native/src/ring_pipeline.cpp:140-192 | runs from the start of a player whose re-anchor in the incoming-only phase raises the outgoing gain, or drops it by more than a step |
| RefitProofs.ReanchorContinuesTheOutgoingRamp | native/src/ring_pipeline.cpp:140-192 | after a re-anchor of a started fade, in any phase, the ramp ends exactly at the new boundary and compares with the last step played under the same exact conditions |
| FadeAlone.LateAudioIsNeverSkipped | native/src/ring_pipeline.cpp:482-545 | under any deliveries, incoming frame b + j is played once, in order, at step min(j, n - 1), and outgoing frame f at step f - start; equal ramps land the read head on b + n and re-fitted ones never below it |
| FadeAlone.DeliveredFadesComplete | native/src/ring_pipeline.cpp:520-543 | wherever a fade stands, as many output frames as its two sides still need complete it if and only if its incoming side is delivered whole; until then none do |
| FadeAlone.OneDumpPerFade | native/src/ring_pipeline.cpp:488-491 | a fade asks for exactly one dump, as soon as output is asked for at its start however that stalls, and for none if the read head is already past its start |
| FadeAlone.ScheduledFadesAreUntouched | native/src/ring_pipeline.cpp:441-464 | a scheduled fade starts out with nothing played exactly when its boundary is still ahead once the read head has moved past what an earlier fade mixed in, in step exactly when its start is, and is otherwise dropped |
| FadeAlone.ReanchoredFadesAreUntouched | native/src/ring_pipeline.cpp:158-192 | so does every re-anchored one, with the ramp it was re-fitted to |
| FadeRuns.FadesLeftAloneStayOnTheirRamps | native/src/ring_pipeline.cpp:474-563 | the same inside a running pipeline: as long as no boundary, re-anchor or overflow touches the fade, the output since it was scheduled has a prefix, all of it until completion, that is on both ramps |
| Sound.PlainOutputIsTheLog | native/src/ring_pipeline.cpp:547-561 | before a fade, and without one, the output is the log from the read head on, sample for sample, and silent exactly past its end |
| Sound.OverlapIsTheMix | native/src/ring_pipeline.cpp:492-519 | during the overlap each sample is nearest to the outgoing one at its step of the falling ramp plus, exactly when delivered, the next incoming one at its step of the rising ramp |
| Sound.LateIncomingIsHeardAlone | native/src/ring_pipeline.cpp:520-532 | after it, to the incoming one alone at its step |
| Sound.DeliveredFadesAreCrossfades | native/src/ring_pipeline.cpp:474-543 | a fade whose audio is there mixes outgoing frame start + j with incoming frame at + j, both at step j, and goes on at at + n |
| Sound.PlainPlaybackIsTheAcceptedStream | native/src/ring_pipeline.cpp:205-563 | over any run without a boundary and an overflow, what is heard between silences is the accepted stream without its padding |
| Chunks.OutgoingChunk | native/src/ring_pipeline.cpp:492-519 | an outgoing chunk is that many single frames of the overlap, with the incoming running out at the right one |
| Chunks.IncomingChunk | native/src/ring_pipeline.cpp:520-532 | an incoming-only chunk is that many single frames of the incoming ramp |
| Chunks.PlainChunk | native/src/ring_pipeline.cpp:547-556 | a plain chunk is that many single frames of the log |
| PipelineProofs.NextKeepsGood | native/src/ring_pipeline.cpp:205-471 | every critical section keeps the global invariant: window, fade, arm, queue conservation and order, lead bound, lengths; none moves the read head back |
| PipelineProofs.RunKeepsGood | native/src/ring_pipeline.cpp:205-563 | the invariant holds over every run |
| PipelineProofs.CrossfadeBound | native/src/ring_pipeline.cpp:53-60 | a crossfade is at most 12 s of frames and its lead target at most 13 s |
| Playback.FramesRepeatExactlyFromAnUncleanHead | native/src/ring_pipeline.cpp:441-563 | in every interleaving of events a frame is in the output twice exactly when output is asked for while the read head is inside the incoming frames already mixed in |
| Playback.OrderlyRunsAreClean | native/src/ring_pipeline.cpp:246-253 | without an overflow the read head is never there |
| Witnesses.OverflowCanRepeat | native/src/ring_pipeline.cpp:248-253 | a run from the start of a player, with its real ring size, in which an overflow makes a frame of the output come again |
| Playback.EventsSkipExactly | native/src/ring_pipeline.cpp:140-471 | which frames any event but output gives up unplayed, exactly, by re-anchor, overflow, re-scheduled fade or cut |
| Playback.EveryFrameIsPlayedOrGivenUp | native/src/ring_pipeline.cpp:205-563 | over every run from the start, each frame behind the read head is in the output or was given up by one of those events, and not both unless output repeats itself |
| Theorems.DisciplinedRunsAreOrderly | native/src/ring_pipeline.cpp:248-253 | acknowledged audio never ends more than 25 s ahead of the read head, so a client within 5 s of its acknowledgements never overflows the ring |
| Theorems.DisciplinedClientsHearEachFrameOnce | native/src/ring_pipeline.cpp:62-120 | from the start of the player on, such a client never hears a frame twice |
| Theorems.ManualChangesAreInstant | native/src/ring_pipeline.cpp:281-288 | after a flush, any events, and then metadata or the timeout, everything played was delivered after that flush, and no fade is scheduled |
| Theorems.RunningDryNeverDeadlocks | native/src/ring_pipeline.cpp:400-410 | after output that had to be silent every written buffer in the queue is within the lead gate |
| Theorems.StarvedQueuesDrain | native/src/ring_pipeline.cpp:400-428 | after such output one acknowledgement turn per queued buffer empties the queue, each turn for a dropped one coming while playing and not before its probe, even if a flush times out meanwhile |
| Theorems.TurnsHandBackWhatIsDue | native/src/ring_pipeline.cpp:400-420 | exactly when a turn hands back the oldest buffer: a probe due while playing, or audio ending within the lead target, and the fade length, of the read head |
| Theorems.TurnsGoOnUntilTheGate | native/src/ring_pipeline.cpp:412-428 | as many turns as there are buffers hand back a front part of the queue and leave it empty or with a head that has to wait |
| Theorems.FlushesTakeEffect | native/src/ring_pipeline.cpp:281-288 | a flush discards the whole queue, is noted at the end of the log, opens an arm and changes nothing else |
| Theorems.DecisionsTakeEffect | native/src/ring_pipeline.cpp:358-378 | metadata and the clock act on the renderer by exactly the boundary model's decision |
| Theorems.CrossfadeSetsTheTargets | native/src/ring_pipeline.cpp:53-60 | the length limited to 12 s, its frames, a lead target of a second more or of half a second without a crossfade, and nothing else |
| Theorems.StartSetsTheTargets | native/src/ring_pipeline.cpp:66-102 | a started player has the same targets, is armed and empty |
| Theorems.UnderrunsAreCounted | native/src/ring_pipeline.cpp:559-561 | an output buffer counts as an underrun exactly if some frame is silent or lacks its incoming side while playing |
| Theorems.RepeatedMetadataKeepsTheArm | native/src/ring_pipeline.cpp:373-377 | metadata opens an arm exactly if its playback id differs from the last one's, whatever happened in between |
| QueueRuns.ArmsOpen | native/src/ring_pipeline.cpp:125-133 | the start of the player, a flush and a new playback id each open an arm of their own with nothing dropped or queued, and nothing else does |
| QueueRuns.PaddingIsReleasedAtProbePace | native/src/ring_pipeline.cpp:205-230 | the i-th buffer dropped by any arm, whichever way it was opened and whatever arms follow, is handed back no earlier than i probe intervals after it was opened, and only while playing |
| QueueRuns.ProbesComeInTime | native/src/ring_pipeline.cpp:220-224 | with a clock that does not run backwards, the i-th buffer an arm drops is due no later than i probe intervals after it came in |
| QueueRuns.EveryBufferIsHandedBackOnceInOrder | native/src/ring_pipeline.cpp:412-428 | at any moment of any run of a player the accepted buffers were handed back in the order they were accepted, at most once, and each is exactly one of handed back, discarded by a flush, and queued; what was handed back stays so |
| Theorems.TheLogIsTheFilteredStream | native/src/ring_pipeline.cpp:212-255 | over every run the log is the accepted stream without exactly the silent buffers received while armed, and those are counted |
| Theorems.ArmsOutliveTheOldTail | native/src/ring_pipeline.cpp:257-275 | an open arm stays open if and only if the unplayed audio since its boundary is short of the lead target and all audio since then short of 45 s |
| ArmRuns.ArmsEnd | native/src/ring_pipeline.cpp:211-275 | an arm opened by a flush or a new track is closed once 57 s of frames have been accepted, in any mix of audio and padding |
| ArmRuns.TheFirstArmEnds | native/src/ring_pipeline.cpp:99-101 | so is the one the start of the player opens |
| ArmRuns.ArmsStayOpenExactlyWhileShort | native/src/ring_pipeline.cpp:211-275 | over any run an arm is still open at the end if and only if every silent delivery left it within 12 s of drops and every other left its unplayed lead and its 45 s unmet |
| ArmRuns.DeliveriesAreWrittenOrDropped | native/src/ring_pipeline.cpp:205-256 | which deliveries are refused, dropped or written, and how each is queued |
| ArmRuns.ChancesAreTakenExactly | native/src/ring_pipeline.cpp:230-255 | exactly which delivery re-anchors the fade, and when room is made and counted |
| ArmRuns.OneChancePerArm | native/src/ring_pipeline.cpp:230-245 | over any run an arm has at most one chance to move the fade, and only after it has dropped something |
| ArmRuns.OnlyChancesReanchor | native/src/ring_pipeline.cpp:230-245 | a scheduled fade changes its place only by such a chance or by metadata |
| Theorems.OutputInPieces | native/src/ring_pipeline.cpp:474-563 | output of m frames and then n is output of m + n, but for the underrun count |
| Theorems.PaddingDoesNotBiasThePrediction | native/src/ring_pipeline.cpp:361-371 | a boundary is predicted exactly if the corrected position lies within the track, and is within rate/1000 + 1 frames of the true one, whatever was dropped |
| Theorems.TheNextTrackGetsTheTrueEnd | native/src/ring_pipeline.cpp:361-371 | after such a report the boundary of the next track is that frame if the announcement comes within 2500 ms of it, whatever is delivered and played in between |
| RingPipelineClass.RingPipeline.constructor | native/src/ring_pipeline.cpp:66-102 | a started pipeline is armed, has its targets and satisfies the invariant |
| RingPipelineClass.RingPipeline.RecomputeTargets | native/src/ring_pipeline.cpp:53-60 | the crossfade in frames, the lead target, and the model told |
| RingPipelineClass.RingPipeline.SetCrossfadeMs | native/src/ring_pipeline.cpp:339-354 | the clamped length is stored, and takes effect at once if the pipeline is started |
| RingPipelineClass.RingPipeline.Clear | native/src/ring_pipeline.cpp:281-288 | drops the queue without acknowledgement, notes the flush, re-arms, and leaves audio and fade alone |
| RingPipelineClass.RingPipeline.ApplyDecision | native/src/ring_pipeline.cpp:441-471 | computes the renderer's new state for a cut or a fade |
| RingPipelineClass.RingPipeline.ReanchorFade | native/src/ring_pipeline.cpp:140-196 | computes the re-anchored renderer, statement by statement |
| RingPipelineClass.RingPipeline.CorrectPosition | native/src/ring_pipeline.cpp:363-370 | only the position changes: it loses the padding dropped or all of itself, whichever is less, so it stays between zero and what was reported; a negative one is left alone |
| RingPipelineClass.RingPipeline.OnMetadata | native/src/ring_pipeline.cpp:358-378 | the metadata step, with the position corrected and a new track arming; nothing when stopped |
| RingPipelineClass.RingPipeline.AckTurn | native/src/ring_pipeline.cpp:412-428 | one turn of the acknowledgement thread: clock, then the gate |
| RingPipelineClass.RingPipeline.AllZero | native/src/ring_pipeline.cpp:198-203 | true exactly when every sample is zero |
| RingPipelineClass.RingPipeline.EndArm | native/src/ring_pipeline.cpp:257-275 | when the arm ends |
| RingPipelineClass.RingPipeline.Enqueue | native/src/ring_pipeline.cpp:205-279 | the three result codes, and the enqueue step on success with the ring still in agreement with the log |
| RingPipelineClass.RingPipeline.MixOutgoing | native/src/ring_pipeline.cpp:494-519 | renders the next frames of the overlap, and tells whether the incoming ran short |
| RingPipelineClass.RingPipeline.MixIncoming | native/src/ring_pipeline.cpp:524-532 | renders what has been delivered of the rest of the incoming ramp |
| RingPipelineClass.RingPipeline.RenderInto | native/src/ring_pipeline.cpp:478-557 | the output loop terminates with the buffer full or nothing more to play, having rendered a prefix of the frame-by-frame stretch |
| RingPipelineClass.RingPipeline.Fill | native/src/ring_pipeline.cpp:474-563 | state, underrun count and every sample are those of playing frame by frame, with the rest silent; up to a fade's start the buffer is the log itself |
| Output.Start | native/src/ring_pipeline.cpp:62-120 | a player starts exactly when format, ring size, allocation, back end, all four priming buffers and the acknowledgement thread are accepted |
| Output.RotationTurns | native/src/ring_pipeline.cpp:571-572 | refilling the oldest finished buffer and queueing it turns the rotation by one |
| Output.Player.OnBackendDone | native/src/ring_pipeline.cpp:565-577 | refills exactly the buffer whose completion it reports, which the back end no longer holds, and nothing when stopped |
| Dump.PcmDumper.constructor | native/src/dump.cpp:20-35 | a dumper without rate or channels is never enabled |
| Dump.PcmDumper.Remembered | native/src/dump.cpp:42-44 | the history ring gives back exactly the last frames of the stream, oldest first |
| Dump.PcmDumper.WriteTail | native/src/dump.cpp:61-66 | the open file grows to where it must end and closes exactly there |
| Dump.PcmDumper.Push | native/src/dump.cpp:49-67 | the loops over the history ring and the open file compute the files that the pushed stream itself determines |
| Dump.EveryTriggerGetsItsFile | native/src/dump.cpp:37-67 | over whole sequences of triggers and pushes in any chunking, a trigger's file is the stream from its history to the end of its tail, to a newer trigger or to the end, and never changes after that |

## Left out

- Flat interleaving: a buffer of frames is a two-dimensional array, so the index `i * channels + c` and pointer arithmetic do not appear.
- Fields of the pipeline class: its forty scalars are grouped into four record-valued fields (renderer, arm, queue, controls) that the methods update in place; the private phases of the output loop are methods of their own.
- Gains: the cosine and sine are two uninterpreted curves over position and length, and products, sums and rounding are over exact reals; floating-point rounding and the equal-power identity do not appear. The re-fit of a ramp is over exact reals too.
- Widths: counters and lengths are unbounded, so the 32-bit casts and any wrap-around are not modelled.
- Threads: each section under the pipeline's mutex is one step and callbacks are later steps; thread start, join, detach, the registry lock and condition waits do not appear.
- Time before the start: a pipeline exists from its successful start on, so a flush, a play state or a crossfade length given earlier is not modelled.
- Output.Start: whether allocation, the back end, each priming buffer and the thread succeed are parameters, since they are answers of the system; so are the file openings of the dump.
- The dump request is counted by the renderer but not wired to the dumper, whose trigger is an operation of its own.
- Logging, status and statistics lines, system properties, the volume and play interfaces of the back end, and the passthrough pipeline for other formats.
- The OpenSL front end, JNI, the Java extension and the Kotlin patches.
