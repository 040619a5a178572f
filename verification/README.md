# SelectSpeak: the speech-audio path, verified

SelectSpeak reads selected text aloud. This project models the path a text takes: it is cut into
chunks, chunks are synthesised and given word boundaries, the audio is admitted in slices into a
bounded playback engine, and the words that were heard come back as offsets that the player
highlights. The model is written in Dafny and every statement below is proved for all inputs, all
runs or all reachable states.

`dafny verify dfyconfig.toml` checks everything.

## How the model is built

- `RequestModel` holds one playback request as a state machine: every section the engine runs under
  the request's mutex is one step, `Submit` is two steps (before and after its capacity wait), and a
  run is any sequence of steps of the producer, the controls, the device and the dispatcher.
  `RequestEngine.AudioRequest` is the imperative form; each of its methods is proved equal to its
  step, and `Valid` says that the object is where some run leads, so what holds of every run holds
  of it. `RequestInvariant`, `RequestSteps`, `RequestRuns`, `RequestUnderruns` and
  `RequestAccepted` prove what holds of every run, `RequestControls` what each call achieves and
  answers, `RequestReading` what becomes of submissions made one after the other. The device is an adversary: whether it takes a buffer, starts, pauses,
  reports a position or a fault is an argument of the step.
- The model keeps a log that the engine does not keep: accepted bytes and boundaries, buffers handed
  to the voice, words told, frames reclaimed, events delivered. In the object it is ghost state.
- `RequestRegistry` is the engine's table of requests, `RegistryHandles` what a handle is good for;
  `Admission` the two slicing loops; `PcmSession` the filter between native callback and application;
  `Playback` the controller, and `PlaybackReports` what it tells the application.
- `Punctuation`, `Chunker`, `Predictor` and `Pipeline` are the adaptive chunking; `Words`,
  `EdgeSilence`, `Utf16` and `Supertonic` make the word boundaries, and `SupertonicSlices` takes them
  through admission. `SpokenReading` puts the whole path together. `Reals` holds the arithmetic of
  real numbers they share.
- `LineReader`, `OcrWindow` and `HighlightMap` prove three fast forms against plain ones.

Classes follow the source's objects. A method's postcondition ties its new state to a function of
the old one, or states the property outright; the lemmas are about those functions.

## Assumptions

These are the assumptions the code relies on; the steps of the model have them built in.

- One producer calls `Submit` and `FinishInput` for a request, in sequence. A second submitter could
  overwrite the pending buffer, and a concurrent finish would leave no end-of-stream buffer.
- `Initialize` is one step: the dispatcher thread starts a few lines before STARTED is queued.
- A rejected device buffer and the `Fail` that follows are one step; in between, frames that were
  partly queued are not yet counted.
- A condition that a thread waits for is eventually noticed once it is true. OnBufferEnd, OnStreamEnd
  and OnVoiceError notify without the mutex (audio_engine.cpp:336-362), so a notification alone can
  fall between a test and the wait behind it; the model proves which conditions are true, not that
  a thread is woken.
- Engine calls are not made from event callbacks, and one caller destroys a request.
- A `Submit` of no frames drops its boundaries, as the code does.
- Callbacks do not re-enter the controller. The worker asks for the next request only after the last
  one was settled (`Playback.UnsettledAfterFail` shows what happens otherwise).
- Whitespace, letters and the power in the word weights are Python's and .NET's library functions.
  Whitespace is written out; word characters, letters and the power may be any functions.
- Seconds, samples and predictor coefficients are real numbers. RMS above a threshold is written as
  the mean square above the squared threshold.

## What the proofs found

- A slice that fits hard capacity can still stick. The comments name hard capacity as the limit of a
  slice that never waits forever; the exact limit is one more than hard capacity less the prebuffer,
  because audio just short of the prebuffer never starts (`RequestRuns.HeldBackMeansPlaying`,
  `RequestRuns.LargerSliceSticks`). Slices of at most high water, which the policy cuts, are safe.
- A fault that the device reports before a request is stopped, and that no pass has seen by then, is
  never taken. The condition the dispatcher waits for stays true, so that it does not rest until the
  request is destroyed (`RequestControls.PassRests`, `RequestControls.StaleFaultKeepsAwake`).
- Line framing depends on how the pipe was read. A line ending in a carriage return is framed
  differently exactly when it is one character over the limit. Any other line, unless it is far too
  long, is framed differently exactly when it holds a carriage return so close to its end that one
  read, of at most the buffer's capacity, can hold all that follows it
  (`LineReader.SteadyIsExact`, and `LineReader.SteadyStreamsAreExact` for whole streams).
- A later chunk whose target reaches the end of a line that does not fit the hard limit ignores
  punctuation and can split a word (`Chunker.TargetBeyondLimit`); that is the only way
  (`Chunker.WellPlacedExactly`). The pipeline never asks for such targets.
- A highlighted word that spans a line break is painted too long unless nothing is shown behind it
  (`HighlightMap.PaintsExactlyTheWord`, `HighlightMap.BreakIsPaintedOver`).
- The Natural Voice loop never checks the order of its boundaries, but unordered ones always make
  the engine refuse some slice (`Admission.SliceNatural`).

## Model

| member | source | states |
|---|---|---|
| RequestRuns.DeliveredOneSession | src/native/audio/audio_engine.cpp:273-334 | In every run the delivered events begin one session: STARTED, words and underruns, one TERMINAL last; when Destroy has returned they are all of it |
| RequestRuns.DeliveredWords | src/native/audio/audio_engine.cpp:588-634 | Delivered words are always a front part of the accepted words, in order and once; a completed and destroyed request has delivered all |
| RequestRuns.WordsFollowTheEar | src/native/audio/audio_engine.cpp:560-612 | While audio plays, a waiting word is told exactly when its absolute frame and the output latency together are no more than the samples played; until the latency has passed only words at frame 0 are |
| RequestRuns.ByteExactStream | src/native/audio/audio_engine.cpp:404-455 | On a live request the PCM handed over plus the pending buffer is the accepted PCM; end of stream is marked once, on the last buffer, after the input finished |
| RequestRuns.CompletedMeansPlayed | src/native/audio/audio_engine.cpp:614-634 | COMPLETED means every accepted byte was handed over, every frame reclaimed and every word told |
| RequestRuns.FramesConserved | src/native/audio/audio_engine.cpp:546-558 | Buffered frames are the queued and pending ones, accepted frames are buffered plus reclaimed, hard capacity is never exceeded and reclaiming never goes below zero |
| RequestRuns.HeldBackMeansPlaying | src/native/audio/audio_engine.cpp:149-173 | A producer held back on a healthy unpaused request faces a voice that owns every buffered frame, and that plays for every slice up to the safe size; high water is within it |
| RequestRuns.LargerSliceSticks | src/python/selectspeak/speech/admission.py:63-73 | Every slice above the safe size can be held back for good: in every continuation without Stop, Destroy, a fault or a buffer end the offer stays, its wait condition stays false and the voice never starts |
| RequestRuns.LowWaterAdmits | src/native/audio/audio_engine.cpp:158-173 | Draining to low water admits a waiting slice exactly when the slice is at most high water; in every reachable state at low water such a slice is admitted |
| RequestRuns.PlayingOutAdmits | src/native/audio/audio_engine.cpp:546-558 | From every reachable state with a waiting slice: once the device has ended its buffers and the dispatcher has delivered its batch and passed once, the slice is admitted |
| RequestRuns.RunContinues | src/native/audio/audio_engine.cpp:523-544 | An ending is never taken back or changed, nothing is told after it, and all records only grow |
| RequestRuns.PlayedOutCompletes | src/native/audio/audio_engine.cpp:636-669 | When everything has played, the condition the idle dispatcher waits for is true, and its next pass ends the request: COMPLETED, or FAILED if the device reported a fault |
| RequestRuns.DrainFinishes | src/native/audio/audio_engine.cpp:636-706 | After a request has ended, the dispatcher alone delivers all events and exits, so Destroy can return |
| RequestUnderruns.UnderrunsTakeTurns | src/native/audio/audio_engine.cpp:603-611 | In every run the delivered underruns come in turns, running dry first with 0 frames; an observation tells one, with the frames buffered then, if it changed the flag and none otherwise, and the flag of a playing voice then says whether it has run dry |
| RequestControls.PausePauses | src/native/audio/audio_engine.cpp:229-248 | In every reachable state a Pause returns Ok exactly for a live request whose voice obeys, and then the voice is paused; in every continuation without Resume it stays paused, is not started if it was not, and never tells of running dry |
| RequestControls.ResumeResumes | src/native/audio/audio_engine.cpp:250-271 | A Resume that returns Ok clears the pause, and a voice that was paused then runs exactly if it had run, the input is finished or 300 ms were handed over |
| RequestControls.StopEnds | src/native/audio/audio_engine.cpp:273-299 | Stop ends a live request with the reason given, drops what waits and is final; other reasons are refused and an ended request is left alone |
| RequestControls.DestroyEnds | src/native/audio/audio_engine.cpp:301-318 | Destroy ends a live request as CLOSED and keeps the ending of any other |
| RequestControls.DestroyReturns | src/native/audio/audio_engine.cpp:319-334 | When Destroy returns, everything queued was delivered with TERMINAL last, nothing is kept, and destroying again changes nothing |
| RequestControls.FaultEnds | src/native/audio/audio_engine.cpp:560-577 | A fault the device reports ends a live request in the next pass as FAILED with that error |
| RequestControls.SilenceEnds | src/native/audio/audio_engine.cpp:582-587 | A playing voice that does not give its position ends a live request with a device error one observation later |
| RequestControls.CompletesWhenDone | src/native/audio/audio_engine.cpp:614-634 | A live request completes exactly when its input is finished, nothing is pending or queued and the end of the stream was reported, and then all words are told |
| RequestControls.WaitingLearnsWhy | src/native/audio/audio_engine.cpp:392-402 | A producer that waits while the request is stopped goes on, submits nothing and learns the reason of the stop |
| RequestControls.WaitingLearnsError | src/native/audio/audio_engine.cpp:392-402 | A producer that waits while the request fails learns the error |
| RequestControls.SubmitAnswers | src/native/audio/audio_engine.cpp:100-148 | Submit refuses exactly incomplete, oversized or badly bounded audio without any change; no audio is accepted as nothing; otherwise the call waits with exactly this audio and these boundaries |
| RequestControls.WaitIsExact | src/native/audio/audio_engine.cpp:149-173 | A waiting call goes on exactly when the request is interrupted or the audio fits four seconds and, if three seconds were buffered or it did not fit when it came, at most one second is left |
| RequestControls.CommitAnswers | src/native/audio/audio_engine.cpp:171-195 | What a call that goes on returns: its frames and the frames then buffered, or why the request takes no more |
| RequestControls.BuffersAreTenths | src/native/audio/audio_engine.cpp:419-455 | An accepted submission is handed over in buffers of a tenth of a second and what is left over stays pending |
| RequestControls.FinishAnswers | src/native/audio/audio_engine.cpp:198-227 | FinishInput closes an open input once; a request without audio has then completed, one with audio plays on, unless the device refuses and it has failed |
| RequestControls.NobodyPauses | src/native/audio/audio_engine.cpp:229-248 | A request is not paused unless it was asked to |
| RequestControls.EverythingWakes | src/native/audio/audio_engine.cpp:640-650 | Whatever the device reports, and whenever audio is accepted or the request ends, the condition the idle dispatcher waits for is true |
| RequestControls.PassRests | src/native/audio/audio_engine.cpp:640-658 | After a pass that condition is false again, except exactly while the request is destroyed, when the voice did not give its position, or with a fault for a request that has ended |
| RequestControls.StaleFaultKeepsAwake | src/native/audio/audio_engine.cpp:560-566 | A fault for a request that has ended is never taken: in every continuation the dispatcher does not rest again |
| RequestControls.StoppedAfterFault | src/native/audio/audio_engine.cpp:273-299 | Such a state is reached by a Stop that comes between a fault and the next pass |
| RequestRuns.EveryRun | src/native/audio/audio_engine.cpp:79-93 | The invariant holds in every reachable state |
| RequestSteps.StepKeeps | src/native/audio/audio_engine.cpp:100-365 | Every step of producer, control, device and dispatcher keeps the invariant |
| RequestSteps.SubmitCommitKeeps | src/native/audio/audio_engine.cpp:158-195 | The second half of Submit keeps the invariant |
| RequestSteps.FinishInputKeeps | src/native/audio/audio_engine.cpp:198-227 | FinishInput keeps the invariant |
| RequestSteps.DispatchPassKeeps | src/native/audio/audio_engine.cpp:636-669 | A dispatcher pass keeps the invariant |
| RequestAccepted.RunRecords | src/native/audio/audio_engine.cpp:175-195 | In every run the accepted bytes, boundaries and frames are those of exactly the submissions that returned success |
| RequestAccepted.CommitIsAllOrNothing | src/native/audio/audio_engine.cpp:174-195 | A submission is accepted whole or not at all |
| RequestAccepted.SlicedRun | src/python/selectspeak/speech/pcm.py:288-323 | The submit loop, in any interleaving and from any state: at every moment the request has accepted a whole-slice front part of the PCM with its absolute boundaries, the frames counted are its frames, and all of it when the loop ends unstopped |
| RequestAccepted.SubmittingIsRun | src/python/selectspeak/speech/pcm.py:313-323 | What the loop makes of a request is an ordinary run of it, so every theorem about runs holds for it |
| RequestAccepted.SubmittingNeverSticks | src/python/selectspeak/speech/admission.py:63-73 | Slices of at most high water never wait behind silence: whenever the loop is held back on a healthy unpaused request, the voice plays all that is buffered |
| RequestAccepted.InterruptionStops | src/python/selectspeak/speech/pcm.py:313-323 | The loop that finds its session interrupted is left for good: in every continuation nothing more of its slices is accepted or counted |
| RequestAccepted.RefusalStops | src/python/selectspeak/speech/pcm.py:313-323 | A refused slice ends the loop in the same way: in every continuation neither it nor another is offered again |
| RequestReading.ToldAreSubmitted | src/python/selectspeak/speech/backends/supertonic.py:278-299 | Bounded submissions one after the other, in any interleaving and with anything but submissions afterwards: the words told are a front part of the words submitted, and all of them when everything was accepted and the request completed |
| RequestReading.SpeakingIsRun | src/python/selectspeak/speech/backends/supertonic.py:278-299 | What those submissions make of a request is an ordinary run of it |
| SpokenReading.HighlightNeverGoesBack | src/python/selectspeak/speech/backends/supertonic.py:278-318 | However a text is cut and synthesised, the words told while it is read lie one behind the other in the text, are a front part of the words of the chunks, and all of them when the reading completed |
| SpokenReading.ChunksInOrder | src/python/selectspeak/speech/backends/supertonic.py:306-318 | For all chunks of a text and all waveforms, the text ranges of a chunk's words lie before those of the next chunk |
| SpokenReading.EveryWordIsSubmitted | src/python/selectspeak/speech/backends/supertonic.py:306-318 | For every chunk and waveform a boundary is made for each estimated word and covers exactly it |
| RequestEngine.AudioRequest.SetTerminalLocked | src/native/audio/audio_engine.cpp:523-544 | Ends the request once, as the model step |
| RequestEngine.AudioRequest.FailLocked | src/native/audio/audio_engine.cpp:503-521 | Fails a request that has not ended and drops what waits |
| RequestEngine.AudioRequest.SubmitPendingLocked | src/native/audio/audio_engine.cpp:404-417 | Hands over the pending buffer, or fails as the model step |
| RequestEngine.AudioRequest.QueueSubmissionLocked | src/native/audio/audio_engine.cpp:419-455 | The loop over device buffers equals the recursive cut, also when the voice refuses one |
| RequestEngine.AudioRequest.MaybeStartLocked | src/native/audio/audio_engine.cpp:481-487 | Starts the voice exactly when the prebuffer is reached, unpaused, with something queued |
| RequestEngine.AudioRequest.SubmitUntilWait | src/native/audio/audio_engine.cpp:100-157 | Checks, flush and the decision to block, as the model step; like every entry below that takes the mutex it keeps the object where some run leads |
| RequestEngine.AudioRequest.SubmitAfterWait | src/native/audio/audio_engine.cpp:158-195 | Queueing and acceptance after the wait, as the model step |
| RequestEngine.AudioRequest.FinishInputNow | src/native/audio/audio_engine.cpp:198-227 | FinishInput as the model step |
| RequestEngine.AudioRequest.PauseNow | src/native/audio/audio_engine.cpp:229-248 | Pause as the model step |
| RequestEngine.AudioRequest.ResumeNow | src/native/audio/audio_engine.cpp:250-271 | Resume as the model step |
| RequestEngine.AudioRequest.StopUntilWait | src/native/audio/audio_engine.cpp:273-299 | Stop up to its wait for the terminal delivery |
| RequestEngine.AudioRequest.DestroyUntilJoin | src/native/audio/audio_engine.cpp:301-318 | Destroy up to joining the dispatcher |
| RequestEngine.AudioRequest.DestroyAfterJoin | src/native/audio/audio_engine.cpp:319-334 | Destroy after the dispatcher has exited |
| RequestEngine.AudioRequest.OnBufferEnd | src/native/audio/audio_engine.cpp:336-343 | Marks one submitted buffer as ended |
| RequestEngine.AudioRequest.ReclaimEndedBuffersLocked | src/native/audio/audio_engine.cpp:546-558 | The loop removes exactly the ended buffers and subtracts exactly their frames |
| RequestEngine.AudioRequest.ObservePlaybackLocked | src/native/audio/audio_engine.cpp:560-612 | Faults, heard words and underruns as the model step |
| RequestEngine.AudioRequest.CompleteIfReadyLocked | src/native/audio/audio_engine.cpp:614-634 | Tells the remaining words and completes, as the model step |
| RequestEngine.AudioRequest.DispatchOnce | src/native/audio/audio_engine.cpp:636-669 | One locked dispatcher pass as the model step |
| RequestEngine.AudioRequest.DeliverNext | src/native/audio/audio_engine.cpp:680-700 | Delivers the next event of the batch |
| RequestRegistry.AtMostOnePlays | src/native/audio/audio_engine.cpp:786-845 | Over every run of Create, Stop, Destroy and Shutdown two requests never play at the same time |
| RequestRegistry.HandlesAreFresh | src/native/audio/audio_engine.cpp:833-845 | Handles are never reused and accepted request ids strictly increase |
| RequestRegistry.NothingPlaysAfterShutdown | src/native/audio/audio_engine.cpp:941-965 | After Shutdown, once calls in flight have returned, nothing plays for good |
| RegistryHandles.CreateBuilds | src/native/audio/audio_engine.cpp:786-831 | A Create that passes its checks builds one request, with the id it was asked for, whatever happens between its sections; without a voice it builds none |
| RegistryHandles.HandleReturned | src/native/audio/audio_engine.cpp:832-845 | In every run Create returns a handle unless the engine was closed meanwhile, which ends what was built; the handle is new and stands for the request just built, and no other entry changes |
| RegistryHandles.HandlesCount | src/native/audio/audio_engine.cpp:832-845 | Over every run the handles given out are 1, 2, 3 and so on |
| RegistryHandles.HandleReaches | src/native/audio/audio_engine.cpp:909-938 | Until it is destroyed or the engine shut down, whatever else happens, a handle reaches that request: Stop ends it and no other, Destroy takes it out and ends it |
| RegistryHandles.GoneForGood | src/native/audio/audio_engine.cpp:909-938 | A handle that was taken out of the table is refused for good and changes nothing |
| RegistryHandles.OnlyNewIds | src/native/audio/audio_engine.cpp:792-820 | Create goes on exactly with an id above all ids that were given a handle, a known format, a sink and an open engine, and says what is missing otherwise |
| RequestRegistry.AudioEngine.BeginCreate | src/native/audio/audio_engine.cpp:792-820 | The checks of Create, as the model step |
| RequestRegistry.AudioEngine.RegisterRequest | src/native/audio/audio_engine.cpp:832-845 | Registers a built request, or ends it when the engine was closed meanwhile |
| RequestRegistry.AudioEngine.RemoveForDestroy | src/native/audio/audio_engine.cpp:923-938 | Destroy's removal from the table |
| RequestRegistry.AudioEngine.RemoveForShutdown | src/native/audio/audio_engine.cpp:941-958 | Shutdown empties the table |
| Admission.SliceForAdmission | src/python/selectspeak/speech/admission.py:90-151 | Rejects exactly incomplete frames and disordered or outside boundaries; otherwise cuts PCM and boundaries without loss, every slice full but the last, a boundary on a cut opening the next slice |
| Admission.CheckOrderSays | src/python/selectspeak/speech/admission.py:103-117 | The refusal names what is wrong with the first boundary that is out of place |
| Admission.SliceNatural | src/native/natural_voice/natural_voice.cpp:632-671 | The native loop cuts sorted boundaries without loss, with a boundary on a cut ending the earlier slice; unsorted ones make some slice be refused |
| Admission.SlicesAdmitAsOne | src/python/selectspeak/speech/pcm.py:311-323 | Admitting the slices of any cut leaves the stream as one unsliced submission does |
| Admission.SlicersAgree | src/native/natural_voice/natural_voice.cpp:632-671 | The two producers' slices leave the request in the same state |
| Admission.InterruptedLeavesPrefix | src/python/selectspeak/speech/pcm.py:316-323 | Admitting any number of first slices of a cut leaves what one submission of their audio and boundaries would, a front part of the whole; how many they are in a run is RequestAccepted.SlicedRun |
| Admission.SlicesPassEngineChecks | src/native/audio/audio_engine.cpp:100-148 | A slice of a valid cut is refused by the engine's checks only if its byte length does not fit 32 bits |
| PcmSession.ToldIsOneSession | src/python/selectspeak/speech/pcm.py:495-545 | Whatever native events arrive, the application is told at most one well-formed session, ended by a status that is never NONE |
| PcmSession.NothingTheEngineSaysIsLost | src/python/selectspeak/speech/pcm.py:495-545 | In every run of the engine, and wherever close begins, the application is told exactly the delivered events |
| PcmSession.ForeignIsIgnored | src/python/selectspeak/speech/pcm.py:500-511 | Native events of other requests and of unknown kinds make no difference anywhere in a session |
| PcmSession.DoneIsDeaf | src/python/selectspeak/speech/pcm.py:500-501 | A session that is closed or has told its ending tells nothing more |
| PcmSession.FlagsMean | src/python/selectspeak/speech/pcm.py:342-403 | A session accepts until its input ends, it is closed or has ended; a producer is interrupted exactly by a stop, a close that has begun or an ending |
| PcmSession.PcmPlaybackSession.CopyEventLocked | src/python/selectspeak/speech/pcm.py:495-545 | The filter on the session's fields |
| PcmSession.PcmPlaybackSession.InputEnded | src/python/selectspeak/speech/pcm.py:350-378 | What finish_input and stop leave of the session's flags |
| PcmSession.PcmPlaybackSession.CloseUntilDestroy | src/python/selectspeak/speech/pcm.py:380-388 | close up to its native call: interrupts the session, unless it is already closed |
| PcmSession.PcmPlaybackSession.CloseAfterDestroy | src/python/selectspeak/speech/pcm.py:389-403 | close after its native call: stops accepting and silences the session, or leaves it open when the call failed |
| Playback.EventStream | src/python/selectspeak/speech/playback.py:73-171 | Over every run the event log is blocks Started, words, Terminal with increasing ids; the open block is the current request; after close none is open |
| Playback.BlocksMean | src/python/selectspeak/speech/playback.py:222-237 | In a log of that shape every word and terminal follows its own Started with only its words between |
| Playback.StaleReportsAreDropped | src/python/selectspeak/speech/playback.py:144-171 | Once a generation is superseded, no report for it ever changes the log |
| Playback.NextRequestNeedsSettled | src/python/selectspeak/speech/playback.py:116-127 | Taking the next request keeps the invariant exactly when no request is active |
| Playback.UnsettledAfterFail | src/python/selectspeak/speech/playback.py:154-162 | After the late failure of a superseded request the next request can overwrite an unsettled one |
| PlaybackReports.WordsAreReports | src/python/selectspeak/speech/playback.py:164-171 | Over every run the words told for a request are, in order, exactly the positions and lengths reported for its generation while it was active, each with the text submitted under its id |
| PlaybackReports.CallsTell | src/python/selectspeak/speech/playback.py:73-171 | In every run each call adds exactly the events that follow from what the controller was doing, with the status of that call, and ends the current request only if it tells so |
| PlaybackReports.CallsAnswer | src/python/selectspeak/speech/playback.py:73-142 | submit is accepted exactly for a new id on an open, working controller; submit, cancel and close answer whether a request was current |
| PlaybackReports.CommandsReachTheWorker | src/python/selectspeak/speech/playback.py:177-216 | A pause that was asked for is the next command the worker takes, once, and pauses the request; a resume likewise |
| Playback.PlaybackController.SubmitRequest | src/python/selectspeak/speech/playback.py:73-100 | submit, as the model step |
| Playback.PlaybackController.CancelCurrent | src/python/selectspeak/speech/playback.py:102-114 | cancel, as the model step |
| Playback.PlaybackController.TakeNextRequest | src/python/selectspeak/speech/playback.py:116-127 | next_request after its wait, as the model step; the controller stays valid exactly when no request was active |
| Playback.PlaybackController.CloseController | src/python/selectspeak/speech/playback.py:129-142 | close, as the model step |
| Playback.PlaybackController.CompleteGeneration | src/python/selectspeak/speech/playback.py:144-152 | complete, as the model step |
| Playback.PlaybackController.FailGeneration | src/python/selectspeak/speech/playback.py:154-162 | fail, as the model step |
| Playback.PlaybackController.PlayedWord | src/python/selectspeak/speech/playback.py:164-171 | played_word, as the model step |
| Playback.PlaybackController.TakeCommand | src/python/selectspeak/speech/playback.py:205-216 | consume_command, as the model step |
| Playback.PlaybackController.RequestCommand | src/python/selectspeak/speech/playback.py:177-189 | request_pause and request_resume, as the model steps |
| Playback.PlaybackController.SetPaused | src/python/selectspeak/speech/playback.py:191-203 | pause_now and resume_now, as the model steps |
| Playback.PlaybackController.SettleCurrent | src/python/selectspeak/speech/playback.py:225-237 | Settling emits the terminal of the current request once and clears it |
| Punctuation.FromText | src/python/selectspeak/speech/segments.py:33-41 | The scan lists exactly the positions that end punctuation and closers before whitespace or the end, in order, and exactly the sentence ends among them |
| Punctuation.BoundaryIsMatched | src/python/selectspeak/speech/segments.py:15 | Every position that ends marks and closers before a break is where the pattern's match from the start of its marks ends |
| Punctuation.BetweenIsFilter | src/python/selectspeak/speech/segments.py:124-127 | The bisected lookup equals a plain filter of all boundaries |
| Chunker.ChunksTile | src/python/selectspeak/speech/segments.py:60-113 | For any targets and limits the chunks are disjoint increasing trimmed slices without line breaks; between them lies whitespace, or whitespace and bullet prefixes with whitespace between any two |
| Chunker.ChunksAreBoundedAndEnd | src/python/selectspeak/speech/segments.py:60-107 | Chunk i obeys the limit of call i, a call returns nothing only at the end, and as many calls as characters exhaust the text |
| Chunker.NothingIsLost | src/python/selectspeak/speech/segments.py:60-113 | Once a call returned nothing, every other character was spoken exactly once, in order |
| Chunker.NextChunkIsLossless | src/python/selectspeak/speech/segments.py:60-113 | One call takes a bounded chunk; before it it leaves out whitespace and a bullet prefix, more only behind further whitespace, and behind it only whitespace |
| Chunker.CutIsWell | src/python/selectspeak/speech/segments.py:76-93 | The cut follows the rule stated on the text alone: line end, nearest allowed boundary, line end, whitespace, hard limit |
| Chunker.WellCutIsUnique | src/python/selectspeak/speech/segments.py:76-93 | That rule determines the cut |
| Chunker.WindowIsExact | src/python/selectspeak/speech/segments.py:73-78 | A call may use the rest of its line; target and limit count from the start, at least one character, and stop at the line end |
| Chunker.ChunkStartsWell | src/python/selectspeak/speech/segments.py:109-113 | No chunk starts with whitespace or a bullet prefix, unless a prefix was left out directly before it |
| Chunker.CursorIsAtCut | src/python/selectspeak/speech/segments.py:93-107 | Every call that returns a chunk leaves the cursor at the cut, before any trimming |
| Chunker.ChunkEndsWell | src/python/selectspeak/speech/segments.py:93-107 | Every returned chunk ends at the trimmed cut and asks for a pause exactly at line and sentence ends |
| Chunker.EndsAtBestBoundary | src/python/selectspeak/speech/segments.py:86-93 | A chunk cut at punctuation ends exactly at the allowed boundary nearest the target, the earlier one on a tie |
| Chunker.WellPlacedExactly | src/python/selectspeak/speech/segments.py:73-93 | A chunk takes the rest of its line or ends at the best boundary, if there is one, if and only if it is the first, its line goes beyond the target, or the line fits the hard limit |
| Chunker.PunctuationRules | src/python/selectspeak/speech/segments.py:73-93 | So a target within the limit is enough |
| Chunker.TargetBeyondLimit | src/python/selectspeak/speech/segments.py:76-93 | A run of the chunker on a concrete text in which a target beyond the limit ends a chunk inside a word although a boundary was allowed |
| Chunker.AdaptiveSpeechChunker.NextChunk | src/python/selectspeak/speech/segments.py:60-107 | The method returns and leaves what the model's call does |
| Chunker.AdaptiveSpeechChunker.SkipStructurePrefix | src/python/selectspeak/speech/segments.py:109-113 | The loop skips whitespace and then one bullet prefix |
| Pipeline.EveryReading | src/python/selectspeak/speech/pipeline.py:91-112 | For any runways and any synthesis times learnt in any order: chunks tile the text, none exceeds 200 characters, coefficients stay non-negative, nothing is lost |
| Pipeline.ReadingIsWellPlaced | src/python/selectspeak/speech/pipeline.py:91-109 | Every chunk of every reading takes the rest of its line or ends at the best boundary |
| Pipeline.ReadIsConsistent | src/python/selectspeak/speech/pipeline.py:91-109 | The two first-chunk flags always agree and every call asks for 30 to 140 characters with limit 200 |
| Pipeline.CallsFitTheRunway | src/python/selectspeak/speech/pipeline.py:91-109 | In every reading a call asks for 100 characters until there is a chunk, and later for what fits the runway by what was learnt until then, and for no less than that |
| Pipeline.ReadingsLearn | src/python/selectspeak/speech/pipeline.py:111-112 | In every reading a recorded synthesis moves the prediction for its length towards it |
| Pipeline.AdaptiveSpeechPipeline.ChooseNext | src/python/selectspeak/speech/pipeline.py:91-109 | choose_next, as the model step; the decision carries the target, the runway and the time predicted for the chunk that was cut |
| Predictor.RecordContracts | src/python/selectspeak/speech/pipeline.py:37-49 | One observation keeps the sign of the error for that length and shrinks it by at least 1 - weight/2, exactly when seconds + rate * length is not negative |
| Predictor.RepeatingContracts | src/python/selectspeak/speech/pipeline.py:37-49 | Repeating one observation shrinks the error geometrically |
| Predictor.RepeatingConverges | src/python/selectspeak/speech/pipeline.py:37-49 | The error falls below every positive tolerance |
| Predictor.RecordKeepsSane | src/python/selectspeak/speech/pipeline.py:37-49 | Coefficients stay non-negative |
| Predictor.TargetIsBoundedAndMonotone | src/python/selectspeak/speech/pipeline.py:51-61 | The target stays in 30..140 and never shrinks with more runway |
| Predictor.TargetFitsTheRunway | src/python/selectspeak/speech/pipeline.py:51-64 | For all non-negative coefficients and any runway, a target above the minimum is predicted to be ready within the safe part of the runway, up to half a character |
| Predictor.TargetUsesTheRunway | src/python/selectspeak/speech/pipeline.py:51-64 | For any coefficients and runway: a target below the ceiling of its runway leaves less than half a character of the safe part unused |
| Predictor.GenerationStatistics.RecordGeneration | src/python/selectspeak/speech/pipeline.py:37-49 | record, as the model function |
| LineReader.DivisionDoesNotMatter | src/winui/SelectSpeak.UI/Bridge/NamedPipePlayerBridge.cs:313-371 | Every division of a steady stream into reads no larger than the buffer gives the lines without their CR, then a non-empty tail, then the end, or the too-long failure at the same line |
| LineReader.PlainIsSteady | src/winui/SelectSpeak.UI/Bridge/NamedPipePlayerBridge.cs:313-382 | A stream with carriage returns only before line feeds and lines that fit with theirs, as JSON payloads are (section 7 of RFC 8259 escapes control characters), is steady for every buffer and never refused |
| LineReader.SteadyIsExact | src/winui/SelectSpeak.UI/Bridge/NamedPipePlayerBridge.cs:303-345 | For every capacity of the buffer that holds a line ending: a line is read alike under all divisions into reads within it if and only if it is steady |
| LineReader.SteadyStreamsAreExact | src/winui/SelectSpeak.UI/Bridge/NamedPipePlayerBridge.cs:303-371 | A whole stream gives the same outcomes under all divisions into reads within the buffer if and only if every line up to the first too long one is steady |
| LineReader.ReadLineMeans | src/winui/SelectSpeak.UI/Bridge/NamedPipePlayerBridge.cs:313-371 | One call, whatever was collected before, returns the next line of the stream and leaves the rest |
| LineReader.BoundedLineReader.NextLine | src/winui/SelectSpeak.UI/Bridge/NamedPipePlayerBridge.cs:313-371 | The nested loops over the buffer return and leave what the recursive call does |
| LineReader.BoundedLineReader.TakeLine | src/winui/SelectSpeak.UI/Bridge/NamedPipePlayerBridge.cs:328-360 | Ending a line strips one carriage return, from the buffer or else from the builder |
| OcrWindow.LocalRightEdges | src/native/input/ocr/ocr_layout.cpp:147-179 | For every list of lines and every tolerance each entry is the largest right edge among the line itself and all lines whose left edge is within the tolerance |
| OcrWindow.LocalRightIsUnique | src/native/input/ocr/ocr_layout.cpp:147-179 | That value is unique, so the order among equal left edges does not matter |
| OcrWindow.Slide | src/native/input/ocr/ocr_layout.cpp:161-173 | Both window loops stop with the multiset of exactly the lines between them, and neither could move further |
| OcrWindow.WindowIsExact | src/native/input/ocr/ocr_layout.cpp:161-176 | A window that can move no further holds exactly the near lines |
| HighlightMap.ToRenderedCounts | src/winui/SelectSpeak.UI/Views/PlayerWindow.xaml.cs:366-385 | An offset maps to the number of characters before it that are shown |
| HighlightMap.ToRenderedIsMonotone | src/winui/SelectSpeak.UI/Views/PlayerWindow.xaml.cs:366-385 | The map is monotone, never stretches, and maps the end of the text to the shown length |
| HighlightMap.WordIsShown | src/winui/SelectSpeak.UI/Views/PlayerWindow.xaml.cs:188-215 | The shown characters of a word start where its offset maps to |
| HighlightMap.PaintedIsInside | src/winui/SelectSpeak.UI/Views/PlayerWindow.xaml.cs:222-254 | Every painted range is non-empty and lies inside what is shown, whatever is asked for |
| HighlightMap.PaintedUnlessHidden | src/winui/SelectSpeak.UI/Views/PlayerWindow.xaml.cs:222-240 | A word is painted unless the text is blank or only line breaks are left |
| HighlightMap.PaintsExactlyTheWord | src/winui/SelectSpeak.UI/Views/PlayerWindow.xaml.cs:222-254 | As many characters are painted as the word shows if and only if no line break lies in it or nothing is shown behind it; without a break exactly the word is painted |
| HighlightMap.BreakIsPaintedOver | src/winui/SelectSpeak.UI/Views/PlayerWindow.xaml.cs:222-254 | A text in which a word over a line break is painted together with the character behind it |
| HighlightMap.ParagraphsShowTheText | src/winui/SelectSpeak.UI/Views/PlayerWindow.xaml.cs:188-216 | The paragraphs, joined, are the text without its line breaks, and none is empty |
| HighlightMap.PlayerText.SetText | src/winui/SelectSpeak.UI/Views/PlayerWindow.xaml.cs:154-216 | Builds paragraphs, line table and shown length of the text; a blank text gets the prompt and neither |
| HighlightMap.PlayerText.LayOutLines | src/winui/SelectSpeak.UI/Views/PlayerWindow.xaml.cs:186-215 | The loop over the lines makes one paragraph of every line that is not empty and enters every line at its offset and its shown place |
| HighlightMap.PlayerText.HighlightWord | src/winui/SelectSpeak.UI/Views/PlayerWindow.xaml.cs:222-254 | Paints the clamped range at the mapped place, or nothing |
| HighlightMap.PlayerText.ToRenderedIndex | src/winui/SelectSpeak.UI/Views/PlayerWindow.xaml.cs:373-385 | The scan of the table finds the number of shown characters before the offset |
| Utf16.DecodeEncode | src/python/selectspeak/speech/pcm.py:132-135 | Decoding the UTF-16 form of a text gives the text back |
| Utf16.EncodeDecode | src/python/selectspeak/speech/pcm.py:132-135 | Encoding what was decoded gives the code units back |
| Utf16.EncodesByTheStandard | src/python/selectspeak/speech/pcm.py:132-135 | Each code point has the form that section 2.1 of RFC 2781 gives it |
| Utf16.EdgesSplitNothing | src/python/selectspeak/speech/pcm.py:547-554 | The edges are exactly the offsets that split no surrogate pair |
| Utf16.Utf16Edges | src/python/selectspeak/speech/pcm.py:547-554 | The loop collects exactly the edges |
| Utf16.BoundaryNamesTheWord | src/python/selectspeak/speech/pcm.py:138-148 | A converted range is non-empty, in the text, splits nothing and covers exactly the encoding of its code points |
| Utf16.ConvertsExactlyRanges | src/python/selectspeak/speech/pcm.py:138-148 | Exactly the non-empty ranges inside the text are converted |
| Utf16.ValidateSubmission | src/python/selectspeak/speech/pcm.py:429-454 | The check accepts exactly whole frames with ordered boundaries inside the audio whose ranges lie in the text and split nothing |
| Words.MatchesAreWords | src/python/selectspeak/speech/backends/supertonic.py:31 | Every match starts and ends with a word character, holds only word characters and inner joiners, and cannot be longer at either end |
| Words.MatchesCover | src/python/selectspeak/speech/backends/supertonic.py:31 | Every word character lies in a match |
| EdgeSilence.TrimFits | src/python/selectspeak/speech/backends/supertonic.py:98-146 | Whatever the waveform, something is kept and the speech found lies inside it |
| EdgeSilence.OnlyQuietIsCut | src/python/selectspeak/speech/backends/supertonic.py:117-146 | Every sample cut off lies in a scanned window that is not loud |
| EdgeSilence.TrimIsTight | src/python/selectspeak/speech/backends/supertonic.py:98-146 | Whatever the waveform, what is kept reaches from the first loud window of the leading scan to the last one of the trailing scan, with 15 ms on either side, and the speech lies where those windows are |
| Supertonic.EstimateWordBoundaries | src/python/selectspeak/speech/backends/supertonic.py:59-95 | The two loops divide the duration among the words: the first starts at 0 and each takes the part its letters and the pause behind it are of the sum of these |
| Supertonic.EstimatesAreInTime | src/python/selectspeak/speech/backends/supertonic.py:59-95 | Estimated times never go back and never leave the duration |
| Supertonic.EstimatesDivide | src/python/selectspeak/speech/backends/supertonic.py:59-95 | The estimates of the model divide the duration in the same way |
| Supertonic.FrameIsNearest | src/python/selectspeak/speech/backends/supertonic.py:306-318 | The frame of a word is the whole number nearest to its time behind the leading silence |
| Supertonic.FramesFit | src/python/selectspeak/speech/backends/supertonic.py:306-318 | Times within the speech become ordered frames between the leading silence and the end of the speech |
| SupertonicSlices.NeverRefused | src/python/selectspeak/speech/backends/supertonic.py:306-318 | For every waveform, text and chunk, making the boundaries never fails, each covers exactly its word, and every slice submitted of them passes the check of the session, and that of the engine exactly when its byte length fits 32 bits, as it does at every sample rate in use |

## Left out

- XAudio2, the Speech SDK, WinRT OCR and the Supertonic model: foreign calls; the voice and the waveform are arbitrary arguments.
- The C interface, handles in ctypes, diagnostics strings, `OnDispatcherThread` and logging: plain forwarding or text.
- Counters are unbounded integers, except the boundary subtraction of the Natural Voice loop, which wraps at 64 bits.
- Engine formats other than mono 16-bit PCM: `Create` refuses them.
- `AdmissionPolicy` objects with other thresholds than the standard ones, and `needs_more_audio`: comparisons of settings.
- `split_speech_segments` and its span helpers: a second splitter for a backend without adaptive chunks; it would repeat the chunker's shape.
- `Measure`, `Median`, `ClassifyBreak` and `ReconstructLayout`: heuristics on line geometry without a crisp meaning to preserve.
- The native calls behind the session's finish_input, stop, pause and resume, and the check of the stop reason: they forward to the engine.
- Paragraph margins, scrolling and brushes of the player: user interface.
- Waiting itself (condition variables, timeouts, threads): a wait is the guard of the step that follows it.
- The conversion of samples to 16-bit integers and floating-point rounding: reals are used instead.
- Chunker.ChunksTile: texts are sequences of Unicode scalar values; Python strings with lone surrogates are not covered.
- LineReader.DivisionDoesNotMatter: what a reader returns when it is used again after the too-long failure is not modelled, because the bridge drops the connection then.
- OcrWindow.LocalRightEdges: the library sort is replaced by an insertion sort; the result is the same for any order among equal left edges.
