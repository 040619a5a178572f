/**
 * What the calls on a request achieve, stated on what a caller can see: what a pause holds back,
 * what a resume starts, how a stop or a fault ends a request and what a waiting producer learns of
 * it, when a submission waits, and what wakes the dispatcher.
 */
module RequestControls {
  import opened AudioTypes
  import opened RequestModel
  import opened RequestInvariant
  import opened RequestRuns
  import opened RequestUnderruns
  import RequestSteps

  // ----- Pause ---------------------------------------------------------------------------

  /** `Resume` is not called. */
  predicate NoResume(steps: seq<Step>) { forall i :: 0 <= i < |steps| ==> !steps[i].DoResume? }

  /** A step tells an underrun exactly when it changes the flag of the voice, and only one. */
  lemma StepTellsChanges(s: State, step: Step)
    requires Inv(s) && Enabled(s, step)
    ensures var t := Apply(s, step); Told(t) == Told(s) + (if t.voice.underrun == s.voice.underrun then 0 else 1)
  {
    if step.DoSubmitEnter? || step.DoSubmitCommit? || step.DoFinishInput? {
      ProducerOnlyEnds(s, step);
      EndTellsNone(s, Apply(s, step));
    } else if step.DoPause? || step.DoResume? || step.DoStop? || step.DoDestroyBegin? {
      ControlsOnlyEnd(s, step);
      EndTellsNone(s, Apply(s, step));
    } else if step.DoDispatchPass? {
      PassTellsChanges(s, step.reading);
    } else {
      OthersTellNothing(s, step);
    }
  }

  lemma EndTellsNone(s: State, t: State)
    requires OnlyEnds(s.dispatcher, t.dispatcher)
    ensures Told(t) == Told(s)
  {
    if t.dispatcher != s.dispatcher {
      var last := [t.dispatcher.queue[|t.dispatcher.queue| - 1]];
      OthersCountNothing(last);
      EnqueueCounts(s.dispatcher, last);
    }
  }

  lemma CompletingTellsNone(s: State)
    ensures Told(CompleteIfReady(s)) == Told(s)
  {
    if ReadyToComplete(s) {
      var told := QueueWords(s, |s.stream.boundaries|);
      WordsTellNoUnderrun(s, |s.stream.boundaries|);
      EndTellsNone(told, SetTerminal(told, Completed, Ok));
    }
  }

  lemma PassTellsChanges(s: State, reading: Option<Reading>)
    requires s.dispatcher.batch == []
    ensures var t := DispatchPass(s, reading); Told(t) == Told(s) + (if t.voice.underrun == s.voice.underrun then 0 else 1)
  {
    var seen := Observe(Noted(s), reading);
    ObservingTellsChanges(Noted(s), reading);
    BatchWaits(Noted(s), reading);
    CompletingTellsNone(seen);
    TakingTakesTurns(CompleteIfReady(seen));
  }

  /** Nothing but `Resume` ends a pause or starts a paused voice, and a paused voice does not run dry. */
  lemma StepHoldsPause(s: State, step: Step)
    requires Inv(s) && Enabled(s, step) && s.voice.paused && !step.DoResume?
    ensures HoldsPause(s, Apply(s, step))
  {
    match step
    case DoSubmitEnter(_, _, _, _) => ProducerHoldsPause(s, step);
    case DoSubmitCommit(_, _) => ProducerHoldsPause(s, step);
    case DoFinishInput(_, _) => ProducerHoldsPause(s, step);
    case DoDispatchPass(reading) => PassHoldsPause(s, reading);
    case _ =>
  }

  ghost predicate HoldsPause(s: State, t: State) {
    t.voice.paused && t.voice.started == s.voice.started && (t.voice.underrun ==> s.voice.underrun)
  }

  lemma ProducerHoldsPause(s: State, step: Step)
    requires Enabled(s, step) && s.voice.paused
    requires step.DoSubmitEnter? || step.DoSubmitCommit? || step.DoFinishInput?
    ensures HoldsPause(s, Apply(s, step))
  {
  }

  lemma PassHoldsPause(s: State, reading: Option<Reading>)
    requires s.voice.paused
    ensures HoldsPause(s, DispatchPass(s, reading))
  {
  }

  lemma {:induction false} PauseIsHeld(s: State, steps: seq<Step>)
    requires Inv(s) && s.voice.paused && NoResume(steps)
    ensures var t := Run(s, steps);
      && t.voice.paused && t.voice.started == s.voice.started && (t.voice.underrun ==> s.voice.underrun)
      && Told(t) == Told(s) + (if t.voice.underrun == s.voice.underrun then 0 else 1)
    decreases |steps|
  {
    if steps != [] {
      if Enabled(s, steps[0]) {
        RequestSteps.StepKeeps(s, steps[0]);
        StepHoldsPause(s, steps[0]);
        StepTellsChanges(s, steps[0]);
        PauseIsHeld(Apply(s, steps[0]), steps[1..]);
      } else {
        PauseIsHeld(s, steps[1..]);
      }
    }
  }

  /**
   * A `Pause` that returns Ok has paused a live request, and pauses it until `Resume`: in every
   * continuation the voice is not started if it was not, and at most one more underrun is told,
   * the end of one that was going on.
   */
  lemma PausePauses(config: Config, steps: seq<Step>, pauseOk: bool, more: seq<Step>)
    requires config.rate > 0 && NoResume(more)
    ensures var s := Run(Init(config), steps);
      var (t, status) := Pause(s, pauseOk);
      var u := Run(t, more);
      && (status == Ok <==> !s.life.terminal && (s.voice.paused || !s.voice.started || pauseOk))
      && (status == Ok ==>
            && !t.life.terminal && t.voice.paused && t.voice.started == s.voice.started && t.stream == s.stream
            && u.voice.paused && u.voice.started == s.voice.started && (u.voice.underrun ==> s.voice.underrun)
            && Told(u) == Told(s) + (if u.voice.underrun == s.voice.underrun then 0 else 1))
      && (status == DeviceError ==> t.life.ending == Failed && t.life.error == DeviceError)
      && (status != Ok && status != DeviceError ==> t == s)
  {
    EveryRun(config, steps);
    var s := Run(Init(config), steps);
    RequestSteps.PauseKeeps(s, pauseOk);
    var (t, status) := Pause(s, pauseOk);
    if status == Ok { PauseIsHeld(t, more); }
  }

  /**
   * A `Resume` that returns Ok leaves a live request that is not paused. A voice that was paused
   * then runs exactly if it had run, the input is finished or the prebuffer was handed over.
   */
  lemma ResumeResumes(config: Config, steps: seq<Step>, startOk: bool)
    requires config.rate > 0
    ensures var s := Run(Init(config), steps);
      var (t, status) := Resume(s, startOk);
      var wanted := s.voice.started || s.life.inputFinished || s.stream.submittedFrames >= Max(1, config.rate * 300 / 1000);
      && (status == Ok <==> !s.life.terminal && (!s.voice.paused || !wanted || startOk))
      && (status == Ok ==> !t.life.terminal && !t.voice.paused && t.stream == s.stream)
      && (status == Ok && s.voice.paused ==> (t.voice.started <==> wanted))
      && (status == Ok && !s.voice.paused ==> t == s)
      && (status == DeviceError ==> t.life.ending == Failed && t.life.error == DeviceError)
      && (status != Ok && status != DeviceError ==> t == s)
  {
    EveryRun(config, steps);
    ConfigStays(Init(config), steps);
  }

  /** A request is not paused unless it was asked to. */
  lemma NobodyPauses(config: Config, steps: seq<Step>)
    requires forall i :: 0 <= i < |steps| ==> !steps[i].DoPause?
    ensures !Run(Init(config), steps).voice.paused
  {
    RunStaysUnpaused(Init(config), steps);
  }

  lemma {:induction false} RunStaysUnpaused(s: State, steps: seq<Step>)
    requires !s.voice.paused && forall i :: 0 <= i < |steps| ==> !steps[i].DoPause?
    ensures !Run(s, steps).voice.paused
    decreases |steps|
  {
    if steps != [] {
      if Enabled(s, steps[0]) {
        StepStaysUnpaused(s, steps[0]);
        RunStaysUnpaused(Apply(s, steps[0]), steps[1..]);
      } else {
        RunStaysUnpaused(s, steps[1..]);
      }
    }
  }

  lemma StepStaysUnpaused(s: State, step: Step)
    requires !s.voice.paused && Enabled(s, step) && !step.DoPause?
    ensures !Apply(s, step).voice.paused
  {
    match step
    case DoSubmitEnter(_, _, _, _) => ProducerStaysUnpaused(s, step);
    case DoSubmitCommit(_, _) => ProducerStaysUnpaused(s, step);
    case DoFinishInput(_, _) => ProducerStaysUnpaused(s, step);
    case DoDispatchPass(reading) => PassStaysUnpaused(s, reading);
    case _ =>
  }

  lemma ProducerStaysUnpaused(s: State, step: Step)
    requires !s.voice.paused && Enabled(s, step)
    requires step.DoSubmitEnter? || step.DoSubmitCommit? || step.DoFinishInput?
    ensures !Apply(s, step).voice.paused
  {
  }

  lemma PassStaysUnpaused(s: State, reading: Option<Reading>)
    requires !s.voice.paused
    ensures !DispatchPass(s, reading).voice.paused
  {
  }

  // ----- Ending --------------------------------------------------------------------------

  /** What was queued ends with this ending, and no audio and no word is waiting any more. */
  ghost predicate EndedAs(s: State, ending: Ending, error: Status) {
    && s.life.terminal && s.life.ending == ending && s.life.error == error && !s.voice.alive
    && Cleared(s.stream) && !s.life.accepting
    && History(s.dispatcher) != [] && History(s.dispatcher)[|History(s.dispatcher)| - 1] == Terminal(ending, error)
  }

  /**
   * `Stop` ends a live request for the reason given, for good. It refuses reasons that are no
   * reason to stop and leaves a request alone that has ended.
   */
  lemma StopEnds(config: Config, steps: seq<Step>, reason: Ending, more: seq<Step>)
    requires config.rate > 0
    ensures var s := Run(Init(config), steps);
      var (t, status) := Stop(s, reason);
      && (status == Ok <==> reason in {Cancelled, Superseded, Failed, ClosedDown})
      && (status != Ok ==> status == InvalidArgument && t == s)
      && (s.life.terminal ==> t == s)
      && (status == Ok && !s.life.terminal ==> EndedAs(t, reason, Ok) && Run(t, more).life.ending == reason)
  {
    EveryRun(config, steps);
    var s := Run(Init(config), steps);
    RequestSteps.StopKeeps(s, reason);
    RunContinues(Stop(s, reason).0, more);
  }

  /** `Destroy` ends a live request as CLOSED and keeps the ending of any other. */
  lemma DestroyEnds(config: Config, steps: seq<Step>)
    requires config.rate > 0
    ensures var s := Run(Init(config), steps);
      var t := DestroyBegin(s);
      && (!s.life.terminal ==> EndedAs(t, ClosedDown, Ok))
      && (s.life.terminal ==> t.life.ending == s.life.ending && t.life.error == s.life.error && History(t.dispatcher) == History(s.dispatcher))
      && t.life.destroying
  {
    EveryRun(config, steps);
    var s := Run(Init(config), steps);
    RequestSteps.DestroyBeginKeeps(s);
  }

  /** A fault the device reports ends a live request in the next pass, as FAILED with that error. */
  lemma FaultEnds(config: Config, steps: seq<Step>, status: Status, reading: Option<Reading>)
    requires config.rate > 0
    ensures var s := Run(Init(config), steps);
      var t := Apply(s, DoVoiceFault(status));
      !s.life.terminal && s.dispatcher.batch == [] ==>
        && Enabled(t, DoDispatchPass(reading))
        && EndedAs(DispatchPass(t, reading), Failed, if status == Ok then DeviceError else status)
  {
    EveryRun(config, steps);
    var s := Run(Init(config), steps);
    var t := Apply(s, DoVoiceFault(status));
    RequestSteps.StepKeeps(s, DoVoiceFault(status));
    if !s.life.terminal && s.dispatcher.batch == [] { RequestSteps.DispatchPassKeeps(t, reading); }
  }

  /** A playing voice that does not say where it is ends a live request in the pass after that. */
  lemma SilenceEnds(config: Config, steps: seq<Step>, reading: Option<Reading>)
    requires config.rate > 0
    ensures var s := Run(Init(config), steps);
      var t := Observe(s, None);
      !s.life.terminal && s.voice.started && s.voice.fault == Ok ==> EndedAs(Observe(t, reading), Failed, DeviceError)
  {
    EveryRun(config, steps);
    var s := Run(Init(config), steps);
    RequestSteps.ObserveKeeps(s, None);
    RequestSteps.ObserveKeeps(Observe(s, None), reading);
  }

  /**
   * A request completes on its own exactly when its input is finished, nothing is left to hand
   * over or to play, and the voice has reported the end of the stream.
   */
  lemma CompletesWhenDone(s: State)
    requires Inv(s) && !s.life.terminal
    ensures var t := CompleteIfReady(s);
      var done := s.life.inputFinished && s.stream.pending.None? && s.stream.submitted == [] && s.signals.streamEnds > 0;
      && (done ==> EndedAs(t, Completed, Ok) && t.stream.log.words == t.stream.log.boundaries)
      && (!done ==> t == s)
  {
    RequestSteps.CompleteIfReadyKeeps(s);
  }

  /** `Destroy` returns with everything delivered, TERMINAL last, and nothing kept; doing it again does nothing. */
  lemma DestroyReturns(config: Config, steps: seq<Step>)
    requires config.rate > 0 && Enabled(Run(Init(config), steps), DoDestroyEnd)
    ensures var s := Run(Init(config), steps);
      var t := DestroyEnd(s);
      && t.life.destroyed && Cleared(t.stream) && !t.voice.alive
      && t.dispatcher.queue == [] && t.dispatcher.batch == [] && t.dispatcher.delivered == History(s.dispatcher)
      && t.dispatcher.delivered != []
      && t.dispatcher.delivered[|t.dispatcher.delivered| - 1] == Terminal(s.life.ending, s.life.error)
      && DestroyBegin(t) == t
  {
    EveryRun(config, steps);
  }

  /** What a producer that waits learns when the request is stopped: why. */
  lemma WaitingLearnsWhy(s: State, reason: Ending, room: nat, startOk: bool)
    requires Inv(s) && s.offer.Some? && !s.life.terminal && reason in {Cancelled, Superseded, Failed, ClosedDown}
    ensures var t := Stop(s, reason).0;
      && Enabled(t, DoSubmitCommit(room, startOk))
      && SubmitCommit(t, room, startOk)
         == (t.(offer := None),
             Refused(match reason case ClosedDown => Closed case Failed => DeviceError case _ => WrongState))
  {
    InterruptedCommit(Stop(s, reason).0, room, startOk);
  }

  /** And when the request failed with an error: that error. */
  lemma WaitingLearnsError(s: State, error: Status, room: nat, startOk: bool)
    requires Inv(s) && s.offer.Some? && !s.life.terminal && error != Ok
    ensures var t := Fail(s, error);
      Enabled(t, DoSubmitCommit(room, startOk)) && SubmitCommit(t, room, startOk).1 == Refused(error)
  {
    InterruptedCommit(Fail(s, error), room, startOk);
  }

  lemma InterruptedCommit(s: State, room: nat, startOk: bool)
    requires s.offer.Some? && |s.offer.value.pcm| > 0 && Interrupted(s.life)
    ensures Enabled(s, DoSubmitCommit(room, startOk))
    ensures SubmitCommit(s, room, startOk) == (s.(offer := None), Refused(InterruptionStatus(s.life)))
  {
  }

  // ----- Submission ----------------------------------------------------------------------

  /**
   * What `Submit` answers before it waits. A refusal for its arguments changes nothing; without
   * audio nothing changes either; otherwise the call waits with this audio, or the device has
   * refused the buffer that was pending.
   */
  lemma SubmitAnswers(config: Config, steps: seq<Step>, pcm: seq<byte>, bs: seq<Boundary>, takes: bool, startOk: bool)
    requires config.rate > 0
    ensures var s := Run(Init(config), steps);
      var (t, outcome) := SubmitEnter(s, pcm, bs, takes, startOk);
      var whole := |pcm| % BYTES_PER_FRAME == 0 && |pcm| <= UINT32_MAX;
      var ordered := ValidBoundaries(bs, |pcm| / BYTES_PER_FRAME, config.textLength);
      && (outcome == Refused(InvalidBoundary) <==> whole && !ordered)
      && (outcome == Refused(InvalidArgument) <==>
            !whole || (ordered && |pcm| > BYTES_PER_FRAME * config.HardCapacity()))
      && (outcome.Refused? && outcome.status != DeviceError ==> t == s)
      && (outcome.Accepted? ==> pcm == [] && t == s && s.life.accepting && outcome == Accepted(0, s.stream.bufferedFrames))
      && (whole && ordered && pcm == [] && !s.life.accepting ==>
            outcome == Refused(if s.life.ending == ClosedDown then Closed else WrongState))
      && (outcome == Refused(DeviceError) ==> EndedAs(t, Failed, DeviceError))
      && (outcome.Waits? ==> pcm != [] && t.offer.Some? && t.offer.value.pcm == pcm && t.offer.value.boundaries == bs)
  {
    EveryRun(config, steps);
    ConfigStays(Init(config), steps);
    var s := Run(Init(config), steps);
    if s.offer.None? { RequestSteps.SubmitEnterKeeps(s, pcm, bs, takes, startOk); }
  }

  /**
   * `FinishInput` on a request that takes no more input changes nothing. Otherwise it closes the
   * input: a request without audio has completed, one with audio plays on, started unless it is
   * paused; or the device refuses, and the request has failed.
   */
  lemma FinishAnswers(config: Config, steps: seq<Step>, takes: bool, startOk: bool)
    requires config.rate > 0 && Run(Init(config), steps).offer.None?
    ensures var s := Run(Init(config), steps);
      var (t, status) := FinishInput(s, takes, startOk);
      var silent := s.stream.acceptedFrames == 0;
      && (!s.life.accepting ==> status == WrongState && t == s)
      && (s.life.accepting ==>
            && !t.life.accepting && t.life.inputFinished
            && (status == Ok <==> silent || (takes && (s.voice.started || s.voice.paused || startOk)))
            && (status != Ok ==> status == DeviceError && EndedAs(t, Failed, DeviceError))
            && (status == Ok && silent ==> EndedAs(t, Completed, Ok))
            && (status == Ok && !silent ==>
                  !t.life.terminal && t.stream.pending.None? && (t.voice.started <==> s.voice.started || !s.voice.paused)))
  {
    EveryRun(config, steps);
    var s := Run(Init(config), steps);
    RequestSteps.FinishInputKeeps(s, takes, startOk);
  }

  /**
   * A call that waits goes on exactly when the request has ended or closed its input, or when its
   * audio fits four seconds and, if it found three seconds or more buffered or did not fit when it
   * came, no more than one second is left.
   */
  lemma WaitIsExact(config: Config, steps: seq<Step>, pcm: seq<byte>, bs: seq<Boundary>, takes: bool, startOk: bool, u: State)
    requires config.rate > 0 && u.config == config
    ensures var s := Run(Init(config), steps);
      var (t, outcome) := SubmitEnter(s, pcm, bs, takes, startOk);
      var frames := |pcm| / BYTES_PER_FRAME;
      var blocked := s.stream.bufferedFrames >= 3 * config.rate || s.stream.bufferedFrames + frames > 4 * config.rate;
      outcome.Waits? ==>
        && t.offer.Some?
        && (CapacityOpen(u, t.offer.value) <==>
              || !u.life.accepting || u.life.terminal || u.life.destroying
              || (u.stream.bufferedFrames + frames <= 4 * config.rate
                  && (blocked ==> u.stream.bufferedFrames <= config.rate)))
  {
    ConfigStays(Init(config), steps);
  }

  /** What a call that goes on answers: its frames and what is buffered with them, or why not. */
  lemma CommitAnswers(config: Config, steps: seq<Step>, room: nat, startOk: bool)
    requires config.rate > 0 && Enabled(Run(Init(config), steps), DoSubmitCommit(room, startOk))
    ensures var s := Run(Init(config), steps);
      var (t, outcome) := SubmitCommit(s, room, startOk);
      var frames := |s.offer.value.pcm| / BYTES_PER_FRAME;
      && t.offer.None?
      && (outcome.Accepted? ==>
            && s.life.accepting && outcome == Accepted(frames, t.stream.bufferedFrames)
            && t.stream.bufferedFrames == s.stream.bufferedFrames + frames)
      && (outcome.Refused? && s.life.accepting ==> outcome.status == DeviceError && EndedAs(t, Failed, DeviceError))
      && (!s.life.accepting ==> outcome.Refused? && t == s.(offer := None))
  {
    EveryRun(config, steps);
    var s := Run(Init(config), steps);
    RequestSteps.SubmitCommitKeeps(s, room, startOk);
    QueueCounts(s.config.ChunkFrames(), s.stream, s.offer.value.pcm, room);
  }

  lemma {:induction false} QueueCounts(chunk: nat, st: Stream, pcm: seq<byte>, room: nat)
    requires |pcm| > 0 && chunk > 0
    ensures var t := Queue(chunk, st, pcm, room).0; t.bufferedFrames == st.bufferedFrames && t.acceptedFrames == st.acceptedFrames
    decreases |pcm|
  {
    var size := chunk * BYTES_PER_FRAME;
    if |pcm| > size && room > 0 {
      QueueCounts(chunk, Hand(st, Buffer(pcm[..size], chunk, false), false), pcm[size..], room - 1);
    }
  }

  /** The buffers handed over since `from` hold exactly `size` bytes, and the pending one no more. */
  ghost predicate Even(st: Stream, from: nat, size: nat) {
    && (forall i :: from <= i < |st.log.handed| ==> |st.log.handed[i].pcm| == size)
    && st.pending.Some? && 0 < |st.pending.value.pcm| <= size
  }

  lemma {:induction false} QueueIsEven(chunk: nat, st: Stream, pcm: seq<byte>, room: nat, from: nat)
    requires |pcm| > 0 && chunk > 0 && from <= |st.log.handed| && Queue(chunk, st, pcm, room).1
    requires forall i :: from <= i < |st.log.handed| ==> |st.log.handed[i].pcm| == chunk * BYTES_PER_FRAME
    ensures Even(Queue(chunk, st, pcm, room).0, from, chunk * BYTES_PER_FRAME)
    decreases |pcm|
  {
    var size := chunk * BYTES_PER_FRAME;
    if |pcm| > size {
      QueueIsEven(chunk, Hand(st, Buffer(pcm[..size], chunk, false), false), pcm[size..], room - 1, from);
    }
  }

  /** An accepted submission reaches the device in tenths of a second; what is left over is pending. */
  lemma BuffersAreTenths(config: Config, steps: seq<Step>, room: nat, startOk: bool)
    requires config.rate > 0 && Enabled(Run(Init(config), steps), DoSubmitCommit(room, startOk))
    ensures var s := Run(Init(config), steps);
      var (t, outcome) := SubmitCommit(s, room, startOk);
      outcome.Accepted? ==> Even(t.stream, |s.stream.log.handed|, Max(1, config.rate / 10) * BYTES_PER_FRAME)
  {
    ConfigStays(Init(config), steps);
    var s := Run(Init(config), steps);
    if SubmitCommit(s, room, startOk).1.Accepted? {
      QueueIsEven(s.config.ChunkFrames(), s.stream, s.offer.value.pcm, room, |s.stream.log.handed|);
    }
  }

  // ----- Waking the dispatcher -----------------------------------------------------------

  /**
   * Whatever the device reports and whenever audio is accepted or the request ends, an idle
   * dispatcher has something to do.
   */
  lemma EverythingWakes(config: Config, steps: seq<Step>, step: Step, reading: Option<Reading>)
    requires config.rate > 0 && Enabled(Run(Init(config), steps), step)
    ensures var s := Run(Init(config), steps);
      var t := Apply(s, step);
      var happened := || step.DoProcessingPass? || step.DoStreamEnd? || step.DoBufferEnd? || step.DoVoiceFault?
                      || step.DoDestroyBegin? || t.stream.acceptedFrames > s.stream.acceptedFrames
                      || (t.life.terminal && !s.life.terminal && !step.DoDispatchPass?);
      happened && !t.dispatcher.exited && t.dispatcher.batch == [] ==> Enabled(t, DoDispatchPass(reading))
  {
    var s := Run(Init(config), steps);
    EveryRun(config, steps);
    InitKeeps(config);
    RunWakes(Init(config), steps);
    HappeningWakes(s, step);
  }

  lemma HappeningWakes(s: State, step: Step)
    requires Inv(s) && Wakeful(s) && Enabled(s, step)
    ensures var t := Apply(s, step);
      && (step.DoProcessingPass? || step.DoStreamEnd? || step.DoBufferEnd? || step.DoVoiceFault? || step.DoDestroyBegin? ==> Awake(t))
      && (t.stream.acceptedFrames > s.stream.acceptedFrames ==> Awake(t))
      && (t.life.terminal && !s.life.terminal && !step.DoDispatchPass? ==> Awake(t))
  {
    match step
    case DoSubmitEnter(_, _, _, _) => ProducerWakesUp(s, step);
    case DoSubmitCommit(_, _) => ProducerWakesUp(s, step);
    case DoFinishInput(_, _) => ProducerWakesUp(s, step);
    case DoBufferEnd(index) => BufferEndWakes(s, index);
    case DoPause(_) => ControlWakesUp(s, step);
    case DoResume(_) => ControlWakesUp(s, step);
    case DoStop(_) => ControlWakesUp(s, step);
    case DoDestroyBegin => DestroyWakes(s);
    case DoDispatchPass(reading) => PassAcceptsNothing(s, reading);
    case _ =>
  }

  lemma ControlWakesUp(s: State, step: Step)
    requires Wakeful(s) && Enabled(s, step) && (step.DoPause? || step.DoResume? || step.DoStop?)
    ensures var t := Apply(s, step);
      t.stream.acceptedFrames == s.stream.acceptedFrames && (t.life.terminal && !s.life.terminal ==> Awake(t))
  {
  }

  lemma DestroyWakes(s: State)
    requires Enabled(s, DoDestroyBegin) && (s.life.destroyed ==> s.life.destroying)
    ensures Awake(DestroyBegin(s))
  {
  }

  lemma BufferEndWakes(s: State, index: nat)
    requires index < |s.stream.submitted|
    ensures Awake(s.(stream := BufferEnd(s.stream, index)))
  {
    assert BufferEnd(s.stream, index).submitted[index].ended;
  }

  lemma ProducerWakesUp(s: State, step: Step)
    requires Wakeful(s) && Enabled(s, step)
    requires step.DoSubmitEnter? || step.DoSubmitCommit? || step.DoFinishInput?
    ensures var t := Apply(s, step);
      t.stream.acceptedFrames > s.stream.acceptedFrames || (t.life.terminal && !s.life.terminal) ==> Awake(t)
  {
    if step.DoSubmitCommit? { QueueCounts(s.config.ChunkFrames(), s.stream, s.offer.value.pcm, step.room); }
  }

  lemma PassAcceptsNothing(s: State, reading: Option<Reading>)
    ensures DispatchPass(s, reading).stream.acceptedFrames == s.stream.acceptedFrames
  {
  }

  /**
   * After a pass an idle dispatcher rests until something happens, unless the request is being
   * destroyed, the voice did not say where it is, or a fault came in for a request that has ended.
   */
  lemma PassRests(s: State, reading: Option<Reading>)
    requires Inv(s) && Enabled(s, DoDispatchPass(reading))
    ensures Awake(DispatchPass(s, reading)) <==>
              || s.life.destroying
              || (s.life.terminal && s.voice.fault != Ok)
              || (!s.life.terminal && s.voice.fault == Ok && s.voice.started && reading.None?)
  {
    NothingEndedLeft(s.stream.submitted);
    ObservingRests(Noted(s), reading);
    CompletingRests(Observe(Noted(s), reading));
  }

  /** Nothing the device counts is left to note. */
  ghost predicate Settled(s: State) {
    && s.signals.streamEnds == s.signals.seenStreamEnds && s.signals.passes == s.signals.seenPasses
    && s.signals.changes == s.signals.seenChanges && NoneEnded(s.stream.submitted)
  }

  lemma ObservingRests(s: State, reading: Option<Reading>)
    requires Settled(s) && (s.voice.started && !s.life.terminal ==> s.voice.alive)
    ensures var t := Observe(s, reading);
      && Settled(t) && t.life.destroying == s.life.destroying
      && (t.voice.fault != Ok <==>
            || (s.life.terminal && s.voice.fault != Ok)
            || (!s.life.terminal && s.voice.fault == Ok && s.voice.started && reading.None?))
  {
  }

  lemma CompletingRests(s: State)
    requires Settled(s)
    ensures var t := TakeBatch(CompleteIfReady(s)); Awake(t) <==> t.life.destroying || t.voice.fault != Ok
    ensures var t := TakeBatch(CompleteIfReady(s)); t.life.destroying == s.life.destroying && t.voice.fault == s.voice.fault
  {
  }

  lemma {:induction false} NothingEndedLeft(buffers: seq<Buffer>)
    ensures NoneEnded(Unplayed(buffers))
  {
    if buffers != [] { NothingEndedLeft(buffers[..|buffers| - 1]); }
  }

  /**
   * Such a fault is never taken: whatever happens from then on, the dispatcher of a request that
   * had ended when its device failed does not rest again.
   */
  lemma {:induction false} StaleFaultKeepsAwake(s: State, more: seq<Step>)
    requires Inv(s) && s.life.terminal && s.voice.fault != Ok
    ensures var t := Run(s, more); t.life.terminal && t.voice.fault != Ok && Awake(t)
    decreases |more|
  {
    if more != [] {
      if Enabled(s, more[0]) {
        RequestSteps.StepKeeps(s, more[0]);
        StaleFaultStays(s, more[0]);
        StaleFaultKeepsAwake(Apply(s, more[0]), more[1..]);
      } else {
        StaleFaultKeepsAwake(s, more[1..]);
      }
    }
  }

  lemma StaleFaultStays(s: State, step: Step)
    requires Inv(s) && Enabled(s, step) && s.life.terminal && s.voice.fault != Ok
    ensures var t := Apply(s, step); t.life.terminal && t.voice.fault != Ok
  {
  }

  /** A request that is stopped before the dispatcher has seen the fault of its device comes to that. */
  lemma StoppedAfterFault(config: Config)
    requires config.rate > 0
    ensures var s := Run(Init(config), [DoVoiceFault(DeviceError), DoStop(Cancelled)]);
      s.life.terminal && s.voice.fault != Ok && !s.life.destroying
  {
    var first := [DoVoiceFault(DeviceError), DoStop(Cancelled)];
    assert first[1..] == [DoStop(Cancelled)];
    var s := Apply(Init(config), DoVoiceFault(DeviceError));
    assert Run(s, [DoStop(Cancelled)]) == Run(Apply(s, DoStop(Cancelled)), []);
  }
}
