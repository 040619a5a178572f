/**
 * What holds of every run of a playback request: any sequence of producer calls, controls,
 * device notifications and dispatcher passes, in any interleaving, from its creation on.
 */
module RequestRuns {
  import opened AudioTypes
  import opened RequestModel
  import opened RequestInvariant
  import opened RequestSteps

  lemma {:induction false} RunKeeps(s: State, steps: seq<Step>)
    requires Inv(s)
    ensures Inv(Run(s, steps))
    decreases |steps|
  {
    if steps != [] {
      if Enabled(s, steps[0]) {
        StepKeeps(s, steps[0]);
        RunKeeps(Apply(s, steps[0]), steps[1..]);
      } else {
        RunKeeps(s, steps[1..]);
      }
    }
  }

  lemma {:induction false} RunConcat(s: State, a: seq<Step>, b: seq<Step>)
    ensures Run(s, a + b) == Run(Run(s, a), b)
    decreases |a|
  {
    if a == [] {
      assert a + b == b;
    } else {
      assert (a + b)[1..] == a[1..] + b;
      RunConcat(if Enabled(s, a[0]) then Apply(s, a[0]) else s, a[1..], b);
    }
  }

  lemma JustStarted(life: Life)
    requires !life.terminal
    ensures Tells(Dispatcher([Started], [], [], false, false), life, [])
  {
    assert History(Dispatcher([Started], [], [], false, false)) == [Started];
  }

  lemma InitKeeps(config: Config)
    requires config.rate > 0
    ensures Inv(Init(config))
  {
    JustStarted(Init(config).life);
  }

  lemma EveryRun(config: Config, steps: seq<Step>)
    requires config.rate > 0
    ensures Inv(Run(Init(config), steps))
  {
    InitKeeps(config);
    RunKeeps(Init(config), steps);
  }

  lemma RunOne(s: State, step: Step)
    requires Enabled(s, step)
    ensures Run(s, [step]) == Apply(s, step)
  {
    assert [step][1..] == [];
  }

  /** What some run leads to. Every theorem below about runs is about these states. */
  ghost predicate Reachable(s: State) {
    s.config.rate > 0 && exists steps: seq<Step> :: Run(Init(s.config), steps) == s
  }

  lemma InitIsReachable(config: Config)
    requires config.rate > 0
    ensures Reachable(Init(config))
  {
    assert Run(Init(config), []) == Init(config);
  }

  lemma StepStaysReachable(s: State, step: Step)
    requires Reachable(s) && Enabled(s, step)
    ensures Reachable(Apply(s, step))
  {
    var steps :| Run(Init(s.config), steps) == s;
    RunConcat(Init(s.config), steps, [step]);
    RunOne(s, step);
    ConfigStays(s, [step]);
  }

  lemma ReachableKeeps(s: State)
    requires Reachable(s)
    ensures Inv(s)
  {
    var steps :| Run(Init(s.config), steps) == s;
    EveryRun(s.config, steps);
  }

  // ----- Events --------------------------------------------------------------------------

  /**
   * The events delivered so far are the beginning of one well-formed session, and when
   * `Destroy` has returned they are all of it: TERMINAL was delivered, once, and last.
   */
  lemma DeliveredOneSession(config: Config, steps: seq<Step>)
    requires config.rate > 0
    ensures var s := Run(Init(config), steps);
      && s.dispatcher.delivered <= History(s.dispatcher)
      && OneSession(History(s.dispatcher), s.life.terminal)
      && (s.life.destroyed ==>
            && OneSession(s.dispatcher.delivered, true)
            && s.dispatcher.delivered[|s.dispatcher.delivered| - 1] == Terminal(s.life.ending, s.life.error))
  {
    EveryRun(config, steps);
    var d := Run(Init(config), steps).dispatcher;
    assert d.batch == [] && d.queue == [] ==> History(d) == d.delivered;
  }

  lemma {:induction false} WordsOfPrefix(a: seq<Event>, b: seq<Event>)
    requires a <= b
    ensures WordsOf(a) <= WordsOf(b)
  {
    assert b == a + b[|a|..];
    WordsOfConcat(a, b[|a|..]);
  }

  /**
   * The words delivered are always the first of the accepted words, in order and without
   * repetition; a completed and destroyed request has delivered every one of them.
   */
  lemma DeliveredWords(config: Config, steps: seq<Step>)
    requires config.rate > 0
    ensures var s := Run(Init(config), steps);
      && WordsOf(s.dispatcher.delivered) <= Ranges(s.stream.log.boundaries)
      && (s.life.destroyed && s.life.ending == Completed ==>
            WordsOf(s.dispatcher.delivered) == Ranges(s.stream.log.boundaries))
  {
    EveryRun(config, steps);
    var s := Run(Init(config), steps);
    var d := s.dispatcher;
    assert History(d) == d.delivered + (d.batch + d.queue);
    WordsOfPrefix(d.delivered, History(d));
    var log := s.stream.log;
    assert log.boundaries == log.words + log.boundaries[|log.words|..];
    RangesConcat(log.words, log.boundaries[|log.words|..]);
    if s.life.destroyed { assert History(d) == d.delivered; }
  }

  /** The boundaries heard are exactly those whose frame is audible, not just a front part. */
  lemma {:induction false} HeardExactly(bs: seq<Boundary>, audible: nat)
    requires Sorted(bs)
    ensures forall i :: 0 <= i < |bs| ==> (i < HeardCount(bs, audible) <==> bs[i].frame <= audible)
  {
    if bs != [] && bs[0].frame <= audible {
      HeardExactly(bs[1..], audible);
      assert forall i :: 0 < i < |bs| ==> bs[i] == bs[1..][i - 1];
    }
  }

  /**
   * A word leaves early exactly when its absolute frame has been heard: when that frame and the
   * output latency together are no more than what the voice has played. Until the latency has
   * passed only words at frame 0 leave.
   */
  lemma WordsFollowTheEar(config: Config, steps: seq<Step>, reading: Reading)
    requires config.rate > 0
    ensures var s := Run(Init(config), steps);
      var t := Observe(s, Some(reading));
      !s.life.terminal && s.voice.fault == Ok && s.voice.started ==>
        && |s.stream.log.words| <= |t.stream.log.words| && t.stream.log.boundaries == s.stream.log.boundaries
        && (forall i :: |s.stream.log.words| <= i < |s.stream.log.boundaries| ==>
              (i < |t.stream.log.words| <==>
               || s.stream.log.boundaries[i].frame + reading.latency <= reading.samplesPlayed
               || (reading.samplesPlayed <= reading.latency && s.stream.log.boundaries[i].frame == 0)))
  {
    EveryRun(config, steps);
    var s := Run(Init(config), steps);
    if !s.life.terminal { HeardNext(s.stream, AudibleFrames(reading)); }
  }

  /** The waiting boundaries are the rest of the accepted ones, so hearing counts along those. */
  lemma HeardNext(st: Stream, audible: nat)
    requires Sorted(st.log.boundaries) && st.log.words + st.boundaries == st.log.boundaries
    ensures forall i :: |st.log.words| <= i < |st.log.boundaries| ==>
      (i < |st.log.words| + HeardCount(st.boundaries, audible) <==> st.log.boundaries[i].frame <= audible)
  {
    assert st.boundaries == st.log.boundaries[|st.log.words|..];
    HeardExactly(st.boundaries, audible);
    forall i | |st.log.words| <= i < |st.log.boundaries|
      ensures st.log.boundaries[i] == st.boundaries[i - |st.log.words|] {
    }
  }

  // ----- Audio ---------------------------------------------------------------------------

  /**
   * No accepted byte is lost, repeated or moved: while the request lives, what the voice took
   * and what is pending are the accepted PCM; end of stream is marked once the input is
   * finished, on the last buffer and no other.
   */
  lemma ByteExactStream(config: Config, steps: seq<Step>)
    requires config.rate > 0
    ensures var s := Run(Init(config), steps);
      && EndMark(s.stream.log.handed, s.life.inputFinished)
      && (!s.life.terminal ==>
            && Flatten(s.stream.log.handed) + PendingPcm(s.stream) == s.stream.log.accepted
            && (s.life.inputFinished ==>
                  Flatten(s.stream.log.handed) == s.stream.log.accepted && EndsStream(s.stream.log.handed)))
  {
    EveryRun(config, steps);
  }

  /** COMPLETED is reached only when every accepted byte was handed over and every frame played. */
  lemma CompletedMeansPlayed(config: Config, steps: seq<Step>)
    requires config.rate > 0
    ensures var s := Run(Init(config), steps);
      s.life.ending == Completed ==>
        && Flatten(s.stream.log.handed) == s.stream.log.accepted
        && s.stream.log.reclaimed * BYTES_PER_FRAME == |s.stream.log.accepted|
        && s.stream.log.words == s.stream.log.boundaries
        && (s.stream.log.accepted != [] ==> EndsStream(s.stream.log.handed))
  {
    EveryRun(config, steps);
  }

  /** Frames are conserved, never exceed hard capacity, and reclaiming never goes below zero. */
  lemma FramesConserved(config: Config, steps: seq<Step>)
    requires config.rate > 0
    ensures var s := Run(Init(config), steps);
      && 0 <= s.stream.bufferedFrames <= config.HardCapacity()
      && EndedFrames(s.stream.submitted) <= s.stream.bufferedFrames
      && (!s.life.terminal ==>
            && s.stream.bufferedFrames == TotalFrames(s.stream.submitted) + PendingFrames(s.stream)
            && s.stream.acceptedFrames == s.stream.bufferedFrames + s.stream.log.reclaimed)
  {
    EveryRun(config, steps);
    ConfigStays(Init(config), steps);
    ReclaimSplits(Run(Init(config), steps).stream.submitted);
  }

  lemma {:induction false} ConfigStays(s: State, steps: seq<Step>)
    ensures Run(s, steps).config == s.config
    decreases |steps|
  {
    if steps != [] {
      ConfigStays(if Enabled(s, steps[0]) then Apply(s, steps[0]) else s, steps[1..]);
    }
  }

  // ----- Capacity ------------------------------------------------------------------------

  /** A producer is held back although the request is healthy and nobody paused it. */
  predicate HeldBack(s: State) {
    && s.offer.Some? && !CapacityOpen(s, s.offer.value)
    && !s.voice.paused && s.voice.fault == Ok
  }

  /** The largest submission that can never wait behind a voice that does not play. */
  function SafeSlice(config: Config): int { config.HardCapacity() - config.Prebuffer() + 1 }

  /**
   * A held-back producer waits for a voice that owns every buffered frame; that voice plays
   * exactly when the prebuffer was reached, and it does so behind every slice up to `SafeSlice`.
   */
  lemma HeldBackMeansPlaying(config: Config, steps: seq<Step>)
    requires config.rate > 0
    ensures var s := Run(Init(config), steps);
      HeldBack(s) ==> OwnsAll(s) && (s.offer.value.Frames() <= SafeSlice(config) ==> s.voice.started)
    ensures config.HighWater() <= SafeSlice(config) <= config.HardCapacity()
  {
    EveryRun(config, steps);
    ConfigStays(Init(config), steps);
    var s := Run(Init(config), steps);
    if HeldBack(s) { HeldBackOwnsAll(s); }
  }

  /** The voice holds every buffered frame and plays if the prebuffer was reached. */
  ghost predicate OwnsAll(s: State) {
    && s.voice.alive && s.stream.pending.None? && s.stream.submitted != []
    && s.stream.bufferedFrames == TotalFrames(s.stream.submitted)
    && (s.voice.started <==> s.stream.submittedFrames >= s.config.Prebuffer())
  }

  lemma HeldBackOwnsAll(s: State)
    requires Inv(s) && HeldBack(s)
    ensures OwnsAll(s) && (s.offer.value.Frames() <= SafeSlice(s.config) ==> s.voice.started)
  {
  }

  ghost predicate NoneEnded(buffers: seq<Buffer>) {
    forall i :: 0 <= i < |buffers| ==> !buffers[i].ended
  }

  lemma {:induction false} QueueEndsNone(chunk: nat, st: Stream, pcm: seq<byte>, room: nat)
    requires |pcm| > 0 && chunk > 0 && NoneEnded(st.submitted)
    ensures var (t, ok) := Queue(chunk, st, pcm, room);
      NoneEnded(t.submitted) && (ok ==> t.pending.Some? && !t.pending.value.ended)
    decreases |pcm|
  {
    var size := chunk * BYTES_PER_FRAME;
    if |pcm| > size && room > 0 {
      QueueEndsNone(chunk, Hand(st, Buffer(pcm[..size], chunk, false), false), pcm[size..], room - 1);
    }
  }

  /** One admitted submission just short of the prebuffer leaves the voice silent. */
  lemma SilentCommit(config: Config, pcm: seq<byte>)
    requires config.rate > 0
    requires |pcm| == (config.Prebuffer() - 1) * BYTES_PER_FRAME && 0 < |pcm|
    ensures var s := SubmitCommit(Init(config).(offer := Some(Offer(pcm, [], false))), |pcm|, true).0;
      && s.offer.None? && s.stream.pending.Some?
      && s.life == Init(config).life && s.voice == Init(config).voice
      && s.stream.bufferedFrames == s.stream.acceptedFrames == config.Prebuffer() - 1
      && NoneEnded(s.stream.submitted) && !s.stream.pending.value.ended
  {
    var st := Init(config).stream;
    QueueFits(config.ChunkFrames(), st, pcm, |pcm|);
    QueueEndsNone(config.ChunkFrames(), st, pcm, |pcm|);
    QueueFrames(config.ChunkFrames(), st, pcm, |pcm|);
  }

  lemma SilentStart(config: Config, pcm: seq<byte>) returns (steps: seq<Step>)
    requires config.rate > 0
    requires |pcm| == (config.Prebuffer() - 1) * BYTES_PER_FRAME && 0 < |pcm| <= UINT32_MAX
    ensures Run(Init(config), steps)
         == SubmitCommit(Init(config).(offer := Some(Offer(pcm, [], false))), |pcm|, true).0
  {
    var entered := Init(config).(offer := Some(Offer(pcm, [], false)));
    steps := [DoSubmitEnter(pcm, [], true, true)] + [DoSubmitCommit(|pcm|, true)];
    RunConcat(Init(config), [steps[0]], [steps[1]]);
    RunOne(Init(config), steps[0]);
    assert SubmitEnter(Init(config), pcm, [], true, true).0 == entered;
    RunOne(entered, steps[1]);
  }

  lemma SilenceIsChecked(config: Config, frames: nat)
    requires 0 < frames <= config.HardCapacity() && frames * BYTES_PER_FRAME <= UINT32_MAX
    ensures CheckSubmission(config, Silence(frames), []) == Ok && Silence(frames) != []
    ensures |Silence(frames)| / BYTES_PER_FRAME == frames
  {
  }

  lemma FlushIsSilent(silent: State, startOk: bool)
    requires Inv(silent) && !silent.life.terminal && silent.life.accepting && silent.stream.pending.Some?
    requires silent.stream.acceptedFrames < silent.config.Prebuffer()
    ensures var flushed := FlushPending(silent.stream, false);
      && flushed.bufferedFrames == silent.stream.bufferedFrames
      && flushed.submittedFrames == silent.stream.acceptedFrames
      && MaybeStart(silent.config, silent.voice, flushed, startOk) == silent.voice
  {
    FlushEffect(silent.config.HardCapacity(), silent.stream, false);
  }

  /** A larger offer made to the silent request is held back. */
  lemma OfferIsHeldBack(silent: State, frames: nat)
    requires Inv(silent) && silent.life == Init(silent.config).life && silent.voice == Init(silent.config).voice
    requires silent.offer.None? && silent.stream.pending.Some?
    requires silent.stream.bufferedFrames == silent.stream.acceptedFrames == silent.config.Prebuffer() - 1
    requires SafeSlice(silent.config) < frames <= silent.config.HardCapacity() && frames * BYTES_PER_FRAME <= UINT32_MAX
    ensures var s := SubmitEnter(silent, Silence(frames), [], true, true).0;
      HeldBack(s) && s.offer.value.Frames() == frames && !s.voice.started
  {
    SilenceIsChecked(silent.config, frames);
    FlushIsSilent(silent, true);
  }

  /** A producer held back by a voice that was not started and has less than the prebuffer. */
  ghost predicate Stuck(s: State) {
    && s.offer.Some? && !CapacityOpen(s, s.offer.value)
    && s.life.accepting && !s.life.inputFinished && !s.life.terminal && !s.life.destroying
    && s.voice.fault == Ok && !s.voice.started && s.stream.submittedFrames < s.config.Prebuffer()
    && NoneEnded(s.stream.submitted)
  }

  /** Nobody stops or destroys the request, and the silent device reports neither fault nor end. */
  predicate Undisturbing(step: Step) {
    !step.DoStop? && !step.DoDestroyBegin? && !step.DoVoiceFault? && !step.DoBufferEnd?
  }

  lemma {:induction false} NothingEnded(buffers: seq<Buffer>)
    requires NoneEnded(buffers)
    ensures Unplayed(buffers) == buffers && EndedFrames(buffers) == 0
  {
    if buffers != [] {
      NothingEnded(buffers[..|buffers| - 1]);
      assert buffers == buffers[..|buffers| - 1] + [buffers[|buffers| - 1]];
    }
  }

  /** A pass finds nothing to reclaim, to tell or to complete. */
  lemma PassLeavesStuck(s: State, reading: Option<Reading>)
    requires Stuck(s)
    ensures var t := DispatchPass(s, reading); Stuck(t) && t.offer == s.offer
  {
    NothingEnded(s.stream.submitted);
    assert Noted(s).stream == s.stream.(log := Noted(s).stream.log);
  }

  lemma StuckStaysOnce(s: State, step: Step)
    requires Stuck(s) && Enabled(s, step) && Undisturbing(step)
    ensures var t := Apply(s, step); Stuck(t) && t.offer == s.offer
  {
    if step.DoDispatchPass? { PassLeavesStuck(s, step.reading); }
  }

  /** Pausing, resuming, dispatcher passes and device ticks change nothing, however many. */
  lemma {:induction false} StuckStays(s: State, steps: seq<Step>)
    requires Stuck(s) && forall i :: 0 <= i < |steps| ==> Undisturbing(steps[i])
    ensures var t := Run(s, steps); Stuck(t) && t.offer == s.offer
    decreases |steps|
  {
    if steps != [] {
      if Enabled(s, steps[0]) {
        StuckStaysOnce(s, steps[0]);
        StuckStays(Apply(s, steps[0]), steps[1..]);
      } else {
        StuckStays(s, steps[1..]);
      }
    }
  }

  /** The larger offer is stuck, not only held back for a while. */
  lemma OfferIsStuck(silent: State, frames: nat)
    requires Inv(silent) && silent.life == Init(silent.config).life && silent.voice == Init(silent.config).voice
    requires silent.offer.None? && silent.stream.pending.Some?
    requires NoneEnded(silent.stream.submitted) && !silent.stream.pending.value.ended
    requires silent.stream.bufferedFrames == silent.stream.acceptedFrames == silent.config.Prebuffer() - 1
    requires SafeSlice(silent.config) < frames <= silent.config.HardCapacity() && frames * BYTES_PER_FRAME <= UINT32_MAX
    ensures Stuck(SubmitEnter(silent, Silence(frames), [], true, true).0)
  {
    OfferIsHeldBack(silent, frames);
    FlushEffect(silent.config.HardCapacity(), silent.stream, false);
  }

  /**
   * Every submission larger than `SafeSlice` can be held back for good: in every continuation
   * the offer is kept, its wait condition stays false and the voice is never started, until
   * somebody ends the request or the device misbehaves.
   */
  lemma LargerSliceSticks(config: Config, frames: nat) returns (steps: seq<Step>)
    requires config.rate > 0
    requires SafeSlice(config) < frames <= config.HardCapacity()
    requires frames * BYTES_PER_FRAME <= UINT32_MAX
    ensures var s := Run(Init(config), steps);
      HeldBack(s) && s.offer.value.Frames() == frames && !s.voice.started
    ensures forall more: seq<Step> | (forall i :: 0 <= i < |more| ==> Undisturbing(more[i])) ::
      var s, t := Run(Init(config), steps), Run(Init(config), steps + more);
      t.offer == s.offer && !CapacityOpen(t, s.offer.value) && !t.voice.started
  {
    var pcm := Silence(config.Prebuffer() - 1);
    var first := SilentStart(config, pcm);
    var silent := Run(Init(config), first);
    SilentCommit(config, pcm);
    EveryRun(config, first);
    ConfigStays(Init(config), first);
    OfferIsHeldBack(silent, frames);
    var step := DoSubmitEnter(Silence(frames), [], true, true);
    steps := first + [step];
    RunConcat(Init(config), first, [step]);
    RunOne(silent, step);
    OfferIsStuck(silent, frames);
    forall more: seq<Step> | (forall i :: 0 <= i < |more| ==> Undisturbing(more[i]))
      ensures var s, t := Run(Init(config), steps), Run(Init(config), steps + more);
        t.offer == s.offer && !CapacityOpen(t, s.offer.value) && !t.voice.started
    {
      RunConcat(Init(config), steps, more);
      StuckStays(Run(Init(config), steps), more);
    }
  }

  function Silence(frames: nat): (r: seq<byte>)
    ensures |r| == frames * BYTES_PER_FRAME
  {
    seq(frames * BYTES_PER_FRAME, _ => 0 as byte)
  }

  lemma {:induction false} QueueFits(chunk: nat, st: Stream, pcm: seq<byte>, room: nat)
    requires |pcm| > 0 && chunk > 0 && room >= |pcm|
    ensures Queue(chunk, st, pcm, room).1
    decreases |pcm|
  {
    var size := chunk * BYTES_PER_FRAME;
    if |pcm| > size {
      QueueFits(chunk, Hand(st, Buffer(pcm[..size], chunk, false), false), pcm[size..], room - 1);
    }
  }

  /**
   * Draining to low water admits every waiting slice exactly when the slice is at most high
   * water: low and high water together are hard capacity. Such a slice is admitted in every
   * reachable state at low water.
   */
  lemma LowWaterAdmits(config: Config, steps: seq<Step>)
    requires config.rate > 0
    ensures var s := Run(Init(config), steps);
      s.offer.Some? && !Interrupted(s.life) ==>
        (s.offer.value.Frames() <= config.HighWater() <==>
         forall left: nat :: left <= config.LowWater() ==>
           CapacityOpen(s.(stream := s.stream.(bufferedFrames := left)), s.offer.value))
    ensures var s := Run(Init(config), steps);
      s.offer.Some? && s.offer.value.Frames() <= config.HighWater() && s.stream.bufferedFrames <= config.LowWater() ==>
        CapacityOpen(s, s.offer.value)
  {
    ConfigStays(Init(config), steps);
    var s := Run(Init(config), steps);
    if s.offer.Some? && !Interrupted(s.life) {
      var full := s.(stream := s.stream.(bufferedFrames := config.LowWater()));
      assert CapacityOpen(full, s.offer.value) ==> s.offer.value.Frames() <= config.HighWater();
    }
  }

  /** The device has played everything it was given. */
  function AllEnded(buffers: seq<Buffer>): (r: seq<Buffer>)
    ensures |r| == |buffers|
  {
    seq(|buffers|, i requires 0 <= i < |buffers| => buffers[i].(ended := true))
  }

  lemma {:induction false} AllEndedReclaims(buffers: seq<Buffer>)
    ensures Unplayed(AllEnded(buffers)) == []
    ensures EndedFrames(AllEnded(buffers)) == TotalFrames(buffers)
  {
    if buffers != [] {
      var front := |buffers| - 1;
      AllEndedReclaims(buffers[..front]);
      assert AllEnded(buffers)[..front] == AllEnded(buffers[..front]);
    }
  }

  function EndAll(n: nat): (r: seq<Step>)
    ensures |r| == n
  {
    seq(n, i requires 0 <= i < n => DoBufferEnd(i))
  }

  lemma {:induction false} EndingAll(s: State, n: nat)
    requires n <= |s.stream.submitted|
    ensures var all := s.stream.submitted;
      Run(s, EndAll(n)) == s.(stream := s.stream.(submitted := AllEnded(all[..n]) + all[n..]))
  {
    var all := s.stream.submitted;
    if n == 0 {
      assert AllEnded(all[..0]) + all[0..] == all;
    } else {
      EndingAll(s, n - 1);
      var before := Run(s, EndAll(n - 1));
      assert EndAll(n) == EndAll(n - 1) + [DoBufferEnd(n - 1)];
      RunConcat(s, EndAll(n - 1), [DoBufferEnd(n - 1)]);
      RunOne(before, DoBufferEnd(n - 1));
      assert BufferEnd(before.stream, n - 1).submitted == AllEnded(all[..n]) + all[n..];
    }
  }

  /** With everything ended, nothing is buffered after the pass, or the wait is over anyway. */
  lemma PassAdmits(s: State, reading: Option<Reading>)
    requires Inv(s) && s.offer.Some? && s.dispatcher.batch == []
    requires s.stream.submitted == AllEnded(s.stream.submitted)
    ensures var t := Run(s, [DoDispatchPass(reading)]); t.offer == s.offer && CapacityOpen(t, s.offer.value)
  {
    AllEndedReclaims(s.stream.submitted);
    assert forall i :: 0 <= i < |s.stream.submitted| ==> s.stream.submitted[i] == AllEnded(s.stream.submitted)[i];
    if Enabled(s, DoDispatchPass(reading)) {
      RunOne(s, DoDispatchPass(reading));
      EndedPassAdmits(s, reading);
    } else {
      assert [DoDispatchPass(reading)][1..] == [];
    }
  }

  lemma EndedPassAdmits(s: State, reading: Option<Reading>)
    requires Inv(s) && s.offer.Some? && EndedFrames(s.stream.submitted) == TotalFrames(s.stream.submitted)
    ensures var t := DispatchPass(s, reading); t.offer == s.offer && CapacityOpen(t, s.offer.value)
  {
    assert !s.life.terminal ==> Noted(s).stream.bufferedFrames == 0;
  }

  /** The device ends every buffer it owns, and the dispatcher delivers its batch and passes once. */
  function PlayOut(s: State, reading: Option<Reading>): seq<Step> {
    EndAll(|s.stream.submitted|) + Deliveries(|s.dispatcher.batch|) + [DoDispatchPass(reading)]
  }

  /** From every reachable state these steps admit a waiting slice, whatever it is. */
  lemma PlayingOutAdmits(config: Config, steps: seq<Step>, reading: Option<Reading>)
    requires config.rate > 0
    ensures var s := Run(Init(config), steps);
      var t := Run(s, PlayOut(s, reading));
      s.offer.Some? ==> t.offer == s.offer && CapacityOpen(t, s.offer.value)
  {
    EveryRun(config, steps);
    var s := Run(Init(config), steps);
    if s.offer.Some? { PlayingOut(s, reading); }
  }

  lemma PlayingOut(s: State, reading: Option<Reading>)
    requires Inv(s) && s.offer.Some?
    ensures var t := Run(s, PlayOut(s, reading)); t.offer == s.offer && CapacityOpen(t, s.offer.value)
  {
    var all, n := s.stream.submitted, |s.stream.submitted|;
    EndingAll(s, n);
    assert all[..n] == all && AllEnded(all) + all[n..] == AllEnded(all) && AllEnded(AllEnded(all)) == AllEnded(all);
    var played := Run(s, EndAll(n));
    RunKeeps(s, EndAll(n));
    DeliveriesEmptyBatch(played);
    var quiet := Run(played, Deliveries(|s.dispatcher.batch|));
    RunKeeps(played, Deliveries(|s.dispatcher.batch|));
    RunConcat(s, EndAll(n), Deliveries(|s.dispatcher.batch|));
    RunConcat(s, EndAll(n) + Deliveries(|s.dispatcher.batch|), [DoDispatchPass(reading)]);
    PassAdmits(quiet, reading);
  }

  // ----- Ending --------------------------------------------------------------------------

  /** The records of what was accepted, handed over and told only grow. */
  ghost predicate LogGrows(a: Log, b: Log) {
    a.accepted <= b.accepted && a.boundaries <= b.boundaries && a.words <= b.words && a.handed <= b.handed
  }

  /** What is known of a request is never taken back: an ending stays, and the records only grow. */
  ghost predicate Continues(s: State, t: State) {
    && (s.life.terminal ==>
          && t.life.terminal && t.life.ending == s.life.ending && t.life.error == s.life.error
          && t.stream.log == s.stream.log && History(t.dispatcher) == History(s.dispatcher))
    && LogGrows(s.stream.log, t.stream.log)
    && History(s.dispatcher) <= History(t.dispatcher)
    && s.dispatcher.delivered <= t.dispatcher.delivered
  }

  lemma {:induction false} QueueGrows(chunk: nat, st: Stream, pcm: seq<byte>, room: nat)
    requires |pcm| > 0 && chunk > 0
    ensures var t := Queue(chunk, st, pcm, room).0;
      OnlyHands(st, t) && st.log.handed <= t.log.handed
    decreases |pcm|
  {
    var size := chunk * BYTES_PER_FRAME;
    if |pcm| > size && room > 0 {
      QueueGrows(chunk, Hand(st, Buffer(pcm[..size], chunk, false), false), pcm[size..], room - 1);
    }
  }

  lemma CommitContinues(s: State, room: nat, startOk: bool)
    requires Inv(s) && Enabled(s, DoSubmitCommit(room, startOk))
    ensures Continues(s, SubmitCommit(s, room, startOk).0)
  {
    QueueGrows(s.config.ChunkFrames(), s.stream, s.offer.value.pcm, room);
  }

  lemma ContinuesOn(s: State, t: State, u: State)
    requires Continues(s, t) && Continues(t, u)
    ensures Continues(s, u)
  {
  }

  lemma ObserveContinues(s: State, reading: Option<Reading>)
    requires Inv(s)
    ensures Continues(s, Observe(s, reading))
  {
    if !s.life.terminal && s.voice.fault == Ok && reading.Some? {
      var n := HeardCount(s.stream.boundaries, AudibleFrames(reading.value));
      WordsContinue(s, n);
      UnderrunContinues(QueueWords(s, n), s.life.accepting && !s.voice.paused && reading.value.buffersQueued == 0);
    }
  }

  lemma WordsContinue(s: State, n: nat)
    requires n <= |s.stream.boundaries| && !s.life.terminal
    ensures Continues(s, QueueWords(s, n)) && !QueueWords(s, n).life.terminal
  {
  }

  lemma UnderrunContinues(s: State, now: bool)
    requires !s.life.terminal
    ensures Continues(s, NoteUnderrun(s, now))
  {
  }

  lemma QuietPartsContinue(s: State)
    requires Inv(s)
    ensures Continues(s, Noted(s))
    ensures Continues(s, CompleteIfReady(s))
    ensures s.dispatcher.batch == [] ==> Continues(s, TakeBatch(s))
  {
    assert s.dispatcher.batch == [] ==> History(TakeBatch(s).dispatcher) == History(s.dispatcher);
  }

  lemma PassContinues(s: State, reading: Option<Reading>)
    requires Inv(s) && s.dispatcher.batch == []
    ensures Continues(s, DispatchPass(s, reading))
  {
    var noted := Noted(s);
    var seen := Observe(noted, reading);
    NotedKeeps(s);
    ObserveKeeps(noted, reading);
    QuietPartsContinue(s);
    ObserveContinues(noted, reading);
    ContinuesOn(s, noted, seen);
    FinishPassContinues(s, seen);
  }

  lemma FinishPassContinues(s: State, seen: State)
    requires Inv(seen) && Continues(s, seen) && seen.dispatcher.batch == []
    ensures Continues(s, TakeBatch(CompleteIfReady(seen)))
  {
    var done := CompleteIfReady(seen);
    CompleteIfReadyKeeps(seen);
    QuietPartsContinue(seen);
    ContinuesOn(s, seen, done);
    QuietPartsContinue(done);
    ContinuesOn(s, done, TakeBatch(done));
  }

  lemma DeliverContinues(s: State)
    requires s.dispatcher.batch != []
    ensures Continues(s, s.(dispatcher := Deliver(s.dispatcher)))
  {
    assert History(Deliver(s.dispatcher)) == History(s.dispatcher);
  }

  lemma ProducerContinues(s: State, step: Step)
    requires Inv(s) && Enabled(s, step)
    requires step.DoSubmitEnter? || step.DoSubmitCommit? || step.DoFinishInput?
    ensures Continues(s, Apply(s, step))
  {
    match step
    case DoSubmitEnter(pcm, bs, takes, startOk) => EnterContinues(s, pcm, bs, takes, startOk);
    case DoSubmitCommit(room, startOk) => CommitContinues(s, room, startOk);
    case DoFinishInput(takes, startOk) => FinishContinues(s, takes, startOk);
  }

  lemma EnterContinues(s: State, pcm: seq<byte>, bs: seq<Boundary>, takes: bool, startOk: bool)
    requires Inv(s) && s.offer.None?
    ensures Continues(s, SubmitEnter(s, pcm, bs, takes, startOk).0)
  {
  }

  lemma FinishContinues(s: State, takes: bool, startOk: bool)
    requires Inv(s) && s.offer.None?
    ensures Continues(s, FinishInput(s, takes, startOk).0)
  {
    if !Interrupted(s.life) {
      var finished := s.(life := CloseInput(s.life));
      FailContinues(finished);
      FlushContinues(finished);
      FailContinues(finished.(stream := FlushPending(s.stream, true)));
    }
  }

  lemma FailContinues(s: State)
    requires !s.life.terminal
    ensures Continues(s, Fail(s, DeviceError)) && Continues(s, SetTerminal(s, Completed, Ok))
  {
  }

  lemma FlushContinues(s: State)
    requires !s.life.terminal
    ensures LogGrows(s.stream.log, FlushPending(s.stream, true).log)
  {
  }

  lemma PauseContinues(s: State, pauseOk: bool)
    ensures Continues(s, Pause(s, pauseOk).0)
  {
    if !s.life.terminal { FailContinues(s); }
  }

  lemma ResumeContinues(s: State, startOk: bool)
    ensures Continues(s, Resume(s, startOk).0)
  {
    if !s.life.terminal { FailContinues(s.(voice := s.voice.(paused := false))); }
  }

  lemma AbortContinues(s: State, ending: Ending)
    requires !s.life.terminal
    ensures Continues(s, Abort(s, ending, Ok))
  {
  }

  lemma DestroyContinues(s: State)
    ensures Continues(s, DestroyBegin(s))
  {
    if !s.life.terminal { AbortContinues(s, ClosedDown); }
  }

  lemma StepContinues(s: State, step: Step)
    requires Inv(s) && Enabled(s, step)
    ensures Continues(s, Apply(s, step))
  {
    match step
    case DoPause(pauseOk) => PauseContinues(s, pauseOk);
    case DoResume(startOk) => ResumeContinues(s, startOk);
    case DoStop(reason) => if !s.life.terminal { AbortContinues(s, reason); }
    case DoDestroyBegin => DestroyContinues(s);
    case DoSubmitEnter(_, _, _, _) => ProducerContinues(s, step);
    case DoSubmitCommit(_, _) => ProducerContinues(s, step);
    case DoFinishInput(_, _) => ProducerContinues(s, step);
    case DoDispatchPass(reading) => PassContinues(s, reading);
    case DoDeliver => DeliverContinues(s);
    case _ =>
  }

  lemma {:induction false} RunContinues(s: State, steps: seq<Step>)
    requires Inv(s)
    ensures Continues(s, Run(s, steps))
    decreases |steps|
  {
    if steps != [] {
      if Enabled(s, steps[0]) {
        var next := Apply(s, steps[0]);
        StepKeeps(s, steps[0]);
        StepContinues(s, steps[0]);
        RunContinues(next, steps[1..]);
      } else {
        RunContinues(s, steps[1..]);
      }
    }
  }

  // ----- Waiting for the dispatcher ------------------------------------------------------

  /** The idle dispatcher never sleeps on a request that has played out. */
  predicate Wakeful(s: State) {
    && s.signals.seenStreamEnds <= s.signals.streamEnds
    && s.signals.seenPasses <= s.signals.passes
    && s.signals.seenChanges <= s.signals.changes
    && (ReadyToComplete(s) ==> Awake(s))
  }

  /** A pass either ends a played-out request or leaves one that is not played out. */
  lemma PassWakes(s: State, reading: Option<Reading>)
    requires Inv(s) && Wakeful(s) && s.dispatcher.batch == []
    ensures Wakeful(DispatchPass(s, reading))
  {
    var seen := Observe(Noted(s), reading);
    assert !ReadyToComplete(CompleteIfReady(seen));
  }

  lemma ProducerWakes(s: State, step: Step)
    requires Inv(s) && Wakeful(s) && Enabled(s, step)
    requires step.DoSubmitEnter? || step.DoSubmitCommit? || step.DoFinishInput?
    ensures Wakeful(Apply(s, step))
  {
    if step.DoSubmitCommit? {
      QueueGrows(s.config.ChunkFrames(), s.stream, s.offer.value.pcm, step.room);
    }
  }

  lemma StepWakes(s: State, step: Step)
    requires Inv(s) && Wakeful(s) && Enabled(s, step)
    ensures Wakeful(Apply(s, step))
  {
    match step
    case DoSubmitEnter(_, _, _, _) => ProducerWakes(s, step);
    case DoSubmitCommit(_, _) => ProducerWakes(s, step);
    case DoFinishInput(_, _) => ProducerWakes(s, step);
    case DoDispatchPass(reading) => PassWakes(s, reading);
    case _ =>
  }

  lemma {:induction false} RunWakes(s: State, steps: seq<Step>)
    requires Inv(s) && Wakeful(s)
    ensures Wakeful(Run(s, steps))
    decreases |steps|
  {
    if steps != [] {
      if Enabled(s, steps[0]) {
        StepKeeps(s, steps[0]);
        StepWakes(s, steps[0]);
        RunWakes(Apply(s, steps[0]), steps[1..]);
      } else {
        RunWakes(s, steps[1..]);
      }
    }
  }

  /**
   * Once everything has played, what the idle dispatcher waits for holds, and its next pass ends
   * the request, as COMPLETED unless the device has reported a fault.
   */
  lemma PlayedOutCompletes(config: Config, steps: seq<Step>, reading: Option<Reading>)
    requires config.rate > 0
    ensures var s := Run(Init(config), steps);
      ReadyToComplete(s) && s.dispatcher.batch == [] ==>
        && Enabled(s, DoDispatchPass(reading))
        && DispatchPass(s, reading).life.ending == (if s.voice.fault == Ok then Completed else Failed)
  {
    EveryRun(config, steps);
    InitKeeps(config);
    RunWakes(Init(config), steps);
    var s := Run(Init(config), steps);
    if ReadyToComplete(s) { assert Unplayed([]) == []; }
  }

  function Deliveries(n: nat): (r: seq<Step>)
    ensures |r| == n
  {
    seq(n, _ => DoDeliver)
  }

  /** What the dispatcher does on its own with what it holds now. */
  function Drain(d: Dispatcher, reading: Option<Reading>): seq<Step> {
    Deliveries(|d.batch|) + [DoDispatchPass(reading)] + Deliveries(|d.queue|) + [DoDispatchPass(reading)]
  }

  lemma {:induction false} DeliveriesEmptyBatch(s: State)
    ensures var d := s.dispatcher;
      var t := Run(s, Deliveries(|d.batch|));
      && t == s.(dispatcher := t.dispatcher)
      && t.dispatcher == d.(batch := [], delivered := d.delivered + d.batch,
                            terminalDelivered := t.dispatcher.terminalDelivered)
    decreases |s.dispatcher.batch|
  {
    var d := s.dispatcher;
    if d.batch == [] {
      assert d.delivered + [] == d.delivered;
    } else {
      var next := Deliver(d);
      DeliveriesEmptyBatch(s.(dispatcher := next));
      assert Deliveries(|d.batch|)[1..] == Deliveries(|next.batch|);
      assert next.delivered + next.batch == d.delivered + d.batch;
    }
  }

  /** On an ended request a pass only takes the queue over. */
  lemma PassOnEnded(s: State, reading: Option<Reading>)
    requires Inv(s) && s.life.terminal
    ensures DispatchPass(s, reading).dispatcher == TakeBatch(s).dispatcher
    ensures DispatchPass(s, reading).life == s.life
  {
  }

  /**
   * Whatever state an ended request is in, the dispatcher alone delivers all its events, so the
   * wait in `Stop` ends; and if the request is being destroyed the dispatcher then exits, so
   * the join in `Destroy` returns with TERMINAL delivered.
   */
  lemma DrainFinishes(config: Config, steps: seq<Step>, reading: Option<Reading>)
    requires config.rate > 0
    ensures var s := Run(Init(config), steps);
      var t := Run(s, Drain(s.dispatcher, reading));
      s.life.terminal ==>
        && t.dispatcher.delivered == History(s.dispatcher)
        && t.dispatcher.terminalDelivered
        && (s.life.destroying ==> t.dispatcher.exited)
  {
    EveryRun(config, steps);
    var s := Run(Init(config), steps);
    if s.life.terminal { DrainEnded(s, reading); }
  }

  lemma DrainEnded(s: State, reading: Option<Reading>)
    requires Inv(s) && s.life.terminal
    ensures var t := Run(s, Drain(s.dispatcher, reading));
      && t.dispatcher.delivered == History(s.dispatcher)
      && t.dispatcher.terminalDelivered
      && (s.life.destroying ==> t.dispatcher.exited)
  {
    var d := s.dispatcher;
    var pass := [DoDispatchPass(reading)];
    RunConcat(s, Deliveries(|d.batch|) + pass + Deliveries(|d.queue|), pass);
    RunConcat(s, Deliveries(|d.batch|) + pass, Deliveries(|d.queue|));
    RunConcat(s, Deliveries(|d.batch|), pass);
    DeliveriesEmptyBatch(s);
    RunKeeps(s, Deliveries(|d.batch|));
    var quiet := Run(s, Deliveries(|d.batch|));
    var taken := Run(quiet, pass);
    TakeQueue(quiet, reading);
    DeliveriesEmptyBatch(taken);
    RunKeeps(taken, Deliveries(|d.queue|));
    var done := Run(taken, Deliveries(|d.queue|));
    assert done.dispatcher.delivered == History(d);
    TakeQueue(done, reading);
    assert done.life == s.life;
  }

  /** One pass with nothing left to deliver takes the whole queue, or ends the thread. */
  lemma TakeQueue(s: State, reading: Option<Reading>)
    requires Inv(s) && s.life.terminal && s.dispatcher.batch == []
    ensures var t := Run(s, [DoDispatchPass(reading)]);
      && Inv(t) && t.life == s.life && t.dispatcher.delivered == s.dispatcher.delivered
      && t.dispatcher.batch == s.dispatcher.queue && t.dispatcher.queue == []
      && (s.life.destroying && s.dispatcher.queue == [] ==> t.dispatcher.exited)
      && (s.dispatcher.queue == [] ==> t.dispatcher.terminalDelivered)
  {
    var step := DoDispatchPass(reading);
    if Enabled(s, step) {
      RunOne(s, step);
      StepKeeps(s, step);
      PassOnEnded(s, reading);
      NothingLeft(TakeBatch(s).dispatcher);
    } else {
      assert [step][1..] == [];
      NothingLeft(s.dispatcher);
    }
  }

  lemma NothingLeft(d: Dispatcher)
    ensures d.batch == [] && d.queue == [] ==> History(d) == d.delivered
  {
  }
}
