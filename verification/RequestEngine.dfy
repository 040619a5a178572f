/**
 * The playback request as the engine runs it: one object whose fields are updated under its
 * mutex. Each method is one lock-held section and is proved to be the step of `RequestModel`
 * it is named after; the ones a thread enters from outside also keep `Valid`. So every theorem
 * about runs of the model is about this object.
 */
module RequestEngine {
  import opened AudioTypes
  import opened RequestModel
  import opened RequestInvariant
  import opened RequestRuns

  class AudioRequest {
    const config: Config
    // The audio and the words that are still on their way.
    var pending: Option<Buffer>
    var submitted: seq<Buffer>
    var boundaries: seq<Boundary>
    var acceptedFrames: nat
    var submittedFrames: nat
    var bufferedFrames: int
    // Flags and counters.
    var life: Life
    var voice: Voice
    var signals: Signals
    var offer: Option<Offer>
    // The dispatcher thread.
    var queue: seq<Event>
    var batch: seq<Event>
    var terminalDelivered: bool
    var exited: bool
    // History: nothing the engine keeps, only what the contracts speak of.
    ghost var log: Log
    ghost var delivered: seq<Event>

    ghost function StreamView(): Stream
      reads this
    {
      Stream(pending, submitted, boundaries, acceptedFrames, submittedFrames, bufferedFrames, log)
    }

    ghost function DispatcherView(): Dispatcher
      reads this
    {
      Dispatcher(queue, batch, delivered, terminalDelivered, exited)
    }

    ghost function View(): State
      reads this
    {
      State(config, StreamView(), life, voice, DispatcherView(), signals, offer)
    }

    /** The object is where some run of the model leads. */
    ghost predicate Valid()
      reads this
    {
      Reachable(View())
    }

    /** So every theorem about the model's states is about this object. */
    lemma ValidKeeps()
      requires Valid()
      ensures Inv(View())
    {
      ReachableKeeps(View());
    }

    /** A request whose voice was created. */
    constructor (config: Config)
      requires config.rate > 0
      ensures View() == Init(config) && Valid()
    {
      this.config := config;
      pending, submitted, boundaries := None, [], [];
      acceptedFrames, submittedFrames, bufferedFrames := 0, 0, 0;
      life := Life(true, false, false, NotEnded, Ok, false, false);
      voice := Voice(true, false, false, false, Ok);
      signals := Signals(0, 0, 0, 0, 0, 0);
      offer := None;
      queue, batch, terminalDelivered, exited := [Started], [], false, false;
      log, delivered := Log([], [], [], [], 0), [];
      InitIsReachable(config);
    }

    // ----- Ending ------------------------------------------------------------------------

    method SetTerminalLocked(ending: Ending, error: Status)
      modifies `life, `voice, `queue
      ensures View() == SetTerminal(old(View()), ending, error)
    {
      if life.terminal { return; }
      voice := voice.(alive := false);
      life := life.(terminal := true, ending := ending, error := error);
      queue := queue + [Terminal(ending, error)];
    }

    method ClearLocked()
      modifies `pending, `submitted, `boundaries, `bufferedFrames
      ensures StreamView() == Clear(old(StreamView()))
    {
      pending, submitted, boundaries, bufferedFrames := None, [], [], 0;
    }

    method AbortLocked(ending: Ending, error: Status)
      modifies `pending, `submitted, `boundaries, `bufferedFrames, `life, `voice, `queue
      ensures View() == Abort(old(View()), ending, error)
    {
      ClearLocked();
      life := life.(accepting := false, inputFinished := true);
      SetTerminalLocked(ending, error);
    }

    method FailLocked(error: Status)
      modifies `pending, `submitted, `boundaries, `bufferedFrames, `life, `voice, `queue
      ensures View() == Fail(old(View()), error)
    {
      if !life.terminal { AbortLocked(Failed, error); }
    }

    // ----- Producer ----------------------------------------------------------------------

    /** Refuses unordered boundaries and those outside the submission or the request text. */
    static method ValidateBoundaries(bs: seq<Boundary>, frames: nat, textLength: nat) returns (ok: bool)
      ensures ok <==> ValidBoundaries(bs, frames, textLength)
    {
      var previous := 0;
      for i := 0 to |bs|
        invariant ValidBoundaries(bs[..i], frames, textLength)
        invariant i > 0 ==> previous == bs[i - 1].frame
      {
        var b := bs[i];
        if (i != 0 && b.frame < previous) || b.frame > frames || !FitsText(b, textLength) {
          return false;
        }
        assert bs[..i + 1][..i] == bs[..i];
        previous := b.frame;
      }
      assert bs[..|bs|] == bs;
      return true;
    }

    /** Hands the pending buffer to the voice; a refused buffer stays pending. */
    method SubmitPendingLocked(endOfStream: bool, takes: bool)
      requires pending.Some?
      modifies `pending, `submittedFrames, `submitted, `log
      ensures StreamView() == if takes then FlushPending(old(StreamView()), endOfStream) else old(StreamView())
    {
      if takes {
        HandLocked(pending.value, endOfStream);
        pending := None;
      }
    }

    /** The voice took `buffer`. */
    method HandLocked(buffer: Buffer, endOfStream: bool)
      modifies `submittedFrames, `submitted, `log
      ensures StreamView() == Hand(old(StreamView()), buffer, endOfStream)
    {
      submittedFrames := submittedFrames + buffer.frames;
      submitted := submitted + [buffer];
      log := log.(handed := log.handed + [Handed(buffer.pcm, endOfStream)]);
    }

    method QueueSubmissionLocked(pcm: seq<byte>, frames: nat, room: nat) returns (ok: bool)
      requires |pcm| == frames * BYTES_PER_FRAME && frames > 0
      modifies `pending, `submittedFrames, `submitted, `log
      ensures (StreamView(), ok) == Queue(config.ChunkFrames(), old(StreamView()), pcm, room)
    {
      var chunk := config.ChunkFrames();
      var offset, left := 0, room;
      assert pcm[0..] == pcm;
      while offset < frames
        invariant 0 <= offset <= frames
        invariant offset < frames ==>
          Queue(chunk, StreamView(), pcm[offset * BYTES_PER_FRAME..], left) == Queue(chunk, old(StreamView()), pcm, room)
        invariant offset == frames ==> (StreamView(), true) == Queue(chunk, old(StreamView()), pcm, room)
      {
        var count := Min(chunk, frames - offset);
        var from := offset * BYTES_PER_FRAME;
        var upto := (offset + count) * BYTES_PER_FRAME;
        var buffer := Buffer(pcm[from..upto], count, false);
        if offset + count == frames {
          assert pcm[from..upto] == pcm[from..];
          pending := Some(buffer);
        } else {
          assert pcm[from..][..count * BYTES_PER_FRAME] == pcm[from..upto];
          assert pcm[from..][count * BYTES_PER_FRAME..] == pcm[upto..];
          if left == 0 { return false; }
          left := left - 1;
          HandLocked(buffer, false);
        }
        offset := offset + count;
      }
      return true;
    }

    method MaybeStartLocked(startOk: bool)
      modifies `voice
      ensures voice == MaybeStart(config, old(voice), StreamView(), startOk)
    {
      if submittedFrames >= config.Prebuffer() {
        if voice.paused || voice.started || submitted == [] { return; }
        if startOk {
          voice := voice.(started := true);
        } else {
          voice := voice.(fault := DeviceError);
        }
      }
    }

    /** Flushes what was pending and notes what is offered. */
    method BeginWaitLocked(pcm: seq<byte>, bs: seq<Boundary>, takes: bool, startOk: bool) returns (outcome: SubmitOutcome)
      modifies this
      ensures (View(), outcome) == BeginWait(old(View()), pcm, bs, takes, startOk)
    {
      if pending.Some? {
        SubmitPendingLocked(false, takes);
        if !takes {
          FailLocked(DeviceError);
          return Refused(DeviceError);
        }
        MaybeStartLocked(startOk);
      }
      var blocked := bufferedFrames >= config.HighWater()
                     || bufferedFrames + |pcm| / BYTES_PER_FRAME > config.HardCapacity();
      offer := Some(Offer(pcm, bs, blocked));
      return Waits;
    }

    /** `Submit` up to the capacity wait. */
    method SubmitUntilWait(pcm: seq<byte>, bs: seq<Boundary>, takes: bool, startOk: bool)
      returns (outcome: SubmitOutcome)
      requires Valid() && Enabled(View(), DoSubmitEnter(pcm, bs, takes, startOk))
      modifies this
      ensures (View(), outcome) == SubmitEnter(old(View()), pcm, bs, takes, startOk)
      ensures Valid()
    {
      StepStaysReachable(View(), DoSubmitEnter(pcm, bs, takes, startOk));
      if |pcm| % BYTES_PER_FRAME != 0 || |pcm| > UINT32_MAX { return Refused(InvalidArgument); }
      var frames := |pcm| / BYTES_PER_FRAME;
      var valid := ValidateBoundaries(bs, frames, config.textLength);
      if !valid { return Refused(InvalidBoundary); }
      if frames == 0 {
        if !life.accepting || life.terminal || life.destroying {
          return Refused(if life.ending == ClosedDown then Closed else WrongState);
        }
        return Accepted(0, bufferedFrames);
      }
      if frames > config.HardCapacity() { return Refused(InvalidArgument); }
      outcome := BeginWaitLocked(pcm, bs, takes, startOk);
    }

    /** Counts a queued submission as accepted. */
    method AdmitLocked(pcm: seq<byte>, bs: seq<Boundary>)
      modifies `boundaries, `acceptedFrames, `bufferedFrames, `log
      ensures StreamView() == Admit(old(StreamView()), pcm, bs)
    {
      var absolute := Shift(bs, acceptedFrames);
      var frames := |pcm| / BYTES_PER_FRAME;
      boundaries := boundaries + absolute;
      acceptedFrames := acceptedFrames + frames;
      bufferedFrames := bufferedFrames + frames;
      log := log.(accepted := log.accepted + pcm, boundaries := log.boundaries + absolute);
    }

    /** What follows a submission that was queued whole. */
    method AcceptLocked(waiting: Offer, startOk: bool)
      modifies `boundaries, `acceptedFrames, `bufferedFrames, `log, `voice, `signals
      ensures View() == Accept(old(View()), waiting, startOk)
    {
      AdmitLocked(waiting.pcm, waiting.boundaries);
      MaybeStartLocked(startOk);
      signals := signals.(changes := signals.changes + 1);
    }

    /** Hands the offered audio over; it is accepted whole, or the request fails. */
    method QueueAndAcceptLocked(waiting: Offer, room: nat, startOk: bool) returns (outcome: SubmitOutcome)
      requires |waiting.pcm| > 0 && |waiting.pcm| % BYTES_PER_FRAME == 0
      modifies this
      ensures (View(), outcome) == QueueAndAccept(old(View()), waiting, room, startOk)
    {
      var ok := QueueSubmissionLocked(waiting.pcm, waiting.Frames(), room);
      if !ok {
        FailLocked(DeviceError);
        return Refused(DeviceError);
      }
      AcceptLocked(waiting, startOk);
      return Accepted(waiting.Frames(), bufferedFrames);
    }

    /** `Submit` after the capacity wait. */
    method SubmitAfterWait(room: nat, startOk: bool) returns (outcome: SubmitOutcome)
      requires Valid() && Enabled(View(), DoSubmitCommit(room, startOk))
      modifies this
      ensures (View(), outcome) == SubmitCommit(old(View()), room, startOk)
      ensures Valid()
    {
      StepStaysReachable(View(), DoSubmitCommit(room, startOk));
      assert |offer.value.pcm| % BYTES_PER_FRAME == 0 by { ValidKeeps(); }
      var waiting := offer.value;
      offer := None;
      if !life.accepting || life.terminal || life.destroying {
        return Refused(
          if life.ending == ClosedDown || life.destroying then Closed
          else if life.ending == Failed then if life.error == Ok then DeviceError else life.error
          else WrongState);
      }
      outcome := QueueAndAcceptLocked(waiting, room, startOk);
    }

    method PlayTheRestLocked(startOk: bool) returns (status: Status)
      modifies `pending, `submitted, `boundaries, `bufferedFrames, `life, `voice, `queue
      ensures (View(), status) == PlayTheRest(old(View()), startOk)
    {
      if submitted == [] {
        SetTerminalLocked(Completed, Ok);
      } else if !voice.paused && !voice.started {
        if !startOk {
          FailLocked(DeviceError);
          return DeviceError;
        }
        voice := voice.(started := true);
      }
      return Ok;
    }

    method FinishInputNow(takes: bool, startOk: bool) returns (status: Status)
      requires Valid() && Enabled(View(), DoFinishInput(takes, startOk))
      modifies this
      ensures (View(), status) == FinishInput(old(View()), takes, startOk)
      ensures Valid()
    {
      StepStaysReachable(View(), DoFinishInput(takes, startOk));
      if life.terminal || life.destroying || !life.accepting { return WrongState; }
      life := life.(accepting := false, inputFinished := true);
      if pending.Some? {
        SubmitPendingLocked(true, takes);
        if !takes {
          FailLocked(DeviceError);
          return DeviceError;
        }
      }
      status := PlayTheRestLocked(startOk);
    }

    // ----- Controls ----------------------------------------------------------------------

    method PauseNow(pauseOk: bool) returns (status: Status)
      requires Valid()
      modifies this
      ensures (View(), status) == Pause(old(View()), pauseOk)
      ensures Valid()
    {
      StepStaysReachable(View(), DoPause(pauseOk));
      if life.terminal || life.destroying { return WrongState; }
      if voice.paused { return Ok; }
      if voice.started && !pauseOk {
        FailLocked(DeviceError);
        return DeviceError;
      }
      voice := voice.(paused := true);
      return Ok;
    }

    method ResumeNow(startOk: bool) returns (status: Status)
      requires Valid()
      modifies this
      ensures (View(), status) == Resume(old(View()), startOk)
      ensures Valid()
    {
      StepStaysReachable(View(), DoResume(startOk));
      if life.terminal || life.destroying { return WrongState; }
      if !voice.paused { return Ok; }
      voice := voice.(paused := false);
      var shouldStart := voice.started || life.inputFinished || submittedFrames >= config.Prebuffer();
      if shouldStart && voice.alive {
        if !startOk {
          FailLocked(DeviceError);
          return DeviceError;
        }
        voice := voice.(started := true);
      }
      return Ok;
    }

    /** `Stop` up to the wait for the delivery of TERMINAL. */
    method StopUntilWait(reason: Ending) returns (status: Status)
      requires Valid()
      modifies this
      ensures (View(), status) == Stop(old(View()), reason)
      ensures Valid()
    {
      StepStaysReachable(View(), DoStop(reason));
      if !IsStopReason(reason) { return InvalidArgument; }
      if life.terminal { return Ok; }
      AbortLocked(reason, Ok);
      return Ok;
    }

    method DestroyUntilJoin()
      requires Valid() && Enabled(View(), DoDestroyBegin)
      modifies this
      ensures View() == DestroyBegin(old(View()))
      ensures Valid()
    {
      StepStaysReachable(View(), DoDestroyBegin);
      if life.destroyed { return; }
      if !life.terminal { AbortLocked(ClosedDown, Ok); }
      life := life.(destroying := true);
    }

    method DropWaiting()
      modifies `pending, `submitted, `boundaries
      ensures StreamView() == old(StreamView()).(pending := None, submitted := [], boundaries := [])
    {
      pending, submitted, boundaries := None, [], [];
    }

    method DestroyAfterJoin()
      requires Valid() && Enabled(View(), DoDestroyEnd)
      modifies this
      ensures View() == DestroyEnd(old(View()))
      ensures Valid()
    {
      StepStaysReachable(View(), DoDestroyEnd);
      voice := voice.(alive := false);
      DropWaiting();
      queue := [];
      life := life.(destroyed := true);
    }

    // ----- Device notifications ----------------------------------------------------------

    method OnBufferEnd(index: nat)
      requires Valid() && Enabled(View(), DoBufferEnd(index))
      modifies `submitted
      ensures StreamView() == BufferEnd(old(StreamView()), index)
      ensures Valid()
    {
      StepStaysReachable(View(), DoBufferEnd(index));
      var ended := submitted[index].(ended := true);
      submitted := submitted[index := ended];
    }

    method OnStreamEnd()
      requires Valid()
      modifies `signals
      ensures signals == old(signals).(streamEnds := old(signals).streamEnds + 1)
      ensures Valid()
    {
      StepStaysReachable(View(), DoStreamEnd);
      signals := signals.(streamEnds := signals.streamEnds + 1);
    }

    method OnProcessingPassEnd()
      requires Valid()
      modifies `signals
      ensures signals == old(signals).(passes := old(signals).passes + 1)
      ensures Valid()
    {
      StepStaysReachable(View(), DoProcessingPass);
      signals := signals.(passes := signals.passes + 1);
    }

    method OnVoiceError(status: Status)
      requires Valid()
      modifies `voice
      ensures voice == VoiceFault(old(voice), status)
      ensures Valid()
    {
      StepStaysReachable(View(), DoVoiceFault(status));
      voice := voice.(fault := if status == Ok then DeviceError else status);
    }

    // ----- Dispatcher --------------------------------------------------------------------

    /** Erases the ended buffers in place, from the front to the back of the list. */
    method ReclaimEndedBuffersLocked()
      modifies `submitted, `bufferedFrames, `log
      ensures StreamView() == Reclaim(old(StreamView()))
    {
      var i := 0;
      ghost var all := submitted;
      ghost var seen := 0;
      while i < |submitted|
        invariant 0 <= i <= |submitted| && 0 <= seen <= |all|
        invariant submitted[i..] == all[seen..]
        invariant submitted[..i] == Unplayed(all[..seen])
        invariant bufferedFrames == old(bufferedFrames) - EndedFrames(all[..seen])
        invariant log == old(log).(reclaimed := old(log).reclaimed + EndedFrames(all[..seen]))
        decreases |submitted| - i
      {
        var buffer := submitted[i];
        assert buffer == submitted[i..][0] == all[seen];
        assert submitted[i + 1..] == submitted[i..][1..] == all[seen + 1..];
        ReclaimOneMore(all, seen);
        if !buffer.ended {
          assert submitted[..i + 1] == submitted[..i] + [buffer];
          i := i + 1;
        } else {
          ghost var kept, rest := submitted[..i], submitted[i + 1..];
          bufferedFrames := bufferedFrames - buffer.frames;
          submitted := submitted[..i] + submitted[i + 1..];
          log := log.(reclaimed := log.reclaimed + buffer.frames);
          assert submitted[..i] == kept && submitted[i..] == rest;
        }
        seen := seen + 1;
      }
      assert all[..seen] == all && submitted[..i] == submitted;
    }

    /** Moves the front boundary to the event queue. */
    method PopWordLocked()
      requires boundaries != []
      modifies `boundaries, `queue, `log
      ensures View() == QueueWords(old(View()), 1)
    {
      var boundary := boundaries[0];
      boundaries := boundaries[1..];
      queue := queue + [PlayedWord(boundary.position, boundary.length)];
      log := log.(words := log.words + [boundary]);
      assert old(boundaries)[..1] == [boundary];
      assert WordEvents([boundary]) == [PlayedWord(boundary.position, boundary.length)];
    }

    /** Pops the boundaries the listener has heard and queues their words. */
    method QueueHeardWordsLocked(audible: nat)
      modifies `boundaries, `queue, `log
      ensures View() == QueueWords(old(View()), HeardCount(old(boundaries), audible))
    {
      ghost var n := 0;
      QueueNone(View());
      while boundaries != [] && boundaries[0].frame <= audible
        invariant 0 <= n <= |old(boundaries)| && boundaries == old(boundaries)[n..]
        invariant n + HeardCount(boundaries, audible) == HeardCount(old(boundaries), audible)
        invariant View() == QueueWords(old(View()), n)
        decreases |boundaries|
      {
        QueueOneMore(old(View()), n);
        PopWordLocked();
        n := n + 1;
      }
    }

    method ObservePlaybackLocked(reading: Option<Reading>)
      modifies `pending, `submitted, `boundaries, `bufferedFrames, `life, `voice, `queue, `log
      ensures View() == Observe(old(View()), reading)
    {
      if life.terminal { return; }
      var error := voice.fault;
      voice := voice.(fault := Ok);
      if error != Ok {
        AbortLocked(Failed, error);
        return;
      }
      if !voice.alive || !voice.started { return; }
      if reading.None? {
        voice := voice.(fault := DeviceError);
        return;
      }
      QueueHeardWordsLocked(AudibleFrames(reading.value));
      var now := life.accepting && !voice.paused && reading.value.buffersQueued == 0;
      if now != voice.underrun {
        voice := voice.(underrun := now);
        queue := queue + [Underrun(if now then 0 else bufferedFrames)];
      }
    }

    method CompleteIfReadyLocked()
      modifies `pending, `submitted, `boundaries, `bufferedFrames, `life, `voice, `queue, `log
      ensures View() == CompleteIfReady(old(View()))
    {
      if life.terminal || !life.inputFinished || pending.Some? { return; }
      if submitted != [] || signals.streamEnds == 0 { return; }
      ghost var n := 0;
      QueueNone(View());
      while boundaries != []
        invariant 0 <= n <= |old(boundaries)| && boundaries == old(boundaries)[n..]
        invariant View() == QueueWords(old(View()), n)
        decreases |boundaries|
      {
        QueueOneMore(old(View()), n);
        PopWordLocked();
        n := n + 1;
      }
      SetTerminalLocked(Completed, Ok);
    }

    /** Reclaims what has ended and notes the device's counters. */
    method NoteLocked()
      modifies `submitted, `bufferedFrames, `log, `signals
      ensures View() == Noted(old(View()))
    {
      ReclaimEndedBuffersLocked();
      signals := signals.(seenStreamEnds := signals.streamEnds, seenPasses := signals.passes,
                          seenChanges := signals.changes);
    }

    /** Takes the event queue over; nothing left to tell while destroying ends the thread. */
    method TakeBatchLocked()
      modifies `batch, `queue, `exited
      ensures View() == TakeBatch(old(View()))
    {
      batch, queue, exited := queue, [], life.destroying && queue == [];
    }

    /** One locked pass of the dispatcher thread. */
    method DispatchOnce(reading: Option<Reading>)
      requires Valid() && Enabled(View(), DoDispatchPass(reading))
      modifies this
      ensures View() == DispatchPass(old(View()), reading)
      ensures Valid()
    {
      StepStaysReachable(View(), DoDispatchPass(reading));
      NoteLocked();
      ObservePlaybackLocked(reading);
      CompleteIfReadyLocked();
      TakeBatchLocked();
    }

    /** Runs the callback for the next event of the batch. */
    method DeliverNext() returns (event: Event)
      requires Valid() && batch != []
      modifies `batch, `terminalDelivered, `delivered
      ensures event == old(batch)[0]
      ensures Valid() && DispatcherView() == Deliver(old(DispatcherView()))
    {
      StepStaysReachable(View(), DoDeliver);
      event := batch[0];
      batch := batch[1..];
      terminalDelivered := terminalDelivered || event.Terminal?;
      delivered := delivered + [event];
    }
  }

  /** Looking at one more buffer keeps it or counts its frames. */
  lemma ReclaimOneMore(all: seq<Buffer>, seen: nat)
    requires seen < |all|
    ensures Unplayed(all[..seen + 1]) == Unplayed(all[..seen]) + (if all[seen].ended then [] else [all[seen]])
    ensures EndedFrames(all[..seen + 1]) == EndedFrames(all[..seen]) + (if all[seen].ended then all[seen].frames else 0)
  {
    assert all[..seen + 1][..seen] == all[..seen];
  }

  lemma QueueNone(s: State)
    ensures QueueWords(s, 0) == s
  {
    assert WordEvents([]) == [];
    assert s.dispatcher.queue + [] == s.dispatcher.queue;
    assert s.stream.log.words + [] == s.stream.log.words;
  }

  /** Queueing words one at a time is queueing them together. */
  lemma QueueOneMore(s: State, n: nat)
    requires n < |s.stream.boundaries|
    ensures QueueWords(QueueWords(s, n), 1) == QueueWords(s, n + 1)
  {
    var bs := s.stream.boundaries;
    assert bs[n..][..1] == [bs[n]] && bs[n..][1..] == bs[n + 1..] && bs[..n + 1] == bs[..n] + [bs[n]];
    assert WordEvents(bs[..n + 1]) == WordEvents(bs[..n]) + WordEvents([bs[n]]);
    assert (s.dispatcher.queue + WordEvents(bs[..n])) + WordEvents([bs[n]])
        == s.dispatcher.queue + (WordEvents(bs[..n]) + WordEvents([bs[n]]));
    assert (s.stream.log.words + bs[..n]) + [bs[n]] == s.stream.log.words + bs[..n + 1];
  }
}
