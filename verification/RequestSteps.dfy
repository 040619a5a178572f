/** Each step of a playback request keeps `Inv`; the last lemma collects them. */
module RequestSteps {
  import opened AudioTypes
  import opened RequestModel
  import opened RequestInvariant

  // ----- Ending --------------------------------------------------------------------------

  lemma AbortKeeps(s: State, ending: Ending, error: Status)
    requires Always(s) && !s.life.terminal
    requires ending != NotEnded && ending != Completed
    ensures Inv(Abort(s, ending, error))
  {
    TerminalTells(s.dispatcher, s.life, s.stream.log.words, ending, error);
  }

  lemma FailKeeps(s: State, error: Status)
    requires Always(s)
    requires s.life.terminal ==> Inv(s)
    ensures Inv(Fail(s, error))
  {
    if !s.life.terminal { AbortKeeps(s, Failed, error); }
  }

  // ----- Producer ------------------------------------------------------------------------

  /** Handing over buffers touches neither the accepted log nor the words. */
  ghost predicate OnlyHands(st: Stream, t: Stream) {
    t == st.(submitted := t.submitted, submittedFrames := t.submittedFrames, pending := t.pending,
             log := st.log.(handed := t.log.handed))
  }

  /** Cutting a submission into device buffers loses no frame and marks no end of stream. */
  lemma {:induction false} QueueFrames(chunk: nat, st: Stream, pcm: seq<byte>, room: nat)
    requires |pcm| > 0 && |pcm| % BYTES_PER_FRAME == 0 && chunk > 0
    requires st.pending.None? && Unmarked(st.log.handed)
    requires forall i :: 0 <= i < |st.submitted| ==> WellSized(st.submitted[i])
    ensures var (t, ok) := Queue(chunk, st, pcm, room);
      && OnlyHands(st, t) && Unmarked(t.log.handed)
      && (forall i :: 0 <= i < |t.submitted| ==> WellSized(t.submitted[i]))
      && t.submittedFrames >= st.submittedFrames
      && (ok ==>
            && t.pending.Some? && WellSized(t.pending.value)
            && TotalFrames(t.submitted) + t.pending.value.frames
               == TotalFrames(st.submitted) + |pcm| / BYTES_PER_FRAME
            && t.submittedFrames + t.pending.value.frames
               == st.submittedFrames + |pcm| / BYTES_PER_FRAME)
    decreases |pcm|
  {
    var size := chunk * BYTES_PER_FRAME;
    if |pcm| > size && room > 0 {
      var next := Hand(st, Buffer(pcm[..size], chunk, false), false);
      assert next.submitted[..|st.submitted|] == st.submitted;
      QueueFrames(chunk, next, pcm[size..], room - 1);
    }
  }

  /** Cutting a submission into device buffers keeps every byte in its place. */
  lemma {:induction false} QueueBytes(chunk: nat, st: Stream, pcm: seq<byte>, room: nat)
    requires |pcm| > 0 && chunk > 0
    ensures var (t, ok) := Queue(chunk, st, pcm, room);
      ok ==> t.pending.Some? && Flatten(t.log.handed) + t.pending.value.pcm == Flatten(st.log.handed) + pcm
    decreases |pcm|
  {
    var size := chunk * BYTES_PER_FRAME;
    if |pcm| > size && room > 0 {
      var next := Hand(st, Buffer(pcm[..size], chunk, false), false);
      assert next.log.handed[..|st.log.handed|] == st.log.handed;
      QueueBytes(chunk, next, pcm[size..], room - 1);
      assert pcm == pcm[..size] + pcm[size..];
    }
  }

  lemma FlushEffect(hard: nat, st: Stream, endOfStream: bool)
    requires Conserves(hard, st) && Unmarked(st.log.handed) && st.pending.Some?
    ensures var t := FlushPending(st, endOfStream);
      && OnlyHands(st, t) && Conserves(hard, t) && t.submitted != [] && t.pending.None?
      && (if endOfStream then EndsStream(t.log.handed) && EndMark(t.log.handed, true)
          else Unmarked(t.log.handed))
  {
    var t := FlushPending(st, endOfStream);
    assert t.submitted[..|st.submitted|] == st.submitted;
    assert t.log.handed[..|st.log.handed|] == st.log.handed;
  }

  /** An offer is noted while nothing was pending: nothing was accepted yet, or the request has ended. */
  lemma FirstOfferKeeps(s: State, offer: Offer)
    requires Inv(s) && s.offer.None? && s.stream.pending.None?
    requires |offer.pcm| > 0 && CheckSubmission(s.config, offer.pcm, offer.boundaries) == Ok
    ensures Inv(s.(offer := Some(offer)))
  {
  }

  /** What was pending is handed over, the voice may start, and the offer is noted. */
  lemma FlushedOfferKeeps(s: State, offer: Offer, startOk: bool)
    requires Inv(s) && s.offer.None? && s.stream.pending.Some?
    requires |offer.pcm| > 0 && CheckSubmission(s.config, offer.pcm, offer.boundaries) == Ok
    ensures var flushed := FlushPending(s.stream, false);
      Inv(s.(stream := flushed, voice := MaybeStart(s.config, s.voice, flushed, startOk), offer := Some(offer)))
  {
    FlushEffect(s.config.HardCapacity(), s.stream, false);
  }

  lemma SubmitEnterKeeps(s: State, pcm: seq<byte>, bs: seq<Boundary>, takes: bool, startOk: bool)
    requires Inv(s) && s.offer.None?
    ensures Inv(SubmitEnter(s, pcm, bs, takes, startOk).0)
  {
    if CheckSubmission(s.config, pcm, bs) == Ok && pcm != [] {
      var after := BeginWait(s, pcm, bs, takes, startOk).0;
      if s.stream.pending.None? {
        FirstOfferKeeps(s, after.offer.value);
      } else if takes {
        FlushedOfferKeeps(s, after.offer.value, startOk);
      } else {
        FailKeeps(s, DeviceError);
      }
    }
  }

  /** Adding a submission's boundaries keeps them ordered: each starts where the last one ended. */
  lemma ShiftKeepsOrder(had: seq<Boundary>, base: nat, more: seq<Boundary>, frames: nat, textLength: nat)
    requires ValidBoundaries(had, base, textLength)
    requires ValidBoundaries(more, frames, textLength)
    ensures ValidBoundaries(had + Shift(more, base), base + frames, textLength)
  {
  }

  /** What the stream is once a submission was cut up, handed over and counted. */
  lemma AdmitEffect(config: Config, st: Stream, offer: Offer, room: nat)
    requires config.rate > 0 && |offer.pcm| > 0
    requires CheckSubmission(config, offer.pcm, offer.boundaries) == Ok
    requires Conserves(config.HardCapacity(), st) && Accepts(config.textLength, st)
    requires st.pending.None? && Unmarked(st.log.handed)
    requires st.bufferedFrames + offer.Frames() <= config.HardCapacity()
    requires Queue(config.ChunkFrames(), st, offer.pcm, room).1
    ensures var t := Admit(Queue(config.ChunkFrames(), st, offer.pcm, room).0, offer.pcm, offer.boundaries);
      && Conserves(config.HardCapacity(), t) && Accepts(config.textLength, t)
      && Unmarked(t.log.handed) && t.pending.Some? && t.log.words == st.log.words
      && t.submittedFrames >= st.submittedFrames
  {
    var queued := Queue(config.ChunkFrames(), st, offer.pcm, room).0;
    QueueFrames(config.ChunkFrames(), st, offer.pcm, room);
    QueueBytes(config.ChunkFrames(), st, offer.pcm, room);
    ShiftKeepsOrder(st.log.boundaries, st.acceptedFrames, offer.boundaries, offer.Frames(), config.textLength);
    var t := Admit(queued, offer.pcm, offer.boundaries);
    assert t.log.words + t.boundaries == (st.log.words + st.boundaries) + Shift(offer.boundaries, st.acceptedFrames);
    assert |offer.pcm| == offer.Frames() * BYTES_PER_FRAME;
  }

  lemma SubmitCommitKeeps(s: State, room: nat, startOk: bool)
    requires Inv(s) && Enabled(s, DoSubmitCommit(room, startOk))
    ensures Inv(SubmitCommit(s, room, startOk).0)
  {
    var offer := s.offer.value;
    if !Interrupted(s.life) {
      var (queued, ok) := Queue(s.config.ChunkFrames(), s.stream, offer.pcm, room);
      if ok {
        AdmitEffect(s.config, s.stream, offer, room);
      } else {
        QueueFrames(s.config.ChunkFrames(), s.stream, offer.pcm, room);
        FailKeeps(s.(stream := queued, offer := None), DeviceError);
      }
    }
  }

  lemma FinishInputKeeps(s: State, takes: bool, startOk: bool)
    requires Inv(s) && s.offer.None?
    ensures Inv(FinishInput(s, takes, startOk).0)
  {
    if !Interrupted(s.life) {
      var finished := s.(life := CloseInput(s.life));
      if s.stream.pending.None? {
        SilentFinishKeeps(s, takes, startOk);
      } else if takes {
        FlushEffect(s.config.HardCapacity(), s.stream, true);
        FailKeeps(finished.(stream := FlushPending(s.stream, true)), DeviceError);
      } else {
        FailKeeps(finished, DeviceError);
      }
    }
  }

  /** Finishing a request that never accepted audio completes it on the spot. */
  lemma SilentFinishKeeps(s: State, takes: bool, startOk: bool)
    requires Inv(s) && !Interrupted(s.life) && s.offer.None? && s.stream.pending.None?
    ensures Inv(FinishInput(s, takes, startOk).0)
    ensures FinishInput(s, takes, startOk).0.life.ending == Completed
  {
    assert s.stream.acceptedFrames == 0;
    assert s.stream.submitted == [];
    TerminalTells(s.dispatcher, CloseInput(s.life), s.stream.log.words, Completed, Ok);
  }

  // ----- Controls ------------------------------------------------------------------------

  lemma PauseKeeps(s: State, pauseOk: bool)
    requires Inv(s)
    ensures Inv(Pause(s, pauseOk).0)
  {
    FailKeeps(s, DeviceError);
  }

  /** An unpaused voice that was started. */
  lemma ResumedKeeps(s: State)
    requires Inv(s) && !s.life.terminal && s.voice.paused
    requires s.voice.started || s.life.inputFinished || s.stream.submittedFrames >= s.config.Prebuffer()
    ensures Inv(s.(voice := s.voice.(paused := false, started := true)))
  {
  }

  lemma ResumeKeeps(s: State, startOk: bool)
    requires Inv(s)
    ensures Inv(Resume(s, startOk).0)
  {
    var running := s.(voice := s.voice.(paused := false));
    if !s.life.terminal && s.voice.paused {
      if s.voice.started || s.life.inputFinished || s.stream.submittedFrames >= s.config.Prebuffer() {
        if startOk {
          ResumedKeeps(s);
        } else {
          FailKeeps(running, DeviceError);
        }
      }
    }
  }

  lemma StopKeeps(s: State, reason: Ending)
    requires Inv(s)
    ensures Inv(Stop(s, reason).0)
  {
    if IsStopReason(reason) && !s.life.terminal { AbortKeeps(s, reason, Ok); }
  }

  lemma DestroyBeginKeeps(s: State)
    requires Inv(s)
    ensures Inv(DestroyBegin(s))
  {
    if !s.life.terminal { AbortKeeps(s, ClosedDown, Ok); }
  }

  lemma DestroyEndKeeps(s: State)
    requires Inv(s) && s.life.destroying && s.dispatcher.exited
    ensures Inv(DestroyEnd(s))
  {
    assert History(DestroyEnd(s).dispatcher) == History(s.dispatcher);
  }

  // ----- Device --------------------------------------------------------------------------

  lemma {:induction false} EndingChangesNoTotal(buffers: seq<Buffer>, index: nat)
    requires index < |buffers|
    ensures TotalFrames(buffers[index := buffers[index].(ended := true)]) == TotalFrames(buffers)
  {
    var marked := buffers[index := buffers[index].(ended := true)];
    var front := |buffers| - 1;
    if index < front {
      EndingChangesNoTotal(buffers[..front], index);
      assert marked[..front] == buffers[..front][index := buffers[index].(ended := true)];
    } else {
      assert marked[..front] == buffers[..front];
    }
  }

  lemma BufferEndKeeps(s: State, index: nat)
    requires Inv(s) && index < |s.stream.submitted|
    ensures Inv(s.(stream := BufferEnd(s.stream, index)))
  {
    EndingChangesNoTotal(s.stream.submitted, index);
    assert !s.life.terminal ==> Conserves(s.config.HardCapacity(), BufferEnd(s.stream, index));
  }

  /** Counting a device notification, or recording a fault, changes no law. */
  lemma NotifyKeeps(s: State, signals: Signals, status: Status)
    requires Inv(s)
    ensures Inv(s.(signals := signals))
    ensures Inv(s.(voice := VoiceFault(s.voice, status)))
  {
  }

  // ----- Dispatcher ----------------------------------------------------------------------

  /** Reclaiming splits the queued frames into those that ended and those still to play. */
  lemma {:induction false} ReclaimSplits(buffers: seq<Buffer>)
    ensures TotalFrames(Unplayed(buffers)) + EndedFrames(buffers) == TotalFrames(buffers)
  {
    if buffers != [] {
      var front := |buffers| - 1;
      ReclaimSplits(buffers[..front]);
      var kept := Unplayed(buffers[..front]);
      if buffers[front].ended {
        assert Unplayed(buffers) == kept;
      } else {
        assert Unplayed(buffers)[..|kept|] == kept;
      }
    }
  }

  lemma {:induction false} UnplayedRemain(buffers: seq<Buffer>)
    ensures forall b :: b in Unplayed(buffers) <==> b in buffers && !b.ended
  {
    if buffers != [] {
      var front := |buffers| - 1;
      UnplayedRemain(buffers[..front]);
      assert buffers == buffers[..front] + [buffers[front]];
    }
  }

  lemma ReclaimConserves(hard: nat, st: Stream)
    requires Conserves(hard, st)
    ensures Conserves(hard, Reclaim(st))
  {
    ReclaimSplits(st.submitted);
    UnplayedRemain(st.submitted);
    forall i | 0 <= i < |Unplayed(st.submitted)| ensures Unplayed(st.submitted)[i] in st.submitted {
    }
  }

  lemma NotedKeeps(s: State)
    requires Inv(s)
    ensures Inv(Noted(s))
  {
    if !s.life.terminal { ReclaimConserves(s.config.HardCapacity(), s.stream); }
  }

  lemma QueueWordsKeeps(s: State, n: nat)
    requires Inv(s) && !s.life.terminal && n <= |s.stream.boundaries|
    ensures Inv(QueueWords(s, n))
  {
    var more := s.stream.boundaries[..n];
    assert s.stream.log.words + s.stream.boundaries
        == (s.stream.log.words + more) + s.stream.boundaries[n..];
    WordsOfWordEvents(more);
    AppendOpen(History(s.dispatcher), WordEvents(more));
    EnqueueTells(s.dispatcher, s.life, s.stream.log.words, WordEvents(more), more);
  }

  lemma NoteUnderrunKeeps(s: State, now: bool)
    requires Inv(s) && !s.life.terminal
    ensures Inv(NoteUnderrun(s, now))
  {
    var more := [Underrun(if now then 0 else s.stream.bufferedFrames)];
    assert WordsOf(more) == Ranges([]);
    AppendOpen(History(s.dispatcher), more);
    EnqueueTells(s.dispatcher, s.life, s.stream.log.words, more, []);
    assert s.stream.log.words + [] == s.stream.log.words;
  }

  lemma ObserveKeeps(s: State, reading: Option<Reading>)
    requires Inv(s)
    ensures Inv(Observe(s, reading))
    ensures Observe(s, reading).dispatcher.batch == s.dispatcher.batch
  {
    if s.life.terminal {
    } else if s.voice.fault != Ok {
      AbortKeeps(s.(voice := s.voice.(fault := Ok)), Failed, s.voice.fault);
    } else if s.voice.started && reading.Some? {
      var n := HeardCount(s.stream.boundaries, AudibleFrames(reading.value));
      QueueWordsKeeps(s, n);
      NoteUnderrunKeeps(QueueWords(s, n),
                        s.life.accepting && !s.voice.paused && reading.value.buffersQueued == 0);
    }
  }

  /** A request completes only once every accepted buffer was handed over and has played. */
  lemma CompleteIfReadyKeeps(s: State)
    requires Inv(s)
    ensures Inv(CompleteIfReady(s))
  {
    if ReadyToComplete(s) {
      var told := QueueWords(s, |s.stream.boundaries|);
      QueueWordsKeeps(s, |s.stream.boundaries|);
      TerminalTells(told.dispatcher, told.life, told.stream.log.words, Completed, Ok);
    }
  }

  lemma TakeBatchKeeps(s: State)
    requires Inv(s) && s.dispatcher.batch == [] && !s.dispatcher.exited
    ensures Inv(TakeBatch(s))
  {
    assert History(TakeBatch(s).dispatcher) == History(s.dispatcher);
  }

  lemma ObserveAndCompleteKeep(s: State, reading: Option<Reading>)
    requires Inv(s)
    ensures var t := CompleteIfReady(Observe(s, reading));
      && Inv(t) && t.dispatcher.batch == s.dispatcher.batch && t.dispatcher.exited == s.dispatcher.exited
  {
    ObserveKeeps(s, reading);
    CompleteIfReadyKeeps(Observe(s, reading));
  }

  lemma DispatchPassKeeps(s: State, reading: Option<Reading>)
    requires Inv(s) && s.dispatcher.batch == [] && !s.dispatcher.exited
    ensures Inv(DispatchPass(s, reading))
  {
    NotedKeeps(s);
    ObserveAndCompleteKeep(Noted(s), reading);
    TakeBatchKeeps(CompleteIfReady(Observe(Noted(s), reading)));
  }

  lemma DeliverKeeps(s: State)
    requires Inv(s) && s.dispatcher.batch != []
    ensures Inv(s.(dispatcher := Deliver(s.dispatcher)))
  {
    var d := s.dispatcher;
    var told := |d.delivered|;
    assert History(Deliver(d)) == History(d);
    assert told > 0 ==> History(d)[told - 1] == d.delivered[told - 1];
  }

  // ----- All steps -----------------------------------------------------------------------

  lemma StepKeeps(s: State, step: Step)
    requires Inv(s) && Enabled(s, step)
    ensures Inv(Apply(s, step))
  {
    match step
    case DoSubmitEnter(pcm, bs, takes, startOk) => SubmitEnterKeeps(s, pcm, bs, takes, startOk);
    case DoSubmitCommit(room, startOk) => SubmitCommitKeeps(s, room, startOk);
    case DoFinishInput(takes, startOk) => FinishInputKeeps(s, takes, startOk);
    case DoPause(pauseOk) => PauseKeeps(s, pauseOk);
    case DoResume(startOk) => ResumeKeeps(s, startOk);
    case DoStop(reason) => StopKeeps(s, reason);
    case DoDestroyBegin => DestroyBeginKeeps(s);
    case DoDestroyEnd => DestroyEndKeeps(s);
    case DoBufferEnd(index) => BufferEndKeeps(s, index);
    case DoStreamEnd => NotifyKeeps(s, Apply(s, step).signals, Ok);
    case DoProcessingPass => NotifyKeeps(s, Apply(s, step).signals, Ok);
    case DoVoiceFault(status) => NotifyKeeps(s, s.signals, status);
    case DoDispatchPass(reading) => DispatchPassKeeps(s, reading);
    case DoDeliver => DeliverKeeps(s);
  }
}
