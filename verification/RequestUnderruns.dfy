/**
 * Underrun events: over every run they come in turns, one when the voice runs dry and one when it
 * recovers, and the flag the engine keeps always agrees with the last one it told.
 */
module RequestUnderruns {
  import opened AudioTypes
  import opened RequestModel
  import opened RequestInvariant
  import opened RequestSteps
  import opened RequestRuns

  /** Whether the last underrun told is still going on; None if they do not come in turns. */
  function Starving(trace: seq<Event>): Option<bool> {
    if trace == [] then Some(false)
    else
      var before := Starving(trace[..|trace| - 1]);
      match trace[|trace| - 1]
      case Underrun(frames) =>
        if before == Some(true) then Some(false)
        else if before == Some(false) && frames == 0 then Some(true)
        else None
      case _ => before
  }

  predicate TakesTurns(d: Dispatcher, underrun: bool) { Starving(History(d)) == Some(underrun) }

  lemma {:induction false} OthersChangeNothing(trace: seq<Event>, more: seq<Event>)
    requires forall i :: 0 <= i < |more| ==> !more[i].Underrun?
    ensures Starving(trace + more) == Starving(trace)
  {
    if more == [] {
      assert trace + more == trace;
    } else {
      var n := |more| - 1;
      assert (trace + more)[..|trace| + n] == trace + more[..n];
      OthersChangeNothing(trace, more[..n]);
    }
  }

  lemma HistoryGrows(d: Dispatcher, more: seq<Event>)
    ensures History(Enqueue(d, more)) == History(d) + more
  {
  }

  lemma EnqueueOthers(d: Dispatcher, more: seq<Event>, underrun: bool)
    requires forall i :: 0 <= i < |more| ==> !more[i].Underrun?
    requires TakesTurns(d, underrun)
    ensures TakesTurns(Enqueue(d, more), underrun)
  {
    HistoryGrows(d, more);
    OthersChangeNothing(History(d), more);
  }

  /** The next underrun is told when the flag changes. */
  lemma EnqueueUnderrun(d: Dispatcher, underrun: bool, frames: int)
    requires TakesTurns(d, underrun) && (!underrun ==> frames == 0)
    ensures TakesTurns(Enqueue(d, [Underrun(frames)]), !underrun)
  {
    HistoryGrows(d, [Underrun(frames)]);
    var trace := History(d) + [Underrun(frames)];
    assert trace[..|trace| - 1] == History(d);
  }

  /** Nothing but an ending was queued. */
  predicate OnlyEnds(d: Dispatcher, e: Dispatcher) {
    || e == d
    || (|e.queue| > 0 && e.queue[|e.queue| - 1].Terminal? && e == Enqueue(d, [e.queue[|e.queue| - 1]]))
  }

  lemma OnlyEndsTakesTurns(d: Dispatcher, e: Dispatcher, underrun: bool)
    requires TakesTurns(d, underrun) && OnlyEnds(d, e)
    ensures TakesTurns(e, underrun)
  {
    if e != d { EnqueueOthers(d, [e.queue[|e.queue| - 1]], underrun); }
  }

  lemma WordsTakeTurns(s: State, n: nat)
    requires n <= |s.stream.boundaries| && TakesTurns(s.dispatcher, s.voice.underrun)
    ensures var t := QueueWords(s, n); TakesTurns(t.dispatcher, t.voice.underrun)
  {
    EnqueueOthers(s.dispatcher, WordEvents(s.stream.boundaries[..n]), s.voice.underrun);
  }

  lemma NotingTakesTurns(s: State, now: bool)
    requires TakesTurns(s.dispatcher, s.voice.underrun)
    ensures var t := NoteUnderrun(s, now); TakesTurns(t.dispatcher, t.voice.underrun) && t.voice.underrun == now
  {
    if now != s.voice.underrun {
      EnqueueUnderrun(s.dispatcher, s.voice.underrun, if now then 0 else s.stream.bufferedFrames);
    }
  }

  lemma ObservingTakesTurns(s: State, reading: Option<Reading>)
    requires TakesTurns(s.dispatcher, s.voice.underrun)
    ensures var t := Observe(s, reading); TakesTurns(t.dispatcher, t.voice.underrun)
  {
    if !s.life.terminal && s.voice.fault != Ok {
      OnlyEndsTakesTurns(s.dispatcher, Observe(s, reading).dispatcher, s.voice.underrun);
    } else if reading.Some? {
      var n := HeardCount(s.stream.boundaries, AudibleFrames(reading.value));
      WordsTakeTurns(s, n);
      NotingTakesTurns(QueueWords(s, n), s.life.accepting && !s.voice.paused && reading.value.buffersQueued == 0);
    }
  }

  lemma CompletingTakesTurns(s: State)
    requires TakesTurns(s.dispatcher, s.voice.underrun)
    ensures var t := CompleteIfReady(s); TakesTurns(t.dispatcher, t.voice.underrun)
  {
    var told := QueueWords(s, |s.stream.boundaries|);
    WordsTakeTurns(s, |s.stream.boundaries|);
    if ReadyToComplete(s) {
      OnlyEndsTakesTurns(told.dispatcher, SetTerminal(told, Completed, Ok).dispatcher, s.voice.underrun);
    }
  }

  lemma TakingTakesTurns(s: State)
    requires s.dispatcher.batch == []
    ensures History(TakeBatch(s).dispatcher) == History(s.dispatcher) && TakeBatch(s).voice == s.voice
  {
  }

  lemma FinishingTakesTurns(seen: State)
    requires seen.dispatcher.batch == [] && TakesTurns(seen.dispatcher, seen.voice.underrun)
    ensures var t := TakeBatch(CompleteIfReady(seen)); TakesTurns(t.dispatcher, t.voice.underrun)
  {
    CompletingTakesTurns(seen);
    TakingTakesTurns(CompleteIfReady(seen));
  }

  lemma BatchWaits(s: State, reading: Option<Reading>)
    ensures Observe(s, reading).dispatcher.batch == s.dispatcher.batch
  {
  }

  lemma PassTakesTurns(s: State, reading: Option<Reading>)
    requires s.dispatcher.batch == [] && TakesTurns(s.dispatcher, s.voice.underrun)
    ensures var t := DispatchPass(s, reading); TakesTurns(t.dispatcher, t.voice.underrun)
  {
    var noted := Noted(s);
    assert noted.dispatcher == s.dispatcher && noted.voice == s.voice;
    ObservingTakesTurns(noted, reading);
    BatchWaits(noted, reading);
    FinishingTakesTurns(Observe(noted, reading));
  }

  lemma EnterOnlyEnds(s: State, pcm: seq<byte>, bs: seq<Boundary>, takes: bool, startOk: bool)
    ensures var t := SubmitEnter(s, pcm, bs, takes, startOk).0;
      OnlyEnds(s.dispatcher, t.dispatcher) && t.voice.underrun == s.voice.underrun
  {
  }

  lemma CommitOnlyEnds(s: State, room: nat, startOk: bool)
    requires Enabled(s, DoSubmitCommit(room, startOk))
    ensures var t := SubmitCommit(s, room, startOk).0;
      OnlyEnds(s.dispatcher, t.dispatcher) && t.voice.underrun == s.voice.underrun
  {
  }

  lemma FinishOnlyEnds(s: State, takes: bool, startOk: bool)
    ensures var t := FinishInput(s, takes, startOk).0;
      OnlyEnds(s.dispatcher, t.dispatcher) && t.voice.underrun == s.voice.underrun
  {
  }

  /** What the producer does tells no underrun. */
  lemma ProducerOnlyEnds(s: State, step: Step)
    requires Enabled(s, step) && (step.DoSubmitEnter? || step.DoSubmitCommit? || step.DoFinishInput?)
    ensures var t := Apply(s, step); OnlyEnds(s.dispatcher, t.dispatcher) && t.voice.underrun == s.voice.underrun
  {
    match step
    case DoSubmitEnter(pcm, bs, takes, startOk) => EnterOnlyEnds(s, pcm, bs, takes, startOk);
    case DoSubmitCommit(room, startOk) => CommitOnlyEnds(s, room, startOk);
    case DoFinishInput(takes, startOk) => FinishOnlyEnds(s, takes, startOk);
  }

  /** Nor do the controls. */
  lemma ControlsOnlyEnd(s: State, step: Step)
    requires Enabled(s, step) && (step.DoPause? || step.DoResume? || step.DoStop? || step.DoDestroyBegin?)
    ensures var t := Apply(s, step); OnlyEnds(s.dispatcher, t.dispatcher) && t.voice.underrun == s.voice.underrun
  {
  }

  lemma StepTakesTurns(s: State, step: Step)
    requires Inv(s) && TakesTurns(s.dispatcher, s.voice.underrun) && Enabled(s, step)
    ensures var t := Apply(s, step); TakesTurns(t.dispatcher, t.voice.underrun)
  {
    if step.DoSubmitEnter? || step.DoSubmitCommit? || step.DoFinishInput? {
      ProducerOnlyEnds(s, step);
      OnlyEndsTakesTurns(s.dispatcher, Apply(s, step).dispatcher, s.voice.underrun);
    } else if step.DoPause? || step.DoResume? || step.DoStop? || step.DoDestroyBegin? {
      ControlsOnlyEnd(s, step);
      OnlyEndsTakesTurns(s.dispatcher, Apply(s, step).dispatcher, s.voice.underrun);
    } else if step.DoDispatchPass? {
      PassTakesTurns(s, step.reading);
    } else {
      OthersTellNothing(s, step);
    }
  }

  /** The remaining steps leave the history alone. */
  lemma OthersTellNothing(s: State, step: Step)
    requires Inv(s) && Enabled(s, step)
    requires step.DoDestroyEnd? || step.DoBufferEnd? || step.DoStreamEnd? || step.DoProcessingPass? || step.DoVoiceFault?
             || step.DoDeliver?
    ensures var t := Apply(s, step);
      History(t.dispatcher) == History(s.dispatcher) && t.voice.underrun == s.voice.underrun
  {
    if step.DoDeliver? { assert History(Deliver(s.dispatcher)) == History(s.dispatcher); }
  }

  lemma {:induction false} RunTakesTurns(s: State, steps: seq<Step>)
    requires Inv(s) && TakesTurns(s.dispatcher, s.voice.underrun)
    ensures var t := Run(s, steps); TakesTurns(t.dispatcher, t.voice.underrun)
    decreases |steps|
  {
    if steps != [] {
      if Enabled(s, steps[0]) {
        StepKeeps(s, steps[0]);
        StepTakesTurns(s, steps[0]);
        RunTakesTurns(Apply(s, steps[0]), steps[1..]);
      } else {
        RunTakesTurns(s, steps[1..]);
      }
    }
  }

  lemma {:induction false} FrontTakesTurns(trace: seq<Event>, n: nat)
    requires Starving(trace).Some? && n <= |trace|
    ensures Starving(trace[..n]).Some?
    decreases |trace|
  {
    if n < |trace| {
      FrontTakesTurns(trace[..|trace| - 1], n);
      assert trace[..|trace| - 1][..n] == trace[..n];
    } else {
      assert trace[..n] == trace;
    }
  }

  // ----- How many are told ---------------------------------------------------------------

  function UnderrunCount(trace: seq<Event>): nat {
    if trace == [] then 0
    else UnderrunCount(trace[..|trace| - 1]) + (if trace[|trace| - 1].Underrun? then 1 else 0)
  }

  lemma {:induction false} CountOfConcat(a: seq<Event>, b: seq<Event>)
    ensures UnderrunCount(a + b) == UnderrunCount(a) + UnderrunCount(b)
  {
    if b == [] {
      assert a + b == a;
    } else {
      var n := |b| - 1;
      assert (a + b)[..|a| + n] == a + b[..n];
      CountOfConcat(a, b[..n]);
    }
  }

  lemma {:induction false} OthersCountNothing(trace: seq<Event>)
    requires forall i :: 0 <= i < |trace| ==> !trace[i].Underrun?
    ensures UnderrunCount(trace) == 0
  {
    if trace != [] { OthersCountNothing(trace[..|trace| - 1]); }
  }

  lemma EnqueueCounts(d: Dispatcher, more: seq<Event>)
    ensures UnderrunCount(History(Enqueue(d, more))) == UnderrunCount(History(d)) + UnderrunCount(more)
  {
    HistoryGrows(d, more);
    CountOfConcat(History(d), more);
  }

  /** The underruns told so far. */
  function Told(s: State): nat { UnderrunCount(History(s.dispatcher)) }

  lemma WordsTellNoUnderrun(s: State, n: nat)
    requires n <= |s.stream.boundaries|
    ensures Told(QueueWords(s, n)) == Told(s)
  {
    var more := WordEvents(s.stream.boundaries[..n]);
    OthersCountNothing(more);
    EnqueueCounts(s.dispatcher, more);
  }

  lemma ChangeIsToldOnce(s: State, now: bool)
    ensures Told(NoteUnderrun(s, now)) == Told(s) + (if now == s.voice.underrun then 0 else 1)
  {
    var more := [Underrun(if now then 0 else s.stream.bufferedFrames)];
    assert more[..0] == [];
    EnqueueCounts(s.dispatcher, more);
  }

  /** An observation tells one underrun when it changes the flag, and otherwise none. */
  lemma ObservingTellsChanges(s: State, reading: Option<Reading>)
    ensures var t := Observe(s, reading);
      Told(t) == Told(s) + (if t.voice.underrun == s.voice.underrun then 0 else 1)
  {
    if !s.life.terminal && s.voice.fault != Ok {
      var ending := [Terminal(Failed, s.voice.fault)];
      OthersCountNothing(ending);
      EnqueueCounts(s.dispatcher, ending);
    } else if reading.Some? {
      var n := HeardCount(s.stream.boundaries, AudibleFrames(reading.value));
      WordsTellNoUnderrun(s, n);
      ChangeIsToldOnce(QueueWords(s, n), s.life.accepting && !s.voice.paused && reading.value.buffersQueued == 0);
    }
  }

  /** An underrun that is told is the last thing told, with what is buffered when it is over. */
  ghost predicate ToldLast(s: State, t: State) {
    t.voice.underrun != s.voice.underrun ==>
      && History(t.dispatcher) != []
      && History(t.dispatcher)[|History(t.dispatcher)| - 1] == Underrun(if t.voice.underrun then 0 else s.stream.bufferedFrames)
  }

  lemma ChangeIsToldLast(s: State, reading: Option<Reading>)
    ensures ToldLast(s, Observe(s, reading))
  {
  }

  /**
   * In every run the underruns delivered come in turns, running dry first. The flag of a playing
   * voice says after each observation whether it has run dry, and an observation tells one
   * underrun if it changed the flag, with the frames that are buffered, and none otherwise.
   */
  lemma UnderrunsTakeTurns(config: Config, steps: seq<Step>, reading: Option<Reading>)
    requires config.rate > 0
    ensures var s := Run(Init(config), steps);
      var t := Observe(s, reading);
      && Starving(s.dispatcher.delivered).Some?
      && Starving(History(s.dispatcher)) == Some(s.voice.underrun)
      && Starving(History(t.dispatcher)) == Some(t.voice.underrun)
      && Told(t) == Told(s) + (if t.voice.underrun == s.voice.underrun then 0 else 1) && ToldLast(s, t)
      && (!s.life.terminal && s.voice.fault == Ok && s.voice.started && reading.Some? ==>
            t.voice.underrun == (s.life.accepting && !s.voice.paused && reading.value.buffersQueued == 0))
  {
    InitKeeps(config);
    assert History(Init(config).dispatcher) == [Started];
    OthersChangeNothing([], [Started]);
    assert [] + [Started] == [Started];
    RunTakesTurns(Init(config), steps);
    var s := Run(Init(config), steps);
    FrontTakesTurns(History(s.dispatcher), |s.dispatcher.delivered|);
    assert History(s.dispatcher)[..|s.dispatcher.delivered|] == s.dispatcher.delivered;
    EveryRun(config, steps);
    ObservingTakesTurns(s, reading);
    ObservingTellsChanges(s, reading);
    ChangeIsToldLast(s, reading);
  }
}
