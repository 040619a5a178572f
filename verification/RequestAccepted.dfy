/**
 * What a request has accepted, over whole runs: exactly the submissions that returned success,
 * in their order, whatever else happened in between. Together with the slicing this says what
 * becomes of a long piece of audio that is offered slice by slice.
 */
module RequestAccepted {
  import opened AudioTypes
  import opened RequestModel
  import opened RequestRuns
  import opened Admission

  /** The accepted PCM, the accepted boundaries at absolute frames, and the frame count. */
  datatype Record = Record(pcm: seq<byte>, boundaries: seq<Boundary>, frames: nat)

  function RecordOf(st: Stream): Record { Record(st.log.accepted, st.log.boundaries, st.acceptedFrames) }

  /** One more submission. */
  function Add(r: Record, o: Offer): Record {
    Record(r.pcm + o.pcm, r.boundaries + Shift(o.boundaries, r.frames), r.frames + o.Frames())
  }

  function AddAll(r: Record, offers: seq<Offer>): Record
    decreases |offers|
  {
    if offers == [] then r else AddAll(Add(r, offers[0]), offers[1..])
  }

  /** The step is the end of a `Submit` call that returns success. */
  predicate Accepts(s: State, step: Step) {
    step.DoSubmitCommit? && Enabled(s, step) && SubmitCommit(s, step.room, step.startOk).1.Accepted?
  }

  /** The submissions that succeed in a run, in order. */
  ghost function Succeeded(s: State, steps: seq<Step>): seq<Offer>
    decreases |steps|
  {
    if steps == [] then []
    else
      (if Accepts(s, steps[0]) then [s.offer.value] else [])
      + Succeeded(if Enabled(s, steps[0]) then Apply(s, steps[0]) else s, steps[1..])
  }

  /** A submission is accepted whole or not at all. */
  lemma CommitIsAllOrNothing(s: State, room: nat, startOk: bool)
    requires Enabled(s, DoSubmitCommit(room, startOk)) && s.config.rate > 0
    ensures var (t, outcome) := SubmitCommit(s, room, startOk);
      RecordOf(t.stream) == if outcome.Accepted? then Add(RecordOf(s.stream), s.offer.value) else RecordOf(s.stream)
  {
    QueueGrows(s.config.ChunkFrames(), s.stream, s.offer.value.pcm, room);
  }

  /** Nothing but a successful submission changes the record. */
  lemma StepRecords(s: State, step: Step)
    requires Enabled(s, step) && s.config.rate > 0
    ensures RecordOf(Apply(s, step).stream)
         == if Accepts(s, step) then Add(RecordOf(s.stream), s.offer.value) else RecordOf(s.stream)
  {
    match step
    case DoSubmitCommit(room, startOk) => CommitIsAllOrNothing(s, room, startOk);
    case DoDispatchPass(reading) => PassRecords(s, reading);
    case _ =>
  }

  lemma PassRecords(s: State, reading: Option<Reading>)
    ensures RecordOf(DispatchPass(s, reading).stream) == RecordOf(s.stream)
  {
    var noted := Noted(s);
    assert RecordOf(Observe(noted, reading).stream) == RecordOf(noted.stream);
  }

  /** A request has accepted exactly the submissions that succeeded, whatever the interleaving. */
  lemma {:induction false} RunRecords(s: State, steps: seq<Step>)
    requires s.config.rate > 0
    ensures RecordOf(Run(s, steps).stream) == AddAll(RecordOf(s.stream), Succeeded(s, steps))
    decreases |steps|
  {
    if steps != [] {
      var later := Succeeded(if Enabled(s, steps[0]) then Apply(s, steps[0]) else s, steps[1..]);
      assert [] + later == later && (s.offer.Some? ==> ([s.offer.value] + later)[1..] == later);
      if Enabled(s, steps[0]) {
        StepRecords(s, steps[0]);
        ConfigStays(s, [steps[0]]);
        RunOne(s, steps[0]);
        RunRecords(Apply(s, steps[0]), steps[1..]);
      } else {
        RunRecords(s, steps[1..]);
      }
    }
  }

  // ----- A producer that offers slices ---------------------------------------------------

  /**
   * The bounded submission of a list of slices, between its calls: the request, the slice to
   * offer next, the frames accepted so far, and whether the loop was left early.
   */
  datatype Producer = Producer(request: State, next: nat, frames: nat, stopped: bool)

  /** The producer's own moves, and everything others do in between. */
  datatype Move =
    | Offering(interrupted: bool, takes: bool, startOk: bool)
    | Committing(room: nat, startOk: bool)
    | Elsewhere(step: Step)

  /** A call returned: success goes on to the next slice, anything else leaves the loop. */
  function Returned(p: Producer, request: State, outcome: SubmitOutcome): Producer {
    match outcome
    case Waits => p.(request := request)
    case Refused(_) => p.(request := request, stopped := true)
    case Accepted(frames, _) => p.(request := request, next := p.next + 1, frames := p.frames + frames)
  }

  ghost function Drive(p: Producer, slices: seq<Slice>, move: Move): Producer {
    match move
    case Offering(interrupted, takes, startOk) =>
      if p.stopped || p.next >= |slices| || p.request.offer.Some? then p
      else if interrupted then p.(stopped := true)
      else
        var (t, outcome) := SubmitEnter(p.request, slices[p.next].pcm, slices[p.next].boundaries, takes, startOk);
        Returned(p, t, outcome)
    case Committing(room, startOk) =>
      if !Enabled(p.request, DoSubmitCommit(room, startOk)) then p
      else var (t, outcome) := SubmitCommit(p.request, room, startOk); Returned(p, t, outcome)
    case Elsewhere(step) =>
      if step.DoSubmitEnter? || step.DoSubmitCommit? || !Enabled(p.request, step) then p
      else p.(request := Apply(p.request, step))
  }

  ghost function Submitting(s: State, slices: seq<Slice>, moves: seq<Move>): Producer {
    if moves == [] then Producer(s, 0, 0, false)
    else Drive(Submitting(s, slices, moves[..|moves| - 1]), slices, moves[|moves| - 1])
  }

  /** The step of the request that a move amounts to. */
  function StepsOf(p: Producer, slices: seq<Slice>, move: Move): seq<Step> {
    match move
    case Offering(interrupted, takes, startOk) =>
      if p.stopped || p.next >= |slices| || p.request.offer.Some? || interrupted then []
      else [DoSubmitEnter(slices[p.next].pcm, slices[p.next].boundaries, takes, startOk)]
    case Committing(room, startOk) => [DoSubmitCommit(room, startOk)]
    case Elsewhere(step) => if step.DoSubmitEnter? || step.DoSubmitCommit? then [] else [step]
  }

  lemma MoveIsRun(p: Producer, slices: seq<Slice>, move: Move)
    ensures Drive(p, slices, move).request == Run(p.request, StepsOf(p, slices, move))
  {
    var steps := StepsOf(p, slices, move);
    if steps != [] {
      if Enabled(p.request, steps[0]) { RunOne(p.request, steps[0]); } else { assert steps[1..] == []; }
    }
  }

  /** What the producer makes of a request is an ordinary run of it. */
  lemma {:induction false} SubmittingIsRun(s: State, slices: seq<Slice>, moves: seq<Move>) returns (steps: seq<Step>)
    ensures Submitting(s, slices, moves).request == Run(s, steps)
  {
    if moves == [] {
      steps := [];
    } else {
      var front := SubmittingIsRun(s, slices, moves[..|moves| - 1]);
      var p := Submitting(s, slices, moves[..|moves| - 1]);
      MoveIsRun(p, slices, moves[|moves| - 1]);
      RunConcat(s, front, StepsOf(p, slices, moves[|moves| - 1]));
      steps := front + StepsOf(p, slices, moves[|moves| - 1]);
    }
  }

  /** A waiting offer is the slice to come next; the slices before it are what was accepted. */
  ghost predicate Serving(s: State, slices: seq<Slice>, p: Producer) {
    && p.request.config == s.config && p.next <= |slices|
    && (p.request.offer.Some? ==>
          && !p.stopped && p.next < |slices|
          && p.request.offer.value.pcm == slices[p.next].pcm
          && p.request.offer.value.boundaries == slices[p.next].boundaries)
    && RecordOf(p.request.stream) == RecordOf(AdmitAll(s.stream, slices[..p.next]))
    && p.frames * BYTES_PER_FRAME == |JoinPcm(slices[..p.next])|
  }

  /** One more slice was accepted. */
  lemma SliceAdded(s: State, slices: seq<Slice>, n: nat, o: Offer)
    requires n < |slices| && o.pcm == slices[n].pcm && o.boundaries == slices[n].boundaries
    ensures RecordOf(AdmitAll(s.stream, slices[..n + 1])) == Add(RecordOf(AdmitAll(s.stream, slices[..n])), o)
    ensures JoinPcm(slices[..n + 1]) == JoinPcm(slices[..n]) + o.pcm
  {
    assert slices[..n + 1][..n] == slices[..n];
  }

  lemma OfferingServes(s: State, slices: seq<Slice>, p: Producer, takes: bool, startOk: bool)
    requires s.config.rate > 0 && Serving(s, slices, p)
    requires p.request.offer.None? && !p.stopped && p.next < |slices| && slices[p.next].pcm != []
    ensures Serving(s, slices, Drive(p, slices, Offering(false, takes, startOk)))
  {
    var step := DoSubmitEnter(slices[p.next].pcm, slices[p.next].boundaries, takes, startOk);
    StepRecords(p.request, step);
  }

  lemma CommittingServes(s: State, slices: seq<Slice>, p: Producer, room: nat, startOk: bool)
    requires s.config.rate > 0 && Serving(s, slices, p) && Enabled(p.request, DoSubmitCommit(room, startOk))
    requires |p.request.offer.value.pcm| % BYTES_PER_FRAME == 0
    ensures Serving(s, slices, Drive(p, slices, Committing(room, startOk)))
  {
    CommitIsAllOrNothing(p.request, room, startOk);
    SliceAdded(s, slices, p.next, p.request.offer.value);
  }

  lemma OthersKeepOffer(s: State, step: Step)
    requires Enabled(s, step) && !step.DoSubmitEnter? && !step.DoSubmitCommit?
    ensures var t := Apply(s, step); t.offer == s.offer && t.config == s.config
  {
  }

  lemma DriveServes(s: State, slices: seq<Slice>, p: Producer, move: Move, limit: nat)
    requires s.config.rate > 0 && WellCut(slices, BYTES_PER_FRAME, limit) && Serving(s, slices, p)
    ensures Serving(s, slices, Drive(p, slices, move))
  {
    match move
    case Offering(interrupted, takes, startOk) =>
      if !p.stopped && p.next < |slices| && p.request.offer.None? && !interrupted {
        OfferingServes(s, slices, p, takes, startOk);
      }
    case Committing(room, startOk) =>
      if Enabled(p.request, DoSubmitCommit(room, startOk)) { CommittingServes(s, slices, p, room, startOk); }
    case Elsewhere(step) =>
      if Enabled(p.request, step) && !step.DoSubmitEnter? && !step.DoSubmitCommit? {
        OthersKeepOffer(p.request, step);
        StepRecords(p.request, step);
      }
  }

  lemma {:induction false} SubmittingServes(s: State, slices: seq<Slice>, moves: seq<Move>, limit: nat)
    requires s.config.rate > 0 && s.offer.None? && WellCut(slices, BYTES_PER_FRAME, limit)
    ensures Serving(s, slices, Submitting(s, slices, moves))
  {
    if moves == [] {
      assert slices[..0] == [];
    } else {
      SubmittingServes(s, slices, moves[..|moves| - 1], limit);
      DriveServes(s, slices, Submitting(s, slices, moves[..|moves| - 1]), moves[|moves| - 1], limit);
    }
  }

  /**
   * Bounded submission of a cut, from any state and in any interleaving with everybody else:
   * at every moment the request has accepted what one submission of the slices so far would
   * have left, these are a front part of the audio and of its boundaries, and the frames counted
   * are theirs. If the loop ends without being stopped that is the whole, as if never sliced.
   */
  lemma SlicedRun(s: State, slices: seq<Slice>, pcm: seq<byte>, bs: seq<Boundary>, limit: nat, moves: seq<Move>)
    requires s.config.rate > 0 && s.offer.None? && Cuts(slices, pcm, bs, BYTES_PER_FRAME, limit)
    ensures var p := Submitting(s, slices, moves);
      && p.next <= |slices|
      && var front := slices[..p.next];
      && RecordOf(p.request.stream) == RecordOf(Admit(s.stream, JoinPcm(front), JoinBoundaries(front)))
      && JoinPcm(front) <= pcm && JoinBoundaries(front) <= bs && p.frames * BYTES_PER_FRAME == |JoinPcm(front)|
      && (p.next == |slices| ==> RecordOf(p.request.stream) == RecordOf(Admit(s.stream, pcm, bs)))
      && (p.stopped || p.next == |slices| ==> p.request.offer.None?)
  {
    SubmittingServes(s, slices, moves, limit);
    var p := Submitting(s, slices, moves);
    InterruptedLeavesPrefix(s.stream, slices, pcm, bs, limit, p.next);
    assert slices[..|slices|] == slices;
  }

  /**
   * No slice of at most high water waits behind silence: whenever the loop is held back on a
   * healthy request that is not paused, the voice owns all that is buffered and plays it.
   */
  lemma SubmittingNeverSticks(config: Config, steps: seq<Step>, slices: seq<Slice>, moves: seq<Move>)
    requires config.rate > 0 && WellCut(slices, BYTES_PER_FRAME, config.HighWater())
    ensures var s := Run(Init(config), steps);
      var held := Submitting(s, slices, moves).request;
      s.offer.None? && HeldBack(held) ==> OwnsAll(held) && held.voice.started
  {
    ConfigStays(Init(config), steps);
    var s := Run(Init(config), steps);
    if s.offer.None? {
      SubmittingServes(s, slices, moves, config.HighWater());
      var more := SubmittingIsRun(s, slices, moves);
      RunConcat(Init(config), steps, more);
      HeldBackMeansPlaying(config, steps + more);
    }
  }

  /** The loop has been left, and nothing was accepted from it since. */
  ghost predicate LeftAt(p: Producer, q: Producer) {
    && q.stopped && q.next == p.next && q.frames == p.frames && q.request.offer.None?
    && RecordOf(q.request.stream) == RecordOf(p.request.stream)
  }

  /** A loop that has stopped submits nothing more, whatever others do with the request. */
  lemma StoppedSubmitsNothing(p: Producer, slices: seq<Slice>, move: Move)
    requires p.request.config.rate > 0 && p.stopped && p.request.offer.None?
    ensures LeftAt(p, Drive(p, slices, move))
  {
    if move.Elsewhere? && Enabled(p.request, move.step) && !move.step.DoSubmitEnter? && !move.step.DoSubmitCommit? {
      OthersKeepOffer(p.request, move.step);
      StepRecords(p.request, move.step);
    }
  }

  lemma LeftAtChains(p: Producer, q: Producer, r: Producer)
    requires LeftAt(p, q) && LeftAt(q, r)
    ensures LeftAt(p, r)
  {
  }

  lemma {:induction false} StoppedForGood(s: State, slices: seq<Slice>, moves: seq<Move>, more: seq<Move>)
    requires s.config.rate > 0 && Submitting(s, slices, moves).stopped && Submitting(s, slices, moves).request.offer.None?
    ensures LeftAt(Submitting(s, slices, moves), Submitting(s, slices, moves + more))
  {
    if more == [] {
      assert moves + more == moves;
    } else {
      var front, last := more[..|more| - 1], more[|more| - 1];
      StoppedForGood(s, slices, moves, front);
      SubmittingKeepsConfig(s, slices, moves + front);
      SubmittingMore(s, slices, moves + front, last);
      assert moves + more == (moves + front) + [last];
      StoppedSubmitsNothing(Submitting(s, slices, moves + front), slices, last);
      LeftAtChains(Submitting(s, slices, moves), Submitting(s, slices, moves + front), Submitting(s, slices, moves + more));
    }
  }

  /**
   * The loop that finds its session interrupted is left for good: whatever follows, nothing more
   * is accepted from it and it counts nothing more.
   */
  lemma InterruptionStops(s: State, slices: seq<Slice>, moves: seq<Move>, takes: bool, startOk: bool, more: seq<Move>)
    requires s.config.rate > 0
    ensures var p := Submitting(s, slices, moves);
      p.next < |slices| && p.request.offer.None? ==>
        LeftAt(p, Submitting(s, slices, (moves + [Offering(true, takes, startOk)]) + more))
  {
    var p := Submitting(s, slices, moves);
    SubmittingMore(s, slices, moves, Offering(true, takes, startOk));
    if p.next < |slices| && p.request.offer.None? { StoppedForGood(s, slices, moves + [Offering(true, takes, startOk)], more); }
  }

  /** The move is a call that is refused. */
  ghost predicate IsRefused(p: Producer, slices: seq<Slice>, move: Move) {
    match move
    case Offering(interrupted, takes, startOk) =>
      && !p.stopped && p.next < |slices| && p.request.offer.None? && !interrupted
      && SubmitEnter(p.request, slices[p.next].pcm, slices[p.next].boundaries, takes, startOk).1.Refused?
    case Committing(room, startOk) =>
      && Enabled(p.request, DoSubmitCommit(room, startOk)) && SubmitCommit(p.request, room, startOk).1.Refused?
    case Elsewhere(_) => false
  }

  /** So does a slice that is refused: the loop offers neither it again nor any other. */
  lemma RefusalStops(s: State, slices: seq<Slice>, moves: seq<Move>, move: Move, more: seq<Move>)
    requires s.config.rate > 0 && IsRefused(Submitting(s, slices, moves), slices, move)
    ensures LeftAt(Submitting(s, slices, moves), Submitting(s, slices, (moves + [move]) + more))
  {
    var p := Submitting(s, slices, moves);
    SubmittingMore(s, slices, moves, move);
    SubmittingKeepsConfig(s, slices, moves);
    RefusalLeaves(p, slices, move);
    StoppedForGood(s, slices, moves + [move], more);
  }

  lemma RefusalLeaves(p: Producer, slices: seq<Slice>, move: Move)
    requires p.request.config.rate > 0 && IsRefused(p, slices, move)
    ensures LeftAt(p, Drive(p, slices, move))
  {
    match move
    case Offering(_, takes, startOk) =>
      StepRecords(p.request, DoSubmitEnter(slices[p.next].pcm, slices[p.next].boundaries, takes, startOk));
    case Committing(room, startOk) => CommitIsAllOrNothing(p.request, room, startOk);
    case Elsewhere(_) =>
  }

  lemma SubmittingMore(s: State, slices: seq<Slice>, moves: seq<Move>, move: Move)
    ensures Submitting(s, slices, moves + [move]) == Drive(Submitting(s, slices, moves), slices, move)
  {
    assert (moves + [move])[..|moves|] == moves;
  }

  lemma SubmittingKeepsConfig(s: State, slices: seq<Slice>, moves: seq<Move>)
    ensures Submitting(s, slices, moves).request.config == s.config
  {
    var steps := SubmittingIsRun(s, slices, moves);
    ConfigStays(s, steps);
  }
}
