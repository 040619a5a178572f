/**
 * Bounded submissions one after the other, as a backend makes them for the chunks of a text and
 * the pauses between them: each begins only after the one before it was accepted whole.
 */
module RequestReading {
  import opened Admission
  import opened AudioTypes
  import opened RequestAccepted
  import opened RequestInvariant
  import opened RequestModel
  import opened RequestRuns

  /** What one call of `submit_bounded` is given, and the slices it makes of it. */
  datatype Submission = Submission(pcm: seq<byte>, boundaries: seq<Boundary>, slices: seq<Slice>)

  /** The slices are a cut. Without audio there are no words to tell. */
  ghost predicate IsSubmission(b: Submission, limit: nat) {
    IsSlicing(b.slices, b.pcm, b.boundaries, limit) && (b.pcm == [] ==> b.boundaries == [])
  }

  /** The boundaries of all submissions, in order, each counted from its own audio. */
  function AllBoundaries(bs: seq<Submission>): seq<Boundary> {
    if bs == [] then [] else AllBoundaries(bs[..|bs| - 1]) + bs[|bs| - 1].boundaries
  }

  /** The request after these submissions, each with its own moves, and whether all were accepted whole. */
  ghost function Speaking(s: State, bs: seq<Submission>, moves: seq<seq<Move>>): (State, bool)
    requires |bs| == |moves|
  {
    if bs == [] then (s, true)
    else
      var n := |bs| - 1;
      var (t, done) := Speaking(s, bs[..n], moves[..n]);
      if !done then (t, false)
      else var p := Submitting(t, bs[n].slices, moves[n]); (p.request, p.next == |bs[n].slices|)
  }

  // ----- One submission ------------------------------------------------------------------

  lemma RangesOfShift(bs: seq<Boundary>, base: nat)
    ensures Ranges(Shift(bs, base)) == Ranges(bs)
  {
  }

  /** Words are told in the order and under the ranges they were submitted with. */
  ghost predicate Adds(s: State, t: State, bs: seq<Boundary>) {
    Ranges(t.stream.log.boundaries) == Ranges(s.stream.log.boundaries) + Ranges(bs)
  }

  /** What the submit loop has added so far: the words of a front part; of all when it is through. */
  ghost predicate AddsFront(s: State, t: State, bs: seq<Boundary>, done: bool) {
    exists n: nat :: n <= |bs| && Adds(s, t, bs[..n]) && (done ==> n == |bs| && t.offer.None?)
  }

  lemma AdmitAdds(st: Stream, pcm: seq<byte>, bs: seq<Boundary>)
    ensures Ranges(Admit(st, pcm, bs).log.boundaries) == Ranges(st.log.boundaries) + Ranges(bs)
  {
    RangesConcat(st.log.boundaries, Shift(bs, st.acceptedFrames));
    RangesOfShift(bs, st.acceptedFrames);
  }

  lemma SlicesAddFront(s: State, b: Submission, limit: nat, moves: seq<Move>)
    requires s.config.rate > 0 && s.offer.None? && Cuts(b.slices, b.pcm, b.boundaries, BYTES_PER_FRAME, limit)
    ensures var p := Submitting(s, b.slices, moves);
      AddsFront(s, p.request, b.boundaries, p.next == |b.slices|) && p.request.config == s.config
  {
    SlicedRun(s, b.slices, b.pcm, b.boundaries, limit, moves);
    SubmittingServes(s, b.slices, moves, limit);
    var p := Submitting(s, b.slices, moves);
    var front := b.slices[..p.next];
    AdmitAdds(s.stream, JoinPcm(front), JoinBoundaries(front));
    var n := |JoinBoundaries(front)|;
    assert b.boundaries[..n] == JoinBoundaries(front);
    assert p.next == |b.slices| ==> front == b.slices;
  }

  /** A submission without audio changes no record. */
  lemma {:induction false} NothingIsAdded(s: State, bs: seq<Boundary>, moves: seq<Move>)
    requires s.config.rate > 0 && s.offer.None?
    ensures var t := Submitting(s, [Slice([], bs, 0, 0)], moves).request;
      t.offer.None? && t.config == s.config && RecordOf(t.stream) == RecordOf(s.stream)
  {
    if moves != [] {
      var n := |moves| - 1;
      NothingIsAdded(s, bs, moves[..n]);
      EmptyMove(Submitting(s, [Slice([], bs, 0, 0)], moves[..n]), bs, moves[n]);
    }
  }

  lemma EmptyMove(p: Producer, bs: seq<Boundary>, move: Move)
    requires p.request.config.rate > 0 && p.request.offer.None?
    ensures var t := Drive(p, [Slice([], bs, 0, 0)], move).request;
      t.offer.None? && t.config == p.request.config && RecordOf(t.stream) == RecordOf(p.request.stream)
  {
    match move
    case Offering(interrupted, takes, startOk) =>
      assert SubmitEnter(p.request, [], bs, takes, startOk).0 == p.request;
    case Committing(room, startOk) =>
    case Elsewhere(step) =>
      if Enabled(p.request, step) && !step.DoSubmitEnter? && !step.DoSubmitCommit? {
        OthersKeepOffer(p.request, step);
        StepRecords(p.request, step);
      }
  }

  lemma SubmissionAddsFront(s: State, b: Submission, limit: nat, moves: seq<Move>)
    requires s.config.rate > 0 && s.offer.None? && IsSubmission(b, limit)
    ensures var p := Submitting(s, b.slices, moves);
      AddsFront(s, p.request, b.boundaries, p.next == |b.slices|) && p.request.config == s.config
  {
    if b.pcm == [] {
      NothingIsAdded(s, b.boundaries, moves);
      assert b.boundaries[..0] == [] && Ranges([]) == [];
      assert Adds(s, Submitting(s, b.slices, moves).request, b.boundaries[..0]);
    } else {
      SlicesAddFront(s, b, limit, moves);
    }
  }

  // ----- All submissions -----------------------------------------------------------------

  lemma AddsTwice(s: State, t: State, u: State, a: seq<Boundary>, b: seq<Boundary>, done: bool)
    requires Adds(s, t, a) && AddsFront(t, u, b, done)
    ensures AddsFront(s, u, a + b, done)
  {
    var n: nat :| n <= |b| && Adds(t, u, b[..n]) && (done ==> n == |b| && u.offer.None?);
    assert (a + b)[..|a| + n] == a + b[..n];
    RangesConcat(a, b[..n]);
  }

  lemma FrontOfMore(s: State, t: State, a: seq<Boundary>, b: seq<Boundary>)
    requires AddsFront(s, t, a, false)
    ensures AddsFront(s, t, a + b, false)
  {
    var n: nat :| n <= |a| && Adds(s, t, a[..n]);
    assert (a + b)[..n] == a[..n];
  }

  /** In any interleaving the words accepted so far are a front part of those submitted. */
  lemma {:induction false} SpeakingAddsFront(s: State, bs: seq<Submission>, moves: seq<seq<Move>>, limit: nat)
    requires |bs| == |moves| && s.config.rate > 0 && s.offer.None?
    requires forall i :: 0 <= i < |bs| ==> IsSubmission(bs[i], limit)
    ensures var (t, done) := Speaking(s, bs, moves);
      AddsFront(s, t, AllBoundaries(bs), done) && t.config == s.config
  {
    if bs == [] {
      assert AllBoundaries(bs)[..0] == [] && Ranges([]) == [];
      assert Adds(s, s, AllBoundaries(bs)[..0]);
    } else {
      var n := |bs| - 1;
      var (t, done) := Speaking(s, bs[..n], moves[..n]);
      SpeakingAddsFront(s, bs[..n], moves[..n], limit);
      if done {
        WholeFront(s, t, AllBoundaries(bs[..n]));
        SubmissionAddsFront(t, bs[n], limit, moves[n]);
        var p := Submitting(t, bs[n].slices, moves[n]);
        AddsTwice(s, t, p.request, AllBoundaries(bs[..n]), bs[n].boundaries, p.next == |bs[n].slices|);
      } else {
        FrontOfMore(s, t, AllBoundaries(bs[..n]), bs[n].boundaries);
      }
    }
  }

  lemma WholeFront(s: State, t: State, bs: seq<Boundary>)
    requires AddsFront(s, t, bs, true)
    ensures Adds(s, t, bs) && t.offer.None?
  {
    assert bs[..|bs|] == bs;
  }

  /** What the submissions make of a request is an ordinary run of it. */
  lemma {:induction false} SpeakingIsRun(s: State, bs: seq<Submission>, moves: seq<seq<Move>>) returns (steps: seq<Step>)
    requires |bs| == |moves|
    ensures Speaking(s, bs, moves).0 == Run(s, steps)
  {
    if bs == [] {
      steps := [];
    } else {
      var n := |bs| - 1;
      steps := SpeakingIsRun(s, bs[..n], moves[..n]);
      var (t, done) := Speaking(s, bs[..n], moves[..n]);
      if done {
        var more := SubmittingIsRun(t, bs[n].slices, moves[n]);
        RunConcat(s, steps, more);
        steps := steps + more;
      }
    }
  }

  /** Nothing more is submitted. */
  predicate NoSubmission(steps: seq<Step>) {
    forall i :: 0 <= i < |steps| ==> !steps[i].DoSubmitEnter? && !steps[i].DoSubmitCommit?
  }

  lemma {:induction false} OthersRecordNothing(s: State, steps: seq<Step>)
    requires s.config.rate > 0 && NoSubmission(steps)
    ensures RecordOf(Run(s, steps).stream) == RecordOf(s.stream)
    decreases |steps|
  {
    if steps != [] {
      if Enabled(s, steps[0]) {
        StepRecords(s, steps[0]);
        OthersKeepOffer(s, steps[0]);
        OthersRecordNothing(Apply(s, steps[0]), steps[1..]);
      } else {
        OthersRecordNothing(s, steps[1..]);
      }
    }
  }

  lemma AddedToNothing(s: State, t: State, bs: seq<Boundary>, done: bool)
    requires AddsFront(s, t, bs, done) && s.stream.log.boundaries == []
    ensures Ranges(t.stream.log.boundaries) <= Ranges(bs)
    ensures done ==> Ranges(t.stream.log.boundaries) == Ranges(bs)
  {
    var n: nat :| n <= |bs| && Adds(s, t, bs[..n]) && (done ==> n == |bs| && t.offer.None?);
    assert bs == bs[..n] + bs[n..];
    RangesConcat(bs[..n], bs[n..]);
  }

  /**
   * Whatever happens in between, afterwards and however it ends: the words the application is
   * told are a front part of the words submitted, each under its own text range. When all was
   * accepted and the request then completed and was destroyed, they are all of them.
   */
  lemma ToldAreSubmitted(config: Config, bs: seq<Submission>, moves: seq<seq<Move>>, after: seq<Step>)
    requires config.rate > 0 && |bs| == |moves| && NoSubmission(after)
    requires forall i :: 0 <= i < |bs| ==> IsSubmission(bs[i], config.HighWater())
    ensures var (t, done) := Speaking(Init(config), bs, moves);
      var u := Run(t, after);
      && WordsOf(u.dispatcher.delivered) <= Ranges(AllBoundaries(bs))
      && (done && u.life.destroyed && u.life.ending == Completed ==>
            WordsOf(u.dispatcher.delivered) == Ranges(AllBoundaries(bs)))
  {
    var s := Init(config);
    SpeakingAddsFront(s, bs, moves, config.HighWater());
    var (t, done) := Speaking(s, bs, moves);
    AddedToNothing(s, t, AllBoundaries(bs), done);
    OthersRecordNothing(t, after);
    var steps := SpeakingIsRun(s, bs, moves);
    RunConcat(s, steps, after);
    DeliveredWords(config, steps + after);
  }
}
