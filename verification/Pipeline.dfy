/**
 * The pipeline that feeds speech back into chunking: it asks the chunker for a chunk sized by the
 * predictor, and the predictor learns from every synthesis that finishes, in any order.
 */
module Pipeline {
  import opened AudioTypes
  import opened Chunker
  import opened Predictor
  import opened Punctuation
  import opened Reals

  const FIRST_CHUNK_TARGET_CHARACTERS := 100
  const HARD_MAX_CHUNK_CHARACTERS := 200

  /** The chunks so far, the calls they came from, what was learnt, and the first-chunk flag. */
  datatype Reading = Reading(chunks: Chunking, calls: seq<Call>, learnt: Statistics, first: bool)

  datatype Step =
    | Choose(runway: real)
    | Recorded(length: nat, seconds: real)

  function Start(learnt: Statistics): Reading { Reading(Chunking([], 0, true), [], learnt, true) }

  /** A fixed length for the first chunk, what the predictor chooses for the others. */
  function NextTarget(learnt: Statistics, first: bool, runway: real): int {
    if first then FIRST_CHUNK_TARGET_CHARACTERS else ChooseTarget(learnt, runway)
  }

  function Take(text: string, map_: PunctuationMap, r: Reading, step: Step): (q: Reading)
    requires r.chunks.cursor <= |text|
    ensures q.chunks.cursor <= |text|
  {
    match step
    case Recorded(length, seconds) => r.(learnt := Record(r.learnt, length, seconds))
    case Choose(runway) =>
      var call := Call(NextTarget(r.learnt, r.first, runway), HARD_MAX_CHUNK_CHARACTERS);
      var chunks := Continue(text, map_, r.chunks, call);
      Reading(chunks, r.calls + [call], r.learnt, r.first && |chunks.segments| == |r.chunks.segments|)
  }

  function Read(text: string, map_: PunctuationMap, learnt: Statistics, steps: seq<Step>): (r: Reading)
    ensures r.chunks.cursor <= |text|
  {
    if steps == [] then Start(learnt)
    else Take(text, map_, Read(text, map_, learnt, steps[..|steps| - 1]), steps[|steps| - 1])
  }

  /** What the pipeline may ask of the chunker. */
  predicate SafeCall(c: Call) {
    30 <= c.target <= 140 && c.hard == 200
  }

  /** The two first-chunk flags, the calls and the chunks belong together. */
  ghost predicate Consistent(text: string, map_: PunctuationMap, r: Reading) {
    && r.chunks == Chunks(text, map_, r.calls)
    && (r.first <==> r.chunks.first) && (r.first <==> r.chunks.segments == [])
    && forall i :: 0 <= i < |r.calls| ==> SafeCall(r.calls[i])
  }

  lemma {:induction false} FirstFlag(text: string, map_: PunctuationMap, calls: seq<Call>)
    ensures var r := Chunks(text, map_, calls); r.first <==> r.segments == []
  {
    if calls != [] {
      var before, call := Chunks(text, map_, calls[..|calls| - 1]), calls[|calls| - 1];
      FirstFlag(text, map_, calls[..|calls| - 1]);
      NextChunkIsLossless(text, map_, before.cursor, before.first, call.target, call.hard);
    }
  }

  lemma {:induction false} ReadIsConsistent(text: string, map_: PunctuationMap, learnt: Statistics, steps: seq<Step>)
    ensures Consistent(text, map_, Read(text, map_, learnt, steps))
  {
    if steps != [] {
      var before, step := Read(text, map_, learnt, steps[..|steps| - 1]), steps[|steps| - 1];
      ReadIsConsistent(text, map_, learnt, steps[..|steps| - 1]);
      TakeIsConsistent(text, map_, before, step);
    }
  }

  lemma TakeIsConsistent(text: string, map_: PunctuationMap, r: Reading, step: Step)
    requires r.chunks.cursor <= |text| && Consistent(text, map_, r)
    ensures Consistent(text, map_, Take(text, map_, r, step))
  {
    if step.Choose? {
      var q := Take(text, map_, r, step);
      assert q.calls[..|q.calls| - 1] == r.calls;
      TargetIsBoundedAndMonotone(r.learnt, step.runway, step.runway);
      FirstFlag(text, map_, r.calls);
      FirstFlag(text, map_, q.calls);
      ContinueExtends(text, map_, r.chunks, q.calls[|r.calls|]);
    }
  }

  /**
   * Whatever the runways, the synthesis times and the order in which they are learnt: the chunks
   * tile the text, none is longer than the hard limit, and the predictor stays sane.
   */
  lemma {:induction false} EveryReading(text: string, map_: PunctuationMap, learnt: Statistics, steps: seq<Step>)
    requires Sane(learnt)
    ensures var r := Read(text, map_, learnt, steps);
      && Tiles(text, r.chunks.segments, r.chunks.cursor) && Sane(r.learnt)
      && (forall s :: s in r.chunks.segments ==> |s.text| <= 200)
      && (|r.chunks.segments| < |r.calls| ==>
            EssentialOf(text, r.chunks.segments) == Essential(text, 0, |text|))
  {
    var r := Read(text, map_, learnt, steps);
    ReadIsConsistent(text, map_, learnt, steps);
    ChunksTile(text, map_, r.calls);
    ChunksAreBoundedAndEnd(text, map_, r.calls);
    NothingIsLost(text, map_, r.calls);
    LearningKeepsSane(text, map_, learnt, steps);
  }

  lemma {:induction false} LearningKeepsSane(text: string, map_: PunctuationMap, learnt: Statistics, steps: seq<Step>)
    requires Sane(learnt)
    ensures Sane(Read(text, map_, learnt, steps).learnt)
  {
    if steps != [] {
      var before, step := Read(text, map_, learnt, steps[..|steps| - 1]), steps[|steps| - 1];
      LearningKeepsSane(text, map_, learnt, steps[..|steps| - 1]);
      if step.Recorded? { RecordKeepsSane(before.learnt, step.length, step.seconds); }
    }
  }

  ghost predicate AllPlaced(text: string, segments: seq<Segment>, calls: seq<Call>) {
    |segments| <= |calls| && forall i :: 0 <= i < |segments| ==> WellPlaced(text, segments[i], i == 0, calls[i])
  }

  lemma NextIsWellPlaced(text: string, map_: PunctuationMap, cursor: nat, first: bool, call: Call)
    requires cursor <= |text| && Indexes(map_, text) && SafeCall(call)
    ensures var o := Next(text, map_, cursor, first, call.target, call.hard);
      o.segment.Some? ==> WellPlaced(text, o.segment.value, first, call)
  {
    var o := Next(text, map_, cursor, first, call.target, call.hard);
    ChunkEndsWell(text, map_, cursor, first, call.target, call.hard);
    NextChunkIsLossless(text, map_, cursor, first, call.target, call.hard);
    if o.segment.Some? { ChunkEndsInText(text, o.segment.value); PunctuationRules(text, o.segment.value, first, call); }
  }

  lemma PlacedExtends(text: string, c: Chunking, d: Chunking, calls: seq<Call>)
    requires |calls| > 0 && AllPlaced(text, c.segments, calls[..|calls| - 1])
    requires |c.segments| < |calls| - 1 ==> d.segments == c.segments
    requires Extends(text, c, d, calls[|calls| - 1].hard)
    requires |d.segments| > |c.segments| ==> WellPlaced(text, d.segments[|c.segments|], |c.segments| == 0, calls[|calls| - 1])
    ensures AllPlaced(text, d.segments, calls)
  {
    if |d.segments| > |c.segments| {
      assert forall i :: 0 <= i < |c.segments| ==> d.segments[i] == d.segments[..|c.segments|][i];
    }
  }

  /** Safe calls place every chunk well. */
  lemma {:induction false} SafeCallsPlaceWell(text: string, map_: PunctuationMap, calls: seq<Call>)
    requires Indexes(map_, text) && forall i :: 0 <= i < |calls| ==> SafeCall(calls[i])
    ensures AllPlaced(text, Chunks(text, map_, calls).segments, calls)
  {
    if calls != [] {
      var before, call := Chunks(text, map_, calls[..|calls| - 1]), calls[|calls| - 1];
      SafeCallsPlaceWell(text, map_, calls[..|calls| - 1]);
      ChunksAreBoundedAndEnd(text, map_, calls[..|calls| - 1]);
      FirstFlag(text, map_, calls[..|calls| - 1]);
      ContinueExtends(text, map_, before, call);
      NextIsWellPlaced(text, map_, before.cursor, before.first, call);
      PlacedExtends(text, before, Continue(text, map_, before, call), calls);
    }
  }

  /** Every chunk of every reading ends at the best boundary there is, or takes the rest of its line. */
  lemma ReadingIsWellPlaced(text: string, map_: PunctuationMap, learnt: Statistics, steps: seq<Step>)
    requires Indexes(map_, text)
    ensures var r := Read(text, map_, learnt, steps); AllPlaced(text, r.chunks.segments, r.calls)
  {
    ReadIsConsistent(text, map_, learnt, steps);
    SafeCallsPlaceWell(text, map_, Read(text, map_, learnt, steps).calls);
  }

  /**
   * In every reading: the first chunk is asked for with 100 characters, and so is the next one
   * until there is a chunk. Every later call asks for a length that fits the runway it was made
   * with, by what was learnt until then, and is as long as that allows.
   */
  lemma CallsFitTheRunway(text: string, map_: PunctuationMap, learnt: Statistics, steps: seq<Step>, runway: real)
    requires Sane(learnt)
    ensures var r := Read(text, map_, learnt, steps);
      var q := Read(text, map_, learnt, steps + [Choose(runway)]);
      && |q.calls| == |r.calls| + 1 && q.calls[..|r.calls|] == r.calls && q.learnt == r.learnt
      && var target := q.calls[|r.calls|].target;
      if r.chunks.segments == [] then target == 100 else FillsRunway(r.learnt, runway, target)
  {
    var r := Read(text, map_, learnt, steps);
    var longer := steps + [Choose(runway)];
    assert longer[..|longer| - 1] == steps;
    ReadIsConsistent(text, map_, learnt, steps);
    LearningKeepsSane(text, map_, learnt, steps);
    TargetFillsTheRunway(r.learnt, runway);
  }

  /** In every reading: a synthesis that is recorded moves the prediction for its length towards it. */
  lemma ReadingsLearn(text: string, map_: PunctuationMap, learnt: Statistics, steps: seq<Step>, length: nat, seconds: real)
    requires Sane(learnt) && length > 0 && seconds >= 0.0
    ensures var r := Read(text, map_, learnt, steps);
      var q := Read(text, map_, learnt, steps + [Recorded(length, seconds)]);
      && q.chunks == r.chunks && q.calls == r.calls && q.first == r.first
      && q.learnt.observations == r.learnt.observations + 1
      && Abs(Error(q.learnt, length, seconds)) <= Shrunk(r.learnt, Abs(Error(r.learnt, length, seconds)))
  {
    var r := Read(text, map_, learnt, steps);
    var longer := steps + [Recorded(length, seconds)];
    assert longer[..|longer| - 1] == steps;
    LearningKeepsSane(text, map_, learnt, steps);
    VariableIsSane(r.learnt, length);
    RecordContracts(r.learnt, length, seconds);
    RecordCounts(r.learnt, length, seconds);
  }

  // ----- The pipeline object -------------------------------------------------------------

  datatype ChunkDecision = ChunkDecision(
    segment: Segment, targetCharacters: int, playbackRunway: real, predictedSeconds: real)

  /** One text's pipeline; the statistics object outlives it and is shared with later texts. */
  class AdaptiveSpeechPipeline {
    const chunker: AdaptiveSpeechChunker
    const statistics: GenerationStatistics
    var first: bool

    constructor (text: string, statistics: GenerationStatistics)
      ensures fresh(chunker) && chunker.Valid() && chunker.text == text
      ensures this.statistics == statistics && View([]) == Start(statistics.View())
    {
      chunker := new AdaptiveSpeechChunker(text);
      this.statistics, first := statistics, true;
    }

    /** The pipeline's place in the model, given the chunks returned so far. */
    ghost function View(returned: seq<Segment>): Reading
      reads this, chunker, statistics
    {
      Reading(Chunking(returned, chunker.cursor, chunker.first), [], statistics.View(), first)
    }

    /** The next chunk, if there is one, and why it was chosen. */
    method ChooseNext(runway: real) returns (decision: Option<ChunkDecision>)
      requires chunker.Valid()
      modifies this, chunker
      ensures chunker.Valid()
      ensures var added := if decision.Some? then [decision.value.segment] else [];
        View(added) == Take(chunker.text, chunker.punctuation, old(View([])), Choose(runway)).(calls := [])
      ensures decision.Some? ==>
        && decision.value.targetCharacters == NextTarget(statistics.View(), old(first), runway)
        && decision.value.playbackRunway == runway
        && decision.value.predictedSeconds == Estimate(statistics.View(), |decision.value.segment.text|)
    {
      var target := if first then FIRST_CHUNK_TARGET_CHARACTERS else ChooseTarget(statistics.View(), runway);
      var segment := chunker.NextChunk(target, HARD_MAX_CHUNK_CHARACTERS);
      if segment.None? { return None; }
      first := false;
      var predicted := Estimate(statistics.View(), |segment.value.text|);
      decision := Some(ChunkDecision(segment.value, target, runway, predicted));
    }

    method RecordGeneration(segment: Segment, seconds: real)
      modifies statistics
      ensures statistics.View() == Record(old(statistics.View()), |segment.text|, seconds)
    {
      statistics.RecordGeneration(|segment.text|, seconds);
    }
  }
}
