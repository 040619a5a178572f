/**
 * A whole text read aloud: it is cut into chunks, every chunk is synthesised, its words are
 * submitted with its audio, and the application is told the words that were heard. The
 * highlighted word never goes back in the text.
 */
module SpokenReading {
  import opened AudioTypes
  import opened EdgeSilence
  import opened RequestInvariant
  import opened RequestReading
  import opened Supertonic
  import opened Utf16
  import opened Words
  import Admission
  import C = Chunker
  import Pipeline
  import Predictor
  import Punctuation
  import RequestAccepted
  import RequestModel

  function CodePoints(text: string): (r: seq<CodePoint>)
    ensures |r| == |text| && WellFormed(r)
  {
    seq(|text|, i requires 0 <= i < |text| => text[i] as int)
  }

  // ----- Text ranges in order ------------------------------------------------------------

  /** Each range begins where the one before it has ended, or later. */
  ghost predicate InTextOrder(rs: seq<(nat, nat)>) {
    forall i, j :: 0 <= i < j < |rs| ==> rs[i].0 + rs[i].1 <= rs[j].0
  }

  ghost predicate Within(rs: seq<(nat, nat)>, low: nat, high: nat) {
    forall i :: 0 <= i < |rs| ==> low <= rs[i].0 && rs[i].0 + rs[i].1 <= high
  }

  /** Ranges in text order, all inside one part of the text. */
  ghost predicate Covers(rs: seq<(nat, nat)>, low: nat, high: nat) { InTextOrder(rs) && Within(rs, low, high) }

  lemma CoversJoin(a: seq<Boundary>, b: seq<Boundary>, mid: nat, end: nat, high: nat)
    requires Covers(Ranges(a), 0, mid) && Covers(Ranges(b), mid, end) && mid <= end <= high
    ensures Covers(Ranges(a + b), 0, high)
  {
    RangesConcat(a, b);
  }

  // ----- The words of one chunk ----------------------------------------------------------

  function MadeOf(text: seq<CodePoint>, es: seq<Estimated>, t: Trim, offset: nat, rate: nat): seq<Boundary>
    requires rate > 0
  {
    var bs := BoundariesOf(text, es, t, offset, rate);
    if bs.Some? then bs.value else []
  }

  function WordsOfTrimmed(code: seq<CodePoint>, offset: nat, spoken: seq<CodePoint>, lib: Library, t: Trim, rate: nat): seq<Boundary>
    requires rate > 0
  {
    MadeOf(code, Estimates(spoken, lib, SpokenSeconds(t, rate)), t, offset, rate)
  }

  /** The boundaries submitted with the audio of a chunk. */
  function WordsOfChunk(code: seq<CodePoint>, s: C.Segment, lib: Library, samples: seq<real>, rate: nat): seq<Boundary>
    requires rate > 0
  {
    WordsOfTrimmed(code, s.offset, CodePoints(s.text), lib, NormalizeEdgeSilence(samples, rate), rate)
  }

  lemma {:induction false} BoundariesAreMade(text: seq<CodePoint>, es: seq<Estimated>, t: Trim, offset: nat, rate: nat)
    requires rate > 0 && BoundariesOf(text, es, t, offset, rate).Some?
    ensures var bs := BoundariesOf(text, es, t, offset, rate).value;
      |bs| == |es| && forall i :: 0 <= i < |es| ==> BoundaryOf(text, es[i], t, offset, rate) == Some(bs[i])
  {
    if es != [] { BoundariesAreMade(text, es[..|es| - 1], t, offset, rate); }
  }

  lemma {:induction false} EstimatesFollowWords(text: seq<CodePoint>, lib: Library, words: seq<Word>, duration: real, n: nat)
    requires InOrder(words, 0, |text|) && n <= |words|
    ensures forall i :: 0 <= i < n ==>
      var e := EstimatesUpTo(text, lib, words, duration, n)[i];
      e.position == words[i].start && e.length == words[i].end - words[i].start
  {
    if n > 0 { EstimatesFollowWords(text, lib, words, duration, n - 1); }
  }

  /** The estimates stand in the order of the spoken text and inside it. */
  ghost predicate InSpokenOrder(es: seq<Estimated>, length: nat) {
    && (forall i :: 0 <= i < |es| ==> 0 < es[i].length && es[i].position + es[i].length <= length)
    && (forall i, j :: 0 <= i < j < |es| ==> es[i].position + es[i].length <= es[j].position)
  }

  lemma EstimatesInOrder(spoken: seq<CodePoint>, lib: Library, duration: real)
    ensures InSpokenOrder(Estimates(spoken, lib, duration), |spoken|)
  {
    var words := Matches(spoken, lib.isWord, 0);
    MatchesAreInOrder(spoken, lib.isWord, 0);
    EstimatesFollowWords(spoken, lib, words, duration, |words|);
  }

  /** The boundary names the text from `offset` on that the estimate names in the spoken text. */
  ghost predicate Named(text: seq<CodePoint>, e: Estimated, offset: nat, b: Boundary) {
    var from, to := offset + e.position, offset + e.position + e.length;
    to <= |text| && b.position == Edge(text, from) && b.position + b.length == Edge(text, to)
  }

  lemma MadeIsNamed(text: seq<CodePoint>, e: Estimated, t: Trim, offset: nat, rate: nat)
    requires rate > 0 && WellFormed(text) && Length(text) <= UINT32_MAX
    requires 0 < e.length && offset + e.position + e.length <= |text| && BoundaryOf(text, e, t, offset, rate).Some?
    ensures Named(text, e, offset, BoundaryOf(text, e, t, offset, rate).value)
  {
    var from := offset + e.position;
    BoundaryIs(text, FrameOf(e.seconds, t.leadingFrames, rate), from, e.length);
  }

  lemma NamedInOrder(text: seq<CodePoint>, e: Estimated, f: Estimated, offset: nat, b: Boundary, c: Boundary)
    requires Named(text, e, offset, b) && Named(text, f, offset, c) && e.position + e.length <= f.position
    ensures b.position + b.length <= c.position
  {
    EdgesGrow(text, offset + e.position + e.length, offset + f.position);
  }

  lemma NamedInside(text: seq<CodePoint>, e: Estimated, offset: nat, b: Boundary, size: nat)
    requires Named(text, e, offset, b) && e.position + e.length <= size && offset + size <= |text|
    ensures Edge(text, offset) <= b.position && b.position + b.length <= Edge(text, offset + size)
  {
    EdgesGrow(text, offset, offset + e.position);
    EdgesGrow(text, offset + e.position + e.length, offset + size);
  }

  ghost predicate AllNamed(text: seq<CodePoint>, es: seq<Estimated>, offset: nat, bs: seq<Boundary>) {
    |bs| == |es| && forall i :: 0 <= i < |es| ==> Named(text, es[i], offset, bs[i])
  }

  lemma AllAreNamed(text: seq<CodePoint>, es: seq<Estimated>, t: Trim, offset: nat, rate: nat, size: nat)
    requires rate > 0 && WellFormed(text) && Length(text) <= UINT32_MAX && offset + size <= |text|
    requires InSpokenOrder(es, size) && BoundariesOf(text, es, t, offset, rate).Some?
    ensures AllNamed(text, es, offset, BoundariesOf(text, es, t, offset, rate).value)
  {
    BoundariesAreMade(text, es, t, offset, rate);
    forall i | 0 <= i < |es| ensures Named(text, es[i], offset, BoundariesOf(text, es, t, offset, rate).value[i]) {
      MadeIsNamed(text, es[i], t, offset, rate);
    }
  }

  /** A chunk's words are told in their order and inside the chunk's part of the text. */
  lemma AllInOrder(text: seq<CodePoint>, es: seq<Estimated>, offset: nat, bs: seq<Boundary>, size: nat)
    requires AllNamed(text, es, offset, bs) && InSpokenOrder(es, size) && offset + size <= |text|
    ensures Covers(Ranges(bs), Edge(text, offset), Edge(text, offset + size))
  {
    forall i | 0 <= i < |bs|
      ensures Edge(text, offset) <= bs[i].position && bs[i].position + bs[i].length <= Edge(text, offset + size)
    {
      NamedInside(text, es[i], offset, bs[i], size);
    }
    forall i, j | 0 <= i < j < |bs| ensures bs[i].position + bs[i].length <= bs[j].position {
      NamedInOrder(text, es[i], es[j], offset, bs[i], bs[j]);
    }
  }

  lemma MadeInOrder(text: seq<CodePoint>, es: seq<Estimated>, t: Trim, offset: nat, rate: nat, size: nat)
    requires rate > 0 && WellFormed(text) && Length(text) <= UINT32_MAX && offset + size <= |text|
    requires InSpokenOrder(es, size)
    ensures Covers(Ranges(MadeOf(text, es, t, offset, rate)), Edge(text, offset), Edge(text, offset + size))
  {
    if BoundariesOf(text, es, t, offset, rate).Some? {
      AllAreNamed(text, es, t, offset, rate, size);
      AllInOrder(text, es, offset, BoundariesOf(text, es, t, offset, rate).value, size);
    }
  }

  lemma EstimatedInOrder(code: seq<CodePoint>, offset: nat, spoken: seq<CodePoint>, lib: Library, duration: real, t: Trim, rate: nat)
    requires rate > 0 && WellFormed(code) && Length(code) <= UINT32_MAX && offset + |spoken| <= |code|
    ensures Covers(Ranges(MadeOf(code, Estimates(spoken, lib, duration), t, offset, rate)),
                   Edge(code, offset), Edge(code, offset + |spoken|))
  {
    EstimatesInOrder(spoken, lib, duration);
    MadeInOrder(code, Estimates(spoken, lib, duration), t, offset, rate, |spoken|);
  }

  lemma TrimmedInOrder(code: seq<CodePoint>, offset: nat, spoken: seq<CodePoint>, end: nat, lib: Library, t: Trim, rate: nat)
    requires rate > 0 && WellFormed(code) && Length(code) <= UINT32_MAX && offset + |spoken| == end <= |code|
    ensures Covers(Ranges(WordsOfTrimmed(code, offset, spoken, lib, t, rate)), Edge(code, offset), Edge(code, end))
  {
    EstimatedInOrder(code, offset, spoken, lib, SpokenSeconds(t, rate), t, rate);
  }

  lemma ChunkInOrder(code: seq<CodePoint>, s: C.Segment, end: nat, lib: Library, samples: seq<real>, rate: nat)
    requires rate > 0 && WellFormed(code) && Length(code) <= UINT32_MAX && s.offset + |s.text| == end <= |code|
    ensures Covers(Ranges(WordsOfChunk(code, s, lib, samples, rate)), Edge(code, s.offset), Edge(code, end))
  {
    TrimmedInOrder(code, s.offset, CodePoints(s.text), end, lib, NormalizeEdgeSilence(samples, rate), rate);
  }

  // ----- The words of all chunks ---------------------------------------------------------

  /** The words of the chunks, one chunk after the other, whatever waveforms they were given. */
  function AllWords(code: seq<CodePoint>, segments: seq<C.Segment>, lib: Library, waves: seq<seq<real>>, rate: nat): seq<Boundary>
    requires rate > 0 && |waves| == |segments|
  {
    if segments == [] then []
    else
      var n := |segments| - 1;
      AllWords(code, segments[..n], lib, waves[..n], rate) + WordsOfChunk(code, segments[n], lib, waves[n], rate)
  }

  /** One more chunk, behind the part of the text that is read. */
  lemma ChunkFollows(code: seq<CodePoint>, words: seq<Boundary>, s: C.Segment, lib: Library, samples: seq<real>, rate: nat, to: nat)
    requires rate > 0 && WellFormed(code) && Length(code) <= UINT32_MAX && s.offset + |s.text| <= to <= |code|
    requires Covers(Ranges(words), 0, Edge(code, s.offset))
    ensures Covers(Ranges(words + WordsOfChunk(code, s, lib, samples, rate)), 0, Edge(code, to))
  {
    var end := s.offset + |s.text|;
    ChunkInOrder(code, s, end, lib, samples, rate);
    EdgesGrow(code, s.offset, end);
    EdgesGrow(code, end, to);
    CoversJoin(words, WordsOfChunk(code, s, lib, samples, rate), Edge(code, s.offset), Edge(code, end), Edge(code, to));
  }

  /** The words of successive chunks lie one after the other in the text. */
  lemma {:induction false} ChunksInOrder(text: string, segments: seq<C.Segment>, to: nat, lib: Library, waves: seq<seq<real>>, rate: nat)
    requires rate > 0 && |waves| == |segments| && Length(CodePoints(text)) <= UINT32_MAX
    requires C.Tiles(text, segments, to) && to <= |text|
    ensures Covers(Ranges(AllWords(CodePoints(text), segments, lib, waves, rate)), 0, Edge(CodePoints(text), to))
  {
    if segments != [] {
      var n := |segments| - 1;
      var s := segments[n];
      LastIsBehind(text, segments, to);
      ChunksInOrder(text, segments[..n], s.offset, lib, waves[..n], rate);
      ChunkFollows(CodePoints(text), AllWords(CodePoints(text), segments[..n], lib, waves[..n], rate), s, lib, waves[n], rate, to);
    }
  }

  lemma LastIsBehind(text: string, segments: seq<C.Segment>, to: nat)
    requires C.Tiles(text, segments, to) && segments != []
    ensures var s := segments[|segments| - 1];
      s.offset + |s.text| <= to <= |text| && C.Tiles(text, segments[..|segments| - 1], s.offset)
  {
    C.LastTile(text, segments, to);
  }

  // ----- The whole reading ---------------------------------------------------------------

  /** A chunk's submission, and the pause that may follow it. */
  datatype Turn = Turn(samples: seq<real>, chunk: Submission, pauses: seq<Submission>)

  /** The chunk's audio is its trimmed waveform with its words; a pause is audio without words. */
  ghost predicate IsTurn(code: seq<CodePoint>, s: C.Segment, lib: Library, turn: Turn, rate: nat) {
    && rate > 0 && 2 * |turn.samples| <= UINT64_MAX
    && var t, limit := NormalizeEdgeSilence(turn.samples, rate), RequestModel.Config(rate, Length(code)).HighWater();
    && |turn.chunk.pcm| == BYTES_PER_FRAME * (t.until - t.from)
    && turn.chunk.boundaries == WordsOfChunk(code, s, lib, turn.samples, rate)
    && Admission.IsSlicing(turn.chunk.slices, turn.chunk.pcm, turn.chunk.boundaries, limit)
    && forall i :: 0 <= i < |turn.pauses| ==> turn.pauses[i].boundaries == [] && IsSubmission(turn.pauses[i], limit)
  }

  function Waves(turns: seq<Turn>): (r: seq<seq<real>>)
    ensures |r| == |turns|
  {
    seq(|turns|, i requires 0 <= i < |turns| => turns[i].samples)
  }

  /** All submissions of a reading, in order. */
  function Submissions(turns: seq<Turn>): seq<Submission> {
    if turns == [] then []
    else
      var last := turns[|turns| - 1];
      Submissions(turns[..|turns| - 1]) + ([last.chunk] + last.pauses)
  }

  lemma {:induction false} BoundariesOfConcat(a: seq<Submission>, b: seq<Submission>)
    ensures AllBoundaries(a + b) == AllBoundaries(a) + AllBoundaries(b)
  {
    if b == [] {
      assert a + b == a;
    } else {
      var n := |b| - 1;
      assert (a + b)[..|a| + n] == a + b[..n];
      BoundariesOfConcat(a, b[..n]);
    }
  }

  lemma {:induction false} PausesHaveNone(pauses: seq<Submission>)
    requires forall i :: 0 <= i < |pauses| ==> pauses[i].boundaries == []
    ensures AllBoundaries(pauses) == []
  {
    if pauses != [] { PausesHaveNone(pauses[..|pauses| - 1]); }
  }

  lemma TurnHasWords(turn: Turn)
    requires forall i :: 0 <= i < |turn.pauses| ==> turn.pauses[i].boundaries == []
    ensures AllBoundaries([turn.chunk] + turn.pauses) == turn.chunk.boundaries
  {
    BoundariesOfConcat([turn.chunk], turn.pauses);
    PausesHaveNone(turn.pauses);
    assert [turn.chunk][..0] == [] && AllBoundaries([]) == [];
  }

  ghost predicate AreTurns(code: seq<CodePoint>, segments: seq<C.Segment>, lib: Library, turns: seq<Turn>, rate: nat) {
    |turns| == |segments| && forall i :: 0 <= i < |turns| ==> IsTurn(code, segments[i], lib, turns[i], rate)
  }

  lemma {:induction false} SubmittedWords(code: seq<CodePoint>, segments: seq<C.Segment>, lib: Library, turns: seq<Turn>, rate: nat)
    requires rate > 0 && AreTurns(code, segments, lib, turns, rate)
    ensures AllBoundaries(Submissions(turns)) == AllWords(code, segments, lib, Waves(turns), rate)
  {
    if turns != [] {
      var n := |turns| - 1;
      SubmittedWords(code, segments[..n], lib, turns[..n], rate);
      assert Waves(turns)[..n] == Waves(turns[..n]);
      assert IsTurn(code, segments[n], lib, turns[n], rate);
      TurnHasWords(turns[n]);
      BoundariesOfConcat(Submissions(turns[..n]), [turns[n].chunk] + turns[n].pauses);
    }
  }

  /** A chunk without audio has no words. */
  lemma SilentChunk(code: seq<CodePoint>, s: C.Segment, lib: Library, samples: seq<real>, t: Trim, rate: nat)
    requires rate > 0 && IsTrim(samples, t) && t.from == t.until
    ensures WordsOfTrimmed(code, s.offset, CodePoints(s.text), lib, t, rate) == []
  {
    if SpokenSeconds(t, rate) > 0.0 { SpeechIsPositive(t, rate); }
  }

  lemma ChunkIsSubmission(code: seq<CodePoint>, s: C.Segment, lib: Library, turn: Turn, rate: nat)
    requires IsTurn(code, s, lib, turn, rate)
    ensures IsSubmission(turn.chunk, RequestModel.Config(rate, Length(code)).HighWater())
  {
    TrimFits(turn.samples, rate);
    if turn.chunk.pcm == [] { SilentChunk(code, s, lib, turn.samples, NormalizeEdgeSilence(turn.samples, rate), rate); }
  }

  lemma {:induction false} AllAreSubmissions(code: seq<CodePoint>, segments: seq<C.Segment>, lib: Library, turns: seq<Turn>, rate: nat)
    requires AreTurns(code, segments, lib, turns, rate)
    ensures var limit := RequestModel.Config(rate, Length(code)).HighWater();
      forall i :: 0 <= i < |Submissions(turns)| ==> IsSubmission(Submissions(turns)[i], limit)
  {
    if turns != [] {
      var n := |turns| - 1;
      AllAreSubmissions(code, segments[..n], lib, turns[..n], rate);
      assert IsTurn(code, segments[n], lib, turns[n], rate);
      ChunkIsSubmission(code, segments[n], lib, turns[n], rate);
    }
  }

  lemma FrontInOrder(a: seq<(nat, nat)>, b: seq<(nat, nat)>)
    requires a <= b && InTextOrder(b)
    ensures InTextOrder(a)
  {
  }

  /** A chunk of the text, in code points. */
  lemma ChunkIsSpoken(text: string, s: C.Segment, samples: seq<real>, rate: nat)
    requires rate > 0 && C.IsChunk(text, s) && Length(CodePoints(text)) <= UINT32_MAX && 2 * |samples| <= UINT64_MAX
    ensures Supertonic.IsChunk(CodePoints(text), s.offset, CodePoints(s.text), samples, rate)
  {
  }

  /** No word of a chunk is missing: a boundary is made for each, and covers exactly it. */
  lemma EveryWordIsSubmitted(text: string, s: C.Segment, lib: Library, samples: seq<real>, rate: nat)
    requires rate > 0 && C.IsChunk(text, s) && Length(CodePoints(text)) <= UINT32_MAX && 2 * |samples| <= UINT64_MAX
    ensures var t := NormalizeEdgeSilence(samples, rate);
      AllGood(CodePoints(text), CodePoints(s.text), Estimates(CodePoints(s.text), lib, SpokenSeconds(t, rate)),
              WordsOfChunk(CodePoints(text), s, lib, samples, rate), t, rate)
  {
    ChunkIsSpoken(text, s, samples, rate);
    ChunkIsSubmittable(CodePoints(text), s.offset, CodePoints(s.text), lib, samples, rate);
  }

  /**
   * However the text was cut and synthesised, and whatever else happens to the request: the words
   * the application is told are a front part of the words of the chunks, and each lies behind
   * the one before it in the text. When the whole reading was accepted and has completed, they
   * are all of them.
   */
  lemma HighlightNeverGoesBack(text: string, map_: Punctuation.PunctuationMap, learnt: Predictor.Statistics,
                               steps: seq<Pipeline.Step>, lib: Library, turns: seq<Turn>, rate: nat,
                               moves: seq<seq<RequestAccepted.Move>>, after: seq<RequestModel.Step>)
    requires rate > 0 && Length(CodePoints(text)) <= UINT32_MAX && |moves| == |Submissions(turns)| && NoSubmission(after)
    requires AreTurns(CodePoints(text), Pipeline.Read(text, map_, learnt, steps).chunks.segments, lib, turns, rate)
    ensures var code := CodePoints(text);
      var words := AllWords(code, Pipeline.Read(text, map_, learnt, steps).chunks.segments, lib, Waves(turns), rate);
      var (s, done) := Speaking(RequestModel.Init(RequestModel.Config(rate, Length(code))), Submissions(turns), moves);
      var t := RequestModel.Run(s, after);
      && WordsOf(t.dispatcher.delivered) <= Ranges(words)
      && InTextOrder(WordsOf(t.dispatcher.delivered))
      && (done && t.life.destroyed && t.life.ending == Completed ==> WordsOf(t.dispatcher.delivered) == Ranges(words))
  {
    var code, r := CodePoints(text), Pipeline.Read(text, map_, learnt, steps);
    Pipeline.ReadIsConsistent(text, map_, learnt, steps);
    C.ChunksTile(text, map_, r.calls);
    ChunksInOrder(text, r.chunks.segments, r.chunks.cursor, lib, Waves(turns), rate);
    AllAreSubmissions(code, r.chunks.segments, lib, turns, rate);
    SubmittedWords(code, r.chunks.segments, lib, turns, rate);
    var config := RequestModel.Config(rate, Length(code));
    ToldAreSubmitted(config, Submissions(turns), moves, after);
    var (s, done) := Speaking(RequestModel.Init(config), Submissions(turns), moves);
    FrontInOrder(WordsOf(RequestModel.Run(s, after).dispatcher.delivered),
                 Ranges(AllWords(code, r.chunks.segments, lib, Waves(turns), rate)));
  }
}
