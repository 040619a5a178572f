/**
 * What every step of a playback request keeps: where each accepted byte is, where each
 * accepted word is, how many frames are buffered, and which events were or will be delivered.
 */
module RequestInvariant {
  import opened AudioTypes
  import opened RequestModel

  // ----- Vocabulary ----------------------------------------------------------------------

  function Flatten(handed: seq<Handed>): seq<byte> {
    if handed == [] then [] else Flatten(handed[..|handed| - 1]) + handed[|handed| - 1].pcm
  }

  function PendingFrames(st: Stream): nat { if st.pending.Some? then st.pending.value.frames else 0 }

  function PendingPcm(st: Stream): seq<byte> { if st.pending.Some? then st.pending.value.pcm else [] }

  /** The text ranges of a sequence of boundaries. */
  function Ranges(bs: seq<Boundary>): (r: seq<(nat, nat)>)
    ensures |r| == |bs|
  {
    seq(|bs|, i requires 0 <= i < |bs| => (bs[i].position, bs[i].length))
  }

  /** Every event so far: delivered, taken by the dispatcher, still queued. */
  function History(d: Dispatcher): seq<Event> { d.delivered + d.batch + d.queue }

  predicate WellSized(b: Buffer) { b.frames > 0 && |b.pcm| == b.frames * BYTES_PER_FRAME }

  predicate EndsStream(handed: seq<Handed>) {
    handed != [] && handed[|handed| - 1].endOfStream
  }

  /** No buffer handed over carries the end-of-stream mark. */
  ghost predicate Unmarked(handed: seq<Handed>) {
    forall i :: 0 <= i < |handed| ==> !handed[i].endOfStream
  }

  // ----- Invariant -----------------------------------------------------------------------

  /** Flags that only move one way. */
  predicate Flags(s: State) {
    && s.config.rate > 0
    && s.voice.alive == !s.life.terminal
    && (s.life.ending == NotEnded <==> !s.life.terminal)
    && s.life.accepting == !s.life.inputFinished
    && (s.life.terminal ==> s.life.inputFinished)
    && (s.life.destroying ==> s.life.terminal)
    && (s.life.destroyed ==> s.dispatcher.exited)
    && (s.dispatcher.exited ==> s.life.destroying && s.dispatcher.batch == [] && s.dispatcher.queue == [])
  }

  /** A waiting submission passed every check. */
  ghost predicate Offered(s: State) {
    s.offer.Some? ==>
      && |s.offer.value.pcm| > 0
      && CheckSubmission(s.config, s.offer.value.pcm, s.offer.value.boundaries) == Ok
      && (!s.life.terminal ==> s.stream.pending.None?)
  }

  /** The accepted boundaries are in order, inside the accepted audio and inside the text. */
  ghost predicate Accepts(textLength: nat, st: Stream) {
    && |st.log.accepted| == st.acceptedFrames * BYTES_PER_FRAME
    && ValidBoundaries(st.log.boundaries, st.acceptedFrames, textLength)
    && (st.acceptedFrames == 0 ==> st.log.boundaries == [])
    && st.log.words <= st.log.boundaries
  }

  /** End of stream is marked at most once, on the last buffer, after the input is finished. */
  ghost predicate EndMark(handed: seq<Handed>, inputFinished: bool) {
    forall i :: 0 <= i < |handed| && handed[i].endOfStream ==> inputFinished && i == |handed| - 1
  }

  ghost predicate Tells(d: Dispatcher, l: Life, words: seq<Boundary>) {
    && OneSession(History(d), l.terminal)
    && (l.terminal ==> History(d)[|History(d)| - 1] == Terminal(l.ending, l.error))
    && WordsOf(History(d)) == Ranges(words)
    && (d.terminalDelivered <==> d.delivered != [] && d.delivered[|d.delivered| - 1].Terminal?)
  }

  ghost predicate Always(s: State) {
    && Flags(s) && Offered(s)
    && Accepts(s.config.textLength, s.stream)
    && EndMark(s.stream.log.handed, s.life.inputFinished)
    && Tells(s.dispatcher, s.life, s.stream.log.words)
  }

  /** Frame, byte and word conservation while the request is live. */
  ghost predicate Conserves(hard: nat, st: Stream) {
    && (forall i :: 0 <= i < |st.submitted| ==> WellSized(st.submitted[i]))
    && (st.pending.Some? ==> WellSized(st.pending.value))
    && st.bufferedFrames == TotalFrames(st.submitted) + PendingFrames(st)
    && st.bufferedFrames <= hard
    && st.acceptedFrames == st.bufferedFrames + st.log.reclaimed
    && st.acceptedFrames == st.submittedFrames + PendingFrames(st)
    && Flatten(st.log.handed) + PendingPcm(st) == st.log.accepted
    && st.log.words + st.boundaries == st.log.boundaries
  }

  /** A producer waits behind audio that is enough to play and nothing holds the voice back. */
  predicate ShouldPlay(s: State) {
    && s.offer.Some? && s.life.accepting && !s.voice.paused && s.voice.fault == Ok
    && s.stream.acceptedFrames > 0 && s.stream.submittedFrames >= s.config.Prebuffer()
  }

  ghost predicate Live(s: State) {
    && Conserves(s.config.HardCapacity(), s.stream)
    && (s.life.accepting && s.offer.None? && s.stream.acceptedFrames > 0 ==> s.stream.pending.Some?)
    && (s.life.inputFinished ==> s.stream.pending.None? && EndsStream(s.stream.log.handed))
    && (ShouldPlay(s) ==> s.voice.started)
    && (s.life.accepting && s.voice.started ==> s.stream.submittedFrames >= s.config.Prebuffer())
    && (s.life.inputFinished && !s.voice.paused ==> s.voice.started)
  }

  predicate Cleared(st: Stream) {
    st.pending.None? && st.submitted == [] && st.boundaries == [] && st.bufferedFrames == 0
  }

  /** What COMPLETED promises: every byte handed over and played, every word told. */
  ghost predicate Played(st: Stream) {
    && Flatten(st.log.handed) == st.log.accepted
    && st.log.reclaimed == st.acceptedFrames
    && st.log.words == st.log.boundaries
    && (st.log.accepted != [] ==> EndsStream(st.log.handed))
  }

  ghost predicate Inv(s: State) {
    && Always(s)
    && (if s.life.terminal then Cleared(s.stream) else Live(s))
    && (s.life.ending == Completed ==> Played(s.stream))
  }

  // ----- Events --------------------------------------------------------------------------

  lemma {:induction false} WordsOfWordEvents(bs: seq<Boundary>)
    ensures WordsOf(WordEvents(bs)) == Ranges(bs)
  {
    if bs != [] {
      var front := bs[..|bs| - 1];
      WordsOfWordEvents(front);
      assert WordEvents(bs)[..|bs| - 1] == WordEvents(front);
      assert Ranges(bs) == Ranges(front) + [(bs[|bs| - 1].position, bs[|bs| - 1].length)];
    }
  }

  lemma RangesConcat(a: seq<Boundary>, b: seq<Boundary>)
    ensures Ranges(a + b) == Ranges(a) + Ranges(b)
  {
  }

  /** Words and underruns keep an open session open. */
  lemma AppendOpen(trace: seq<Event>, more: seq<Event>)
    requires OneSession(trace, false)
    requires forall i :: 0 <= i < |more| ==> more[i].PlayedWord? || more[i].Underrun?
    ensures OneSession(trace + more, false)
  {
  }

  /** An open session that stays open tells exactly the new words. */
  lemma EnqueueTells(d: Dispatcher, l: Life, words: seq<Boundary>, more: seq<Event>, told: seq<Boundary>)
    requires Tells(d, l, words) && !l.terminal
    requires OneSession(History(d) + more, false)
    requires WordsOf(more) == Ranges(told)
    ensures Tells(Enqueue(d, more), l, words + told)
  {
    assert History(Enqueue(d, more)) == History(d) + more;
    WordsOfConcat(History(d), more);
    RangesConcat(words, told);
  }

  /** Ending an open session closes it with exactly one TERMINAL. */
  lemma TerminalTells(d: Dispatcher, l: Life, words: seq<Boundary>, ending: Ending, error: Status)
    requires Tells(d, l, words) && !l.terminal
    ensures Tells(Enqueue(d, [Terminal(ending, error)]),
                  l.(terminal := true, ending := ending, error := error), words)
  {
    var last := [Terminal(ending, error)];
    assert History(Enqueue(d, last)) == History(d) + last;
    WordsOfConcat(History(d), last);
    assert WordsOf(last) == [];
  }
}
