/**
 * What is submitted of a synthesised chunk: slices of its trimmed audio, with the boundaries made
 * for its words. No slice is ever refused.
 */
module SupertonicSlices {
  import opened Admission
  import opened AudioTypes
  import opened EdgeSilence
  import opened Supertonic
  import opened Utf16
  import RequestModel

  /**
   * The slice passes the check of the session, and that of the engine up to 32-bit byte lengths,
   * so always at the sample rates there are.
   */
  ghost predicate IsAccepted(text: seq<CodePoint>, rate: nat, slice: Slice) {
    var status := RequestModel.CheckSubmission(RequestModel.Config(rate, Length(text)), slice.pcm, slice.boundaries);
    && ValidSubmission(text, |slice.pcm|, BYTES_PER_FRAME, slice.boundaries)
    && (status == Ok <==> |slice.pcm| <= UINT32_MAX)
    && (6 * rate <= UINT32_MAX ==> status == Ok)
  }

  lemma SliceIsInText(text: seq<CodePoint>, slices: seq<Slice>, bs: seq<Boundary>, k: nat)
    requires k < |slices| && JoinBoundaries(slices) == bs
    requires forall i :: 0 <= i < |bs| ==> InText(text, bs[i])
    ensures forall i :: 0 <= i < |slices[k].boundaries| ==> InText(text, slices[k].boundaries[i])
  {
    forall i | 0 <= i < |slices[k].boundaries| ensures InText(text, slices[k].boundaries[i]) {
      SliceBoundaryIsOriginal(slices, k, i);
      assert InText(text, bs[|JoinBoundaries(slices[..k])| + i]);
    }
  }

  lemma SliceIsValid(text: seq<CodePoint>, bs: seq<Boundary>, pcm: seq<byte>, slices: seq<Slice>, limit: nat, k: nat)
    requires ValidSubmission(text, |pcm|, BYTES_PER_FRAME, bs) && Cuts(slices, pcm, bs, BYTES_PER_FRAME, limit) && k < |slices|
    ensures ValidSubmission(text, |slices[k].pcm|, BYTES_PER_FRAME, slices[k].boundaries)
  {
    SliceIsNoLonger(slices, k);
    SliceIsInText(text, slices, bs, k);
    assert InOrder(slices[k].boundaries, slices[k].frameCount);
    assert |slices[k].pcm| / BYTES_PER_FRAME == slices[k].frameCount;
  }

  /** Every slice of boundaries that may be submitted may be submitted. */
  lemma SlicesAreAccepted(text: seq<CodePoint>, bs: seq<Boundary>, frames: nat, pcm: seq<byte>, slices: seq<Slice>,
                          rate: nat, k: nat)
    requires rate > 0 && Submittable(text, bs, frames) && |pcm| == BYTES_PER_FRAME * frames
    requires IsSlicing(slices, pcm, bs, RequestModel.Config(rate, Length(text)).HighWater()) && k < |slices|
    ensures IsAccepted(text, rate, slices[k])
  {
    var config := RequestModel.Config(rate, Length(text));
    if pcm == [] {
      assert slices[k] == Slice(pcm, bs, 0, 0) && frames == 0;
    } else {
      SliceIsValid(text, bs, pcm, slices, config.HighWater(), k);
      SlicesPassEngineChecks(config, slices, pcm, bs, k);
      assert |slices[k].pcm| <= 6 * rate;
    }
  }

  /**
   * Whatever waveform the model returns and wherever the chunk lies in the request: making the
   * boundaries never fails, each covers exactly its word, and every slice that is submitted of
   * the trimmed audio and its boundaries passes the checks of the session and of the engine.
   */
  lemma NeverRefused(text: seq<CodePoint>, offset: nat, spoken: seq<CodePoint>, lib: Library, samples: seq<real>, rate: nat,
                     pcm: seq<byte>, slices: seq<Slice>, k: nat)
    requires IsChunk(text, offset, spoken, samples, rate)
    ensures var t := NormalizeEdgeSilence(samples, rate);
      var es := Estimates(spoken, lib, SpokenSeconds(t, rate));
      var bs := BoundariesOf(text, es, t, offset, rate);
      && bs.Some? && AllGood(text, spoken, es, bs.value, t, rate) && t.from <= t.until
      && (|pcm| == BYTES_PER_FRAME * (t.until - t.from) && k < |slices|
          && IsSlicing(slices, pcm, bs.value, RequestModel.Config(rate, Length(text)).HighWater())
          ==> IsAccepted(text, rate, slices[k]))
  {
    ChunkIsSubmittable(text, offset, spoken, lib, samples, rate);
    var t := NormalizeEdgeSilence(samples, rate);
    var bs := BoundariesOf(text, Estimates(spoken, lib, SpokenSeconds(t, rate)), t, offset, rate).value;
    if |pcm| == BYTES_PER_FRAME * (t.until - t.from) && k < |slices|
       && IsSlicing(slices, pcm, bs, RequestModel.Config(rate, Length(text)).HighWater()) {
      SlicesAreAccepted(text, bs, t.until - t.from, pcm, slices, rate, k);
    }
  }
}
