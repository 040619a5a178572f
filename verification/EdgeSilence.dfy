/**
 * Trimming the silence around a synthesised waveform by scanning short windows at both ends.
 * Samples are real numbers; a window is loud when its mean square exceeds the squared threshold.
 */
module EdgeSilence {
  import opened AudioTypes
  import opened Reals

  const EDGE_PADDING_SECONDS := 0.015
  const LEADING_SCAN_SECONDS := 0.5
  const TRAILING_SCAN_SECONDS := 0.75

  /** What is kept, and inside it the frames before the speech and those of the speech. */
  datatype Trim = Trim(from: nat, until: nat, leadingFrames: int, spokenFrames: int)

  function Peak(samples: seq<real>): real {
    if samples == [] then 0.0 else MaxReal(Peak(samples[..|samples| - 1]), Abs(samples[|samples| - 1]))
  }

  function Energy(samples: seq<real>, from: nat, to: nat): real
    requires from <= to <= |samples|
  {
    if from == to then 0.0 else Energy(samples, from, to - 1) + samples[to - 1] * samples[to - 1]
  }

  /** The window of `size` samples from `at` on is loud. */
  predicate Loud(samples: seq<real>, at: nat, size: nat, threshold: real)
    requires at + size <= |samples|
  {
    Energy(samples, at, at + size) > threshold * threshold * (size as real)
  }

  function Threshold(samples: seq<real>): real { MaxReal(0.001, Peak(samples) * 0.012) }

  function WindowSize(rate: nat): (r: nat)
    ensures r > 0
  {
    Max(1, rate / 100)
  }

  lemma RoundsToNatural(seconds: real, rate: nat)
    requires seconds >= 0.0
    ensures RoundHalfEven(seconds * (rate as real)) >= 0
  {
    assert seconds * (rate as real) >= 0.0;
    RoundIsNearest(seconds * (rate as real));
  }

  /** How many whole windows of an edge are scanned. */
  function ScanWindows(samples: seq<real>, seconds: real, rate: nat): (r: nat)
    requires seconds >= 0.0
    ensures r * WindowSize(rate) <= |samples|
  {
    var wanted := RoundHalfEven(seconds * (rate as real));
    RoundsToNatural(seconds, rate);
    var length := Min(|samples|, wanted);
    WholeWindowCount(length, WindowSize(rate))
  }

  function WholeWindowCount(length: nat, size: nat): (r: nat)
    requires size > 0
    ensures r * size <= length
  {
    WholeWindows(length, size);
    length / size
  }

  /** Leaving out the remainder leaves whole windows. */
  lemma WholeWindows(length: nat, size: nat)
    requires size > 0
    ensures 0 <= length / size && (length / size) * size == length - length % size <= length
  {
  }

  /** The number of quiet windows before the first loud one, or all of them. */
  function QuietFirst(samples: seq<real>, size: nat, threshold: real, k: nat, count: nat): (r: nat)
    requires k <= count && count * size <= |samples|
    ensures k <= r <= count
    decreases count - k
  {
    if k == count then k
    else
      LastWindowFits(samples, 0, size, k, count);
      if Loud(samples, k * size, size, threshold) then k else QuietFirst(samples, size, threshold, k + 1, count)
  }

  /** The number of windows up to the last loud one, or none. */
  function LoudUntil(samples: seq<real>, base: nat, size: nat, threshold: real, count: nat): (r: nat)
    requires base + count * size <= |samples|
    ensures r <= count
  {
    if count == 0 then 0
    else
      LastWindowFits(samples, base, size, count - 1, count);
      if Loud(samples, base + (count - 1) * size, size, threshold) then count
      else LoudUntil(samples, base, size, threshold, count - 1)
  }

  lemma LastWindowFits(samples: seq<real>, base: nat, size: nat, k: nat, count: nat)
    requires k < count && base + count * size <= |samples|
    ensures k * size >= 0 && base + k * size + size <= |samples|
  {
    assert (k + 1) * size <= count * size;
    assert (k + 1) * size == k * size + size;
  }

  function Untrimmed(samples: seq<real>): Trim { Trim(0, |samples|, 0, |samples|) }

  /** The scan of both edges. */
  function Scan(samples: seq<real>, rate: nat, prefix: nat, tail: nat): Trim
    requires prefix * WindowSize(rate) <= |samples| && tail * WindowSize(rate) <= |samples|
  {
    var n, size, threshold := |samples|, WindowSize(rate), Threshold(samples);
    var quiet := QuietFirst(samples, size, threshold, 0, prefix);
    var activeStart := if quiet < prefix then quiet * size else 0;
    var tailStart := n - tail * size;
    var loud := LoudUntil(samples, tailStart, size, threshold, tail);
    var activeEnd := if loud > 0 then Min(n, tailStart + loud * size) else n;
    var padding := RoundHalfEven(EDGE_PADDING_SECONDS * (rate as real));
    var playFrom := Max(0, activeStart - padding);
    var playUntil := Min(n, activeEnd + padding);
    if playUntil <= playFrom then Untrimmed(samples)
    else Trim(playFrom, playUntil, activeStart - playFrom, activeEnd - activeStart)
  }

  function NormalizeEdgeSilence(samples: seq<real>, rate: nat): Trim {
    var prefix, tail := ScanWindows(samples, LEADING_SCAN_SECONDS, rate), ScanWindows(samples, TRAILING_SCAN_SECONDS, rate);
    if |samples| < WindowSize(rate) || prefix == 0 || tail == 0 then Untrimmed(samples)
    else Scan(samples, rate, prefix, tail)
  }

  // ----- What the trimming guarantees ----------------------------------------------------

  /** A stretch of the samples, with the speech inside it. */
  ghost predicate IsTrim(samples: seq<real>, t: Trim) {
    && t.from <= t.until <= |samples| && (samples != [] ==> t.from < t.until)
    && 0 <= t.leadingFrames && (0 <= t.spokenFrames ==> t.leadingFrames + t.spokenFrames <= t.until - t.from)
  }

  lemma PaddingIsNatural(rate: nat)
    ensures RoundHalfEven(EDGE_PADDING_SECONDS * (rate as real)) >= 0
  {
    RoundsToNatural(EDGE_PADDING_SECONDS, rate);
  }

  lemma ScanFits(samples: seq<real>, rate: nat, prefix: nat, tail: nat)
    requires prefix * WindowSize(rate) <= |samples| && tail * WindowSize(rate) <= |samples|
    ensures IsTrim(samples, Scan(samples, rate, prefix, tail))
  {
    PaddingIsNatural(rate);
    var quiet := QuietFirst(samples, WindowSize(rate), Threshold(samples), 0, prefix);
    assert 0 <= quiet * WindowSize(rate);
  }

  /** Whatever the waveform: something is kept, and the speech found lies inside what is kept. */
  lemma TrimFits(samples: seq<real>, rate: nat)
    ensures IsTrim(samples, NormalizeEdgeSilence(samples, rate))
  {
    var prefix, tail := ScanWindows(samples, LEADING_SCAN_SECONDS, rate), ScanWindows(samples, TRAILING_SCAN_SECONDS, rate);
    ScanFits(samples, rate, prefix, tail);
  }

  /** Sample `j` lies in a window of the grid from `base` that is not loud. */
  ghost predicate QuietAt(samples: seq<real>, base: nat, size: nat, threshold: real, j: int) {
    exists k: nat :: InWindow(base, size, k, j) && base + k * size + size <= |samples|
      && !Loud(samples, base + k * size, size, threshold)
  }

  predicate InWindow(base: nat, size: nat, k: nat, j: int) { base + k * size <= j < base + k * size + size }

  lemma {:induction false} QuietFirstIsQuiet(samples: seq<real>, size: nat, threshold: real, k: nat, count: nat, w: nat)
    requires k <= count && count * size <= |samples|
    requires k <= w < QuietFirst(samples, size, threshold, k, count)
    ensures w * size + size <= |samples| && !Loud(samples, w * size, size, threshold)
    decreases count - k
  {
    LastWindowFits(samples, 0, size, w, count);
    if k < w { QuietFirstIsQuiet(samples, size, threshold, k + 1, count, w); }
  }

  lemma {:induction false} AfterLoudIsQuiet(samples: seq<real>, base: nat, size: nat, threshold: real, count: nat, w: nat)
    requires base + count * size <= |samples|
    requires LoudUntil(samples, base, size, threshold, count) <= w < count
    ensures base + w * size + size <= |samples| && !Loud(samples, base + w * size, size, threshold)
  {
    LastWindowFits(samples, base, size, w, count);
    if w < count - 1 {
      LastWindowFits(samples, base, size, count - 1, count);
      AfterLoudIsQuiet(samples, base, size, threshold, count - 1, w);
    }
  }

  /** The window of the grid that a sample lies in. */
  lemma WindowOf(base: nat, size: nat, j: nat) returns (k: nat)
    requires size > 0 && base <= j
    ensures InWindow(base, size, k, j)
  {
    k := (j - base) / size;
    assert j - base == k * size + (j - base) % size;
  }

  lemma ProductOrder(k: nat, l: nat, size: nat)
    requires k >= l
    ensures k * size >= l * size
  {
  }

  /** A sample between two edges of the grid lies in a window between them. */
  lemma WindowBetween(base: nat, size: nat, low: nat, high: nat, j: nat) returns (k: nat)
    requires size > 0 && base + low * size <= j < base + high * size
    ensures InWindow(base, size, k, j) && low <= k < high
  {
    assert 0 <= low * size;
    k := WindowOf(base, size, j);
    if k + 1 <= low { ProductOrder(low, k + 1, size); }
    if k >= high { ProductOrder(k, high, size); }
  }

  /** Nothing is cut off at the start but windows that are not loud. */
  lemma StartIsQuiet(samples: seq<real>, rate: nat, prefix: nat, tail: nat, j: nat)
    requires prefix * WindowSize(rate) <= |samples| && tail * WindowSize(rate) <= |samples|
    requires j < Scan(samples, rate, prefix, tail).from
    ensures QuietAt(samples, 0, WindowSize(rate), Threshold(samples), j)
  {
    var size, threshold := WindowSize(rate), Threshold(samples);
    PaddingIsNatural(rate);
    var quiet := QuietFirst(samples, size, threshold, 0, prefix);
    assert j < quiet * size;
    var k := WindowBetween(0, size, 0, quiet, j);
    QuietFirstIsQuiet(samples, size, threshold, 0, prefix, k);
  }

  /** Nothing is cut off at the end but windows that are not loud. */
  lemma EndIsQuiet(samples: seq<real>, rate: nat, prefix: nat, tail: nat, j: nat)
    requires prefix * WindowSize(rate) <= |samples| && tail * WindowSize(rate) <= |samples|
    requires Scan(samples, rate, prefix, tail).until <= j < |samples|
    ensures QuietAt(samples, |samples| - tail * WindowSize(rate), WindowSize(rate), Threshold(samples), j)
  {
    var size, threshold := WindowSize(rate), Threshold(samples);
    PaddingIsNatural(rate);
    var base := |samples| - tail * size;
    var loud := LoudUntil(samples, base, size, threshold, tail);
    assert loud > 0 && j >= base + loud * size;
    var k := WindowBetween(base, size, loud, tail, j);
    AfterLoudIsQuiet(samples, base, size, threshold, tail, k);
  }

  /** Whatever the waveform: a sample that is cut off lies in a scanned window that is not loud. */
  lemma OnlyQuietIsCut(samples: seq<real>, rate: nat, j: nat)
    ensures var t, size, threshold := NormalizeEdgeSilence(samples, rate), WindowSize(rate), Threshold(samples);
      var tailStart := |samples| - ScanWindows(samples, TRAILING_SCAN_SECONDS, rate) * size;
      j < |samples| && (j < t.from || t.until <= j) ==>
        QuietAt(samples, 0, size, threshold, j) || QuietAt(samples, tailStart, size, threshold, j)
  {
    var prefix, tail := ScanWindows(samples, LEADING_SCAN_SECONDS, rate), ScanWindows(samples, TRAILING_SCAN_SECONDS, rate);
    var t := NormalizeEdgeSilence(samples, rate);
    if j < t.from {
      StartIsQuiet(samples, rate, prefix, tail, j);
    } else if t.until <= j < |samples| {
      EndIsQuiet(samples, rate, prefix, tail, j);
    }
  }

  /** The energy of a window is the sum of the squares of its samples. */
  lemma {:induction false} EnergyAdds(samples: seq<real>, from: nat, mid: nat, end: nat)
    requires from <= mid <= end <= |samples|
    ensures Energy(samples, from, end) == Energy(samples, from, mid) + Energy(samples, mid, end)
    ensures end == from + 1 ==> Energy(samples, from, end) == samples[from] * samples[from]
    decreases end
  {
    if mid < end { EnergyAdds(samples, from, mid, end - 1); }
  }

  /** A window is loud when the mean of its squares lies above the square of the threshold. */
  lemma LoudIsMeanSquare(samples: seq<real>, at: nat, size: nat, threshold: real)
    requires size > 0 && at + size <= |samples|
    ensures Loud(samples, at, size, threshold) <==> Energy(samples, at, at + size) / (size as real) > threshold * threshold
  {
    DivideCompares(Energy(samples, at, at + size), threshold * threshold, size as real);
  }

  // ----- Nothing else is kept ------------------------------------------------------------

  /** The threshold lies 0.012 of the largest sample above silence, or at a thousandth. */
  ghost predicate IsThreshold(samples: seq<real>, threshold: real) {
    && threshold >= 0.001
    && (forall i :: 0 <= i < |samples| ==> Abs(samples[i]) * 0.012 <= threshold)
    && (threshold == 0.001 || exists i :: 0 <= i < |samples| && Abs(samples[i]) * 0.012 == threshold)
  }

  lemma {:induction false} PeakIsLargest(samples: seq<real>)
    ensures forall i :: 0 <= i < |samples| ==> Abs(samples[i]) <= Peak(samples)
    ensures Peak(samples) == 0.0 || exists i :: 0 <= i < |samples| && Abs(samples[i]) == Peak(samples)
  {
    if samples != [] {
      var n := |samples| - 1;
      PeakIsLargest(samples[..n]);
      assert forall i :: 0 <= i < n ==> samples[..n][i] == samples[i];
      assert Peak(samples) == Abs(samples[n]) || Peak(samples) == Peak(samples[..n]);
    }
  }

  lemma ThresholdIsThreshold(samples: seq<real>)
    ensures IsThreshold(samples, Threshold(samples))
  {
    PeakIsLargest(samples);
  }

  /** As many whole windows as fit the scanned seconds and the samples. */
  lemma ScanIsWhole(samples: seq<real>, seconds: real, rate: nat)
    requires seconds >= 0.0
    ensures var r, wanted := ScanWindows(samples, seconds, rate), RoundHalfEven(seconds * (rate as real));
      var length := if |samples| < wanted then |samples| else wanted;
      r * WindowSize(rate) <= length < (r + 1) * WindowSize(rate)
  {
    RoundsToNatural(seconds, rate);
    var size, length := WindowSize(rate), Min(|samples|, RoundHalfEven(seconds * (rate as real)));
    WholeWindows(length, size);
    assert (length / size + 1) * size == (length / size) * size + size;
  }

  predicate LoudAt(samples: seq<real>, base: nat, size: nat, threshold: real, k: nat) {
    k * size >= 0 && base + k * size + size <= |samples| && Loud(samples, base + k * size, size, threshold)
  }

  /** The first loud window of a scan starts here; without one the samples do. */
  ghost predicate IsStart(samples: seq<real>, size: nat, threshold: real, count: nat, start: nat) {
    || (start == 0 && forall j: nat :: j < count ==> !LoudAt(samples, 0, size, threshold, j))
    || exists k: nat :: k < count && start == k * size && LoudAt(samples, 0, size, threshold, k)
         && forall j: nat :: j < k ==> !LoudAt(samples, 0, size, threshold, j)
  }

  /** The last loud window of a scan ends here; without one the samples do. */
  ghost predicate IsEnd(samples: seq<real>, base: nat, size: nat, threshold: real, count: nat, end: nat) {
    || (end == |samples| && forall j: nat :: j < count ==> !LoudAt(samples, base, size, threshold, j))
    || exists k: nat :: k < count && end == base + k * size + size && LoudAt(samples, base, size, threshold, k)
         && forall j: nat :: k < j < count ==> !LoudAt(samples, base, size, threshold, j)
  }

  lemma {:induction false} QuietFirstEnds(samples: seq<real>, size: nat, threshold: real, k: nat, count: nat)
    requires k <= count && count * size <= |samples|
    ensures var r := QuietFirst(samples, size, threshold, k, count); r < count ==> LoudAt(samples, 0, size, threshold, r)
    decreases count - k
  {
    if k < count {
      LastWindowFits(samples, 0, size, k, count);
      QuietFirstEnds(samples, size, threshold, k + 1, count);
    }
  }

  lemma {:induction false} LoudUntilEnds(samples: seq<real>, base: nat, size: nat, threshold: real, count: nat)
    requires base + count * size <= |samples|
    ensures var r := LoudUntil(samples, base, size, threshold, count); r > 0 ==> LoudAt(samples, base, size, threshold, r - 1)
  {
    if count > 0 {
      LastWindowFits(samples, base, size, count - 1, count);
      LoudUntilEnds(samples, base, size, threshold, count - 1);
    }
  }

  lemma StartIsStart(samples: seq<real>, size: nat, threshold: real, count: nat)
    requires count * size <= |samples|
    ensures var quiet := QuietFirst(samples, size, threshold, 0, count);
      quiet * size >= 0 && IsStart(samples, size, threshold, count, if quiet < count then quiet * size else 0)
  {
    var quiet := QuietFirst(samples, size, threshold, 0, count);
    QuietFirstEnds(samples, size, threshold, 0, count);
    forall j: nat | j < quiet ensures !LoudAt(samples, 0, size, threshold, j) {
      QuietFirstIsQuiet(samples, size, threshold, 0, count, j);
    }
  }

  lemma EndIsEnd(samples: seq<real>, base: nat, size: nat, threshold: real, count: nat)
    requires base + count * size <= |samples|
    ensures var loud := LoudUntil(samples, base, size, threshold, count);
      loud * size >= 0 && IsEnd(samples, base, size, threshold, count, if loud > 0 then base + loud * size else |samples|)
  {
    var loud := LoudUntil(samples, base, size, threshold, count);
    LoudUntilEnds(samples, base, size, threshold, count);
    forall j: nat | loud <= j < count ensures !LoudAt(samples, base, size, threshold, j) {
      AfterLoudIsQuiet(samples, base, size, threshold, count, j);
    }
    assert loud > 0 ==> (loud - 1) * size + size == loud * size;
  }

  /** The speech from `start` to `end` is kept with the padding, and nothing further out. */
  ghost predicate Keeps(samples: seq<real>, start: nat, end: nat, padding: int, t: Trim) {
    var from := if start < padding then 0 else start - padding;
    var until := if end + padding > |samples| then |samples| else end + padding;
    t == if until <= from then Trim(0, |samples|, 0, |samples|) else Trim(from, until, start - from, end - start)
  }

  /** The speech lies between the first loud window of one scan and the last one of the other. */
  ghost predicate IsTight(samples: seq<real>, size: nat, leading: nat, trailing: nat, threshold: real,
                          start: nat, end: nat, padding: int, t: Trim) {
    && trailing * size <= |samples|
    && IsThreshold(samples, threshold)
    && IsStart(samples, size, threshold, leading, start)
    && IsEnd(samples, |samples| - trailing * size, size, threshold, trailing, end)
    && Keeps(samples, start, end, padding, t)
  }

  /**
   * The trimming is tight: unless nothing can be scanned, what is kept is the stretch from the
   * first loud window of the leading scan to the last one of the trailing scan, with 15
   * milliseconds on either side, and the speech lies in it where those windows are.
   */
  lemma TrimIsTight(samples: seq<real>, rate: nat) returns (threshold: real, start: nat, end: nat)
    ensures var t, size := NormalizeEdgeSilence(samples, rate), if rate / 100 < 1 then 1 else rate / 100;
      var leading, trailing := ScanWindows(samples, 0.5, rate), ScanWindows(samples, 0.75, rate);
      if |samples| < size || leading == 0 || trailing == 0 then t == Trim(0, |samples|, 0, |samples|)
      else IsTight(samples, size, leading, trailing, threshold, start, end, RoundHalfEven(0.015 * (rate as real)), t)
  {
    threshold, start, end := ScanIsTight(samples, rate, ScanWindows(samples, LEADING_SCAN_SECONDS, rate),
                                         ScanWindows(samples, TRAILING_SCAN_SECONDS, rate));
  }

  lemma ScanIsTight(samples: seq<real>, rate: nat, leading: nat, trailing: nat) returns (threshold: real, start: nat, end: nat)
    requires leading * WindowSize(rate) <= |samples| && trailing * WindowSize(rate) <= |samples|
    ensures IsTight(samples, WindowSize(rate), leading, trailing, threshold, start, end,
                    RoundHalfEven(0.015 * (rate as real)), Scan(samples, rate, leading, trailing))
  {
    var size := WindowSize(rate);
    var base := |samples| - trailing * size;
    threshold := Threshold(samples);
    ThresholdIsThreshold(samples);
    StartIsStart(samples, size, threshold, leading);
    EndIsEnd(samples, base, size, threshold, trailing);
    start, end := ScanKeeps(samples, rate, leading, trailing);
  }

  lemma ScanKeeps(samples: seq<real>, rate: nat, leading: nat, trailing: nat) returns (start: nat, end: nat)
    requires leading * WindowSize(rate) <= |samples| && trailing * WindowSize(rate) <= |samples|
    ensures var size, threshold := WindowSize(rate), Threshold(samples);
      var quiet := QuietFirst(samples, size, threshold, 0, leading);
      var base := |samples| - trailing * size;
      var loud := LoudUntil(samples, base, size, threshold, trailing);
      && start == (if quiet < leading then quiet * size else 0)
      && end == (if loud > 0 then base + loud * size else |samples|)
      && Keeps(samples, start, end, RoundHalfEven(0.015 * (rate as real)), Scan(samples, rate, leading, trailing))
  {
    var size, threshold := WindowSize(rate), Threshold(samples);
    var quiet := QuietFirst(samples, size, threshold, 0, leading);
    var base := |samples| - trailing * size;
    var loud := LoudUntil(samples, base, size, threshold, trailing);
    ProductOrder(quiet, 0, size);
    ProductOrder(loud, 0, size);
    ProductOrder(trailing, loud, size);
    PaddingIsNatural(rate);
    start := if quiet < leading then quiet * size else 0;
    end := if loud > 0 then base + loud * size else |samples|;
  }
}
