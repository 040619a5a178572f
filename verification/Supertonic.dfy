/**
 * Word boundaries for a synthesised chunk: each word starts at its share of the spoken time. The
 * shares, the frames and the text ranges made from them always pass the checks of a submission.
 */
module Supertonic {
  import opened AudioTypes
  import opened EdgeSilence
  import opened Reals
  import opened Utf16
  import opened Words

  /** Character classes and the power 0.65, which are library functions; any functions will do. */
  datatype Library = Library(isWord: CodePoint -> bool, isAlpha: CodePoint -> bool, power: nat -> real)

  datatype Estimated = Estimated(seconds: real, position: nat, length: nat)

  // ----- Shares of the time --------------------------------------------------------------

  function Letters(text: seq<CodePoint>, isAlpha: CodePoint -> bool, from: nat, to: nat): nat
    requires from <= to <= |text|
  {
    if from == to then 0 else Letters(text, isAlpha, from, to - 1) + (if isAlpha(text[to - 1]) then 1 else 0)
  }

  predicate Contains(text: seq<CodePoint>, marks: set<CodePoint>) { exists i :: 0 <= i < |text| && text[i] in marks }

  /** The pause after a word, from the punctuation up to the next one. */
  function PauseWeight(gap: seq<CodePoint>): (r: real)
    ensures 0.0 <= r <= 0.8
  {
    if Contains(gap, {0x2E, 0x21, 0x3F}) then 0.8
    else if Contains(gap, {0x3B, 0x3A}) then 0.5
    else if Contains(gap, {0x2C}) then 0.3
    else 0.0
  }

  function GapEnd(text: seq<CodePoint>, words: seq<Word>, i: nat): nat
    requires i < |words|
  {
    if i + 1 < |words| then words[i + 1].start else |text|
  }

  /** The units of time word `i` and the pause behind it take. */
  function Unit(text: seq<CodePoint>, lib: Library, words: seq<Word>, i: nat): (r: real)
    requires InOrder(words, 0, |text|) && i < |words|
    ensures r >= 1.0
  {
    var w := words[i];
    MaxReal(1.0, lib.power(Letters(text, lib.isAlpha, w.start, w.end))) + PauseWeight(text[w.end..GapEnd(text, words, i)])
  }

  /** The units before word `i`. */
  function Before(text: seq<CodePoint>, lib: Library, words: seq<Word>, i: nat): real
    requires InOrder(words, 0, |text|) && i <= |words|
  {
    if i == 0 then 0.0 else Before(text, lib, words, i - 1) + Unit(text, lib, words, i - 1)
  }

  lemma {:induction false} BeforeSteps(text: seq<CodePoint>, lib: Library, words: seq<Word>, i: nat, j: nat)
    requires InOrder(words, 0, |text|) && i <= j <= |words|
    ensures Before(text, lib, words, i) + (j - i) as real <= Before(text, lib, words, j)
    decreases j
  {
    if i < j { BeforeSteps(text, lib, words, i, j - 1); }
  }

  /** Every word takes at least one unit. */
  lemma BeforeGrows(text: seq<CodePoint>, lib: Library, words: seq<Word>, i: nat, j: nat)
    requires InOrder(words, 0, |text|) && i <= j <= |words|
    ensures 0.0 <= Before(text, lib, words, i)
    ensures Before(text, lib, words, i) + (j - i) as real <= Before(text, lib, words, j)
  {
    BeforeSteps(text, lib, words, 0, i);
    BeforeSteps(text, lib, words, i, j);
  }

  /** A share of a duration. */
  function Share(duration: real, part: real, whole: real): real
    requires whole > 0.0
  {
    duration * part / whole
  }

  /** A larger part has a larger share, and no share exceeds the duration. */
  lemma SharesGrow(duration: real, part: real, larger: real, whole: real)
    requires duration >= 0.0 && 0.0 <= part <= larger <= whole && whole > 0.0
    ensures 0.0 <= Share(duration, part, whole) <= Share(duration, larger, whole) <= duration
  {
    MultiplyIsMonotone(0.0, part, duration);
    MultiplyIsMonotone(part, larger, duration);
    MultiplyIsMonotone(larger, whole, duration);
    MultiplyDivide(duration, whole);
    QuotientsGrow(duration * part, duration * larger, duration * whole, whole);
  }

  lemma QuotientsGrow(a: real, b: real, c: real, whole: real)
    requires 0.0 <= a <= b <= c && whole > 0.0
    ensures 0.0 <= a / whole <= b / whole <= c / whole
  {
    DivideIsMonotone(a, b, whole);
    DivideIsMonotone(b, c, whole);
  }

  function EstimateAt(text: seq<CodePoint>, lib: Library, words: seq<Word>, duration: real, i: nat): Estimated
    requires InOrder(words, 0, |text|) && i < |words|
  {
    BeforeGrows(text, lib, words, 0, |words|);
    Estimated(Share(duration, Before(text, lib, words, i), Before(text, lib, words, |words|)),
              words[i].start, words[i].end - words[i].start)
  }

  /** The estimates of the first `n` words. */
  function EstimatesUpTo(text: seq<CodePoint>, lib: Library, words: seq<Word>, duration: real, n: nat): (r: seq<Estimated>)
    requires InOrder(words, 0, |text|) && n <= |words|
    ensures |r| == n
  {
    if n == 0 then []
    else EstimatesUpTo(text, lib, words, duration, n - 1) + [EstimateAt(text, lib, words, duration, n - 1)]
  }

  /** One estimate for every word, unless nothing was spoken. */
  function Estimates(text: seq<CodePoint>, lib: Library, duration: real): seq<Estimated> {
    var words := Matches(text, lib.isWord, 0);
    MatchesAreInOrder(text, lib.isWord, 0);
    if duration <= 0.0 then [] else EstimatesUpTo(text, lib, words, duration, |words|)
  }

  /** The time units of every word, and their sum. */
  method TimeUnits(text: seq<CodePoint>, lib: Library, words: seq<Word>) returns (units: seq<real>, total: real)
    requires InOrder(words, 0, |text|)
    ensures |units| == |words| && forall k :: 0 <= k < |words| ==> units[k] == Unit(text, lib, words, k)
    ensures total == Before(text, lib, words, |words|)
  {
    units, total := [], 0.0;
    for i := 0 to |words|
      invariant |units| == i && total == Before(text, lib, words, i)
      invariant forall k :: 0 <= k < i ==> units[k] == Unit(text, lib, words, k)
    {
      units := units + [Unit(text, lib, words, i)];
      total := total + units[i];
    }
  }

  lemma EstimateIs(text: seq<CodePoint>, lib: Library, words: seq<Word>, duration: real, i: nat, cursor: real, total: real)
    requires InOrder(words, 0, |text|) && i < |words|
    requires cursor == Before(text, lib, words, i) && total == Before(text, lib, words, |words|) && total > 0.0
    ensures EstimateAt(text, lib, words, duration, i)
         == Estimated(Share(duration, cursor, total), words[i].start, words[i].end - words[i].start)
  {
  }

  /** Every word starts where the words before it end. */
  method AssignTimes(text: seq<CodePoint>, lib: Library, words: seq<Word>, duration: real, units: seq<real>, total: real)
    returns (bs: seq<Estimated>)
    requires InOrder(words, 0, |text|) && |units| == |words|
    requires forall k :: 0 <= k < |words| ==> units[k] == Unit(text, lib, words, k)
    requires total == Before(text, lib, words, |words|) && total > 0.0
    ensures bs == EstimatesUpTo(text, lib, words, duration, |words|)
  {
    bs := [];
    var cursor := 0.0;
    for i := 0 to |words|
      invariant cursor == Before(text, lib, words, i) && bs == EstimatesUpTo(text, lib, words, duration, i)
    {
      EstimateIs(text, lib, words, duration, i, cursor, total);
      bs := bs + [Estimated(Share(duration, cursor, total), words[i].start, words[i].end - words[i].start)];
      cursor := cursor + units[i];
    }
  }

  method EstimateWordBoundaries(text: seq<CodePoint>, lib: Library, duration: real) returns (bs: seq<Estimated>)
    ensures bs == Estimates(text, lib, duration)
    ensures IsEstimate(text, lib, duration, bs)
  {
    EstimatesDivide(text, lib, duration);
    var words := Matches(text, lib.isWord, 0);
    MatchesAreInOrder(text, lib.isWord, 0);
    if words == [] || duration <= 0.0 { return []; }
    var units, total := TimeUnits(text, lib, words);
    BeforeGrows(text, lib, words, 0, |words|);
    bs := AssignTimes(text, lib, words, duration, units, total);
  }

  /** The estimated times never go back and never leave the duration. */
  lemma EstimatesAreInTime(text: seq<CodePoint>, lib: Library, words: seq<Word>, duration: real, i: nat, j: nat)
    requires InOrder(words, 0, |text|) && i <= j < |words| && duration > 0.0
    ensures 0.0 <= EstimateAt(text, lib, words, duration, i).seconds
         <= EstimateAt(text, lib, words, duration, j).seconds <= duration
  {
    BeforeGrows(text, lib, words, i, j);
    BeforeGrows(text, lib, words, j, |words|);
    var whole := Before(text, lib, words, |words|);
    assert whole > 0.0;
    SharesGrow(duration, Before(text, lib, words, i), Before(text, lib, words, j), whole);
  }

  // ----- What the times mean -------------------------------------------------------------

  ghost function LetterCount(text: seq<CodePoint>, isAlpha: CodePoint -> bool, from: nat, to: nat): nat
    requires from <= to <= |text|
  {
    |set k | from <= k < to && isAlpha(text[k])|
  }

  lemma {:induction false} LettersAreCounted(text: seq<CodePoint>, isAlpha: CodePoint -> bool, from: nat, to: nat)
    requires from <= to <= |text|
    ensures Letters(text, isAlpha, from, to) == LetterCount(text, isAlpha, from, to)
  {
    if from < to {
      LettersAreCounted(text, isAlpha, from, to - 1);
      var front := set k | from <= k < to - 1 && isAlpha(text[k]);
      var all := set k | from <= k < to && isAlpha(text[k]);
      assert all == if isAlpha(text[to - 1]) then front + {to - 1} else front;
    }
  }

  /** The pause a punctuation makes: the strongest mark in it decides. */
  ghost predicate IsPause(gap: seq<CodePoint>, pause: real) {
    var sentence, clause := 0x2E in gap || 0x21 in gap || 0x3F in gap, 0x3B in gap || 0x3A in gap;
    pause == if sentence then 0.8 else if clause then 0.5 else if 0x2C in gap then 0.3 else 0.0
  }

  /** A word takes the power of its letters, at least one, and the pause for what stands before the next word. */
  ghost predicate IsUnit(text: seq<CodePoint>, lib: Library, words: seq<Word>, i: nat, unit: real)
    requires InOrder(words, 0, |text|) && i < |words|
  {
    var w, next := words[i], if i + 1 < |words| then words[i + 1].start else |text|;
    var power := lib.power(LetterCount(text, lib.isAlpha, w.start, w.end));
    IsPause(text[w.end..next], unit - (if power > 1.0 then power else 1.0))
  }

  lemma UnitIsUnit(text: seq<CodePoint>, lib: Library, words: seq<Word>, i: nat)
    requires InOrder(words, 0, |text|) && i < |words|
    ensures IsUnit(text, lib, words, i, Unit(text, lib, words, i))
  {
    LettersAreCounted(text, lib.isAlpha, words[i].start, words[i].end);
    PauseIsPause(text[words[i].end..GapEnd(text, words, i)]);
  }

  lemma PauseIsPause(gap: seq<CodePoint>)
    ensures IsPause(gap, PauseWeight(gap))
  {
    ContainsAny(gap, {0x2E, 0x21, 0x3F});
    ContainsAny(gap, {0x3B, 0x3A});
    ContainsAny(gap, {0x2C});
  }

  lemma ContainsAny(gap: seq<CodePoint>, marks: set<CodePoint>)
    ensures Contains(gap, marks) <==> exists m :: m in marks && m in gap
  {
  }

  ghost function Sum(units: seq<real>): real {
    if units == [] then 0.0 else Sum(units[..|units| - 1]) + units[|units| - 1]
  }

  /** A time is to the whole duration as some units are to all. */
  predicate InProportion(time: real, duration: real, units: real, total: real) { time * total == duration * units }

  /**
   * The first word starts with the speech, the stretch from each word to the next is to the whole
   * duration as the word's unit is to all units, and so is what the last word leaves.
   */
  ghost predicate Divided(es: seq<Estimated>, units: seq<real>, duration: real) {
    && |es| == |units|
    && (es != [] ==>
          && es[0].seconds == 0.0
          && InProportion(duration - es[|es| - 1].seconds, duration, units[|es| - 1], Sum(units)))
    && forall i, j :: 0 <= i < |es| && j == i + 1 < |es| ==>
         InProportion(es[j].seconds - es[i].seconds, duration, units[i], Sum(units))
  }

  function UnitsOf(text: seq<CodePoint>, lib: Library, words: seq<Word>): (r: seq<real>)
    requires InOrder(words, 0, |text|)
    ensures |r| == |words|
  {
    seq(|words|, i requires 0 <= i < |words| => Unit(text, lib, words, i))
  }

  lemma {:induction false} BeforeIsSum(text: seq<CodePoint>, lib: Library, words: seq<Word>, n: nat)
    requires InOrder(words, 0, |text|) && n <= |words|
    ensures Before(text, lib, words, n) == Sum(UnitsOf(text, lib, words)[..n])
  {
    if n > 0 {
      var units := UnitsOf(text, lib, words);
      BeforeIsSum(text, lib, words, n - 1);
      assert units[..n][..n - 1] == units[..n - 1];
    }
  }

  lemma ShareInProportion(duration: real, part: real, whole: real)
    requires whole > 0.0
    ensures InProportion(Share(duration, part, whole), duration, part, whole)
  {
    DivideMultiply(duration * part, whole);
  }

  lemma StretchInProportion(a: real, b: real, duration: real, x: real, y: real, unit: real, whole: real)
    requires InProportion(a, duration, x, whole) && InProportion(b, duration, y, whole) && y == x + unit
    ensures InProportion(b - a, duration, unit, whole)
  {
  }

  lemma {:induction false} EstimateUpToIs(text: seq<CodePoint>, lib: Library, words: seq<Word>, duration: real, n: nat, i: nat)
    requires InOrder(words, 0, |text|) && i < n <= |words|
    ensures EstimatesUpTo(text, lib, words, duration, n)[i] == EstimateAt(text, lib, words, duration, i)
  {
    if i < n - 1 { EstimateUpToIs(text, lib, words, duration, n - 1, i); }
  }

  /** Where word `i` starts, or the end of the speech behind the last one. */
  function StartIn(es: seq<Estimated>, duration: real, i: nat): real
    requires i <= |es|
  {
    if i < |es| then es[i].seconds else duration
  }

  function StartOf(text: seq<CodePoint>, lib: Library, words: seq<Word>, duration: real, i: nat): real
    requires InOrder(words, 0, |text|) && i <= |words|
  {
    StartIn(EstimatesUpTo(text, lib, words, duration, |words|), duration, i)
  }

  lemma StartInProportion(text: seq<CodePoint>, lib: Library, words: seq<Word>, duration: real, i: nat)
    requires InOrder(words, 0, |text|) && i <= |words|
    ensures InProportion(StartOf(text, lib, words, duration, i), duration, Before(text, lib, words, i), Before(text, lib, words, |words|))
  {
    if i < |words| {
      BeforeGrows(text, lib, words, 0, |words|);
      EstimateUpToIs(text, lib, words, duration, |words|, i);
      ShareInProportion(duration, Before(text, lib, words, i), Before(text, lib, words, |words|));
    }
  }

  lemma WordInProportion(text: seq<CodePoint>, lib: Library, words: seq<Word>, duration: real, i: nat)
    requires InOrder(words, 0, |text|) && i < |words|
    ensures InProportion(StartOf(text, lib, words, duration, i + 1) - StartOf(text, lib, words, duration, i), duration,
                         Unit(text, lib, words, i), Before(text, lib, words, |words|))
  {
    StartInProportion(text, lib, words, duration, i);
    StartInProportion(text, lib, words, duration, i + 1);
    StretchInProportion(StartOf(text, lib, words, duration, i), StartOf(text, lib, words, duration, i + 1), duration,
                        Before(text, lib, words, i), Before(text, lib, words, i + 1), Unit(text, lib, words, i),
                        Before(text, lib, words, |words|));
  }

  lemma FirstAtZero(text: seq<CodePoint>, lib: Library, words: seq<Word>, duration: real)
    requires InOrder(words, 0, |text|) && words != []
    ensures EstimatesUpTo(text, lib, words, duration, |words|)[0].seconds == 0.0
  {
    BeforeGrows(text, lib, words, 0, |words|);
    EstimateUpToIs(text, lib, words, duration, |words|, 0);
    assert duration * 0.0 == 0.0 && 0.0 / Before(text, lib, words, |words|) == 0.0;
  }

  lemma WordsDivide(text: seq<CodePoint>, lib: Library, words: seq<Word>, duration: real)
    requires InOrder(words, 0, |text|)
    ensures Divided(EstimatesUpTo(text, lib, words, duration, |words|), UnitsOf(text, lib, words), duration)
  {
    var units := UnitsOf(text, lib, words);
    BeforeIsSum(text, lib, words, |words|);
    assert units[..|words|] == units;
    if words != [] { FirstAtZero(text, lib, words, duration); }
    var es := EstimatesUpTo(text, lib, words, duration, |words|);
    forall i | 0 <= i < |es|
      ensures InProportion(StartIn(es, duration, i + 1) - StartIn(es, duration, i), duration, units[i], Sum(units))
    {
      WordInProportion(text, lib, words, duration, i);
    }
    StartsDivide(es, units, duration);
  }

  lemma StartsDivide(es: seq<Estimated>, units: seq<real>, duration: real)
    requires |units| == |es| && (es != [] ==> es[0].seconds == 0.0)
    requires forall i :: 0 <= i < |es| ==>
      InProportion(StartIn(es, duration, i + 1) - StartIn(es, duration, i), duration, units[i], Sum(units))
    ensures Divided(es, units, duration)
  {
    forall i, j | 0 <= i < |es| && j == i + 1 < |es|
      ensures InProportion(es[j].seconds - es[i].seconds, duration, units[i], Sum(units))
    {
      assert InProportion(StartIn(es, duration, i + 1) - StartIn(es, duration, i), duration, units[i], Sum(units));
    }
    if es != [] {
      var last := |es| - 1;
      assert InProportion(StartIn(es, duration, last + 1) - StartIn(es, duration, last), duration, units[last], Sum(units));
    }
  }

  /** Every estimate stands for its word. */
  ghost predicate AtWords(es: seq<Estimated>, words: seq<Word>) {
    && |es| == |words|
    && forall i :: 0 <= i < |es| ==> es[i].position == words[i].start && es[i].position + es[i].length == words[i].end
  }

  /** The spoken time is divided among all words of the text as their units say. */
  ghost predicate IsEstimate(text: seq<CodePoint>, lib: Library, duration: real, es: seq<Estimated>) {
    var words := Matches(text, lib.isWord, 0);
    if duration <= 0.0 then es == []
    else
      && InOrder(words, 0, |text|) && AtWords(es, words)
      && exists units: seq<real> ::
           && |units| == |words| && (forall i :: 0 <= i < |words| ==> IsUnit(text, lib, words, i, units[i]))
           && Divided(es, units, duration)
  }

  lemma EstimatesDivide(text: seq<CodePoint>, lib: Library, duration: real)
    ensures IsEstimate(text, lib, duration, Estimates(text, lib, duration))
  {
    var words := Matches(text, lib.isWord, 0);
    MatchesAreInOrder(text, lib.isWord, 0);
    if duration > 0.0 {
      var units := UnitsOf(text, lib, words);
      forall i | 0 <= i < |words| ensures IsUnit(text, lib, words, i, units[i]) {
        UnitIsUnit(text, lib, words, i);
      }
      WordsDivide(text, lib, words, duration);
      forall i | 0 <= i < |words|
        ensures EstimatesUpTo(text, lib, words, duration, |words|)[i] == EstimateAt(text, lib, words, duration, i)
      {
        EstimateUpToIs(text, lib, words, duration, |words|, i);
      }
    }
  }

  // ----- Frames --------------------------------------------------------------------------

  /** The frame of a time in the speech, in the trimmed audio. */
  function FrameOf(seconds: real, leadingFrames: int, rate: nat): int
    requires rate > 0
  {
    RoundHalfEven((seconds + leadingFrames as real / rate as real) * rate as real)
  }

  lemma ScaledTime(seconds: real, leadingFrames: int, rate: nat)
    requires rate > 0
    ensures (seconds + leadingFrames as real / rate as real) * rate as real == seconds * rate as real + leadingFrames as real
  {
    var r, l := rate as real, leadingFrames as real;
    DivideMultiply(l, r);
    assert (seconds + l / r) * r == seconds * r + (l / r) * r;
  }

  /** A time within the spoken frames, in frames. */
  lemma TimesFit(earlier: real, seconds: real, spokenFrames: int, rate: nat)
    requires rate > 0 && 0.0 <= earlier <= seconds <= spokenFrames as real / rate as real
    ensures 0.0 <= earlier * rate as real <= seconds * rate as real <= spokenFrames as real
  {
    var r := rate as real;
    MultiplyIsMonotone(0.0, earlier, r);
    MultiplyIsMonotone(earlier, seconds, r);
    MultiplyIsMonotone(seconds, spokenFrames as real / r, r);
    DivideMultiply(spokenFrames as real, r);
  }

  lemma FrameIs(seconds: real, frames: real, leadingFrames: int, rate: nat)
    requires rate > 0 && frames == seconds * rate as real
    ensures FrameOf(seconds, leadingFrames, rate) == RoundHalfEven(frames + leadingFrames as real)
  {
    ScaledTime(seconds, leadingFrames, rate);
  }

  /** The frame of a word is the whole number nearest to its time behind the silence before the speech. */
  lemma FrameIsNearest(seconds: real, leadingFrames: int, rate: nat)
    requires rate > 0
    ensures -0.5 <= leadingFrames as real + seconds * rate as real - FrameOf(seconds, leadingFrames, rate) as real <= 0.5
  {
    FrameIs(seconds, seconds * rate as real, leadingFrames, rate);
    RoundIsNearest(seconds * rate as real + leadingFrames as real);
  }

  /** A time within the speech becomes a frame between the silence before it and its end. */
  lemma FramesFit(earlier: real, seconds: real, t: Trim, rate: nat)
    requires rate > 0 && 0.0 <= earlier <= seconds <= t.spokenFrames as real / rate as real
    ensures t.leadingFrames <= FrameOf(earlier, t.leadingFrames, rate)
         <= FrameOf(seconds, t.leadingFrames, rate) <= t.leadingFrames + t.spokenFrames
  {
    TimesFit(earlier, seconds, t.spokenFrames, rate);
    RoundedFramesFit(earlier, seconds, earlier * rate as real, seconds * rate as real, t, rate);
  }

  lemma RoundedFramesFit(earlier: real, seconds: real, low: real, high: real, t: Trim, rate: nat)
    requires rate > 0 && low == earlier * rate as real && high == seconds * rate as real
    requires 0.0 <= low <= high <= t.spokenFrames as real
    ensures t.leadingFrames <= FrameOf(earlier, t.leadingFrames, rate)
         <= FrameOf(seconds, t.leadingFrames, rate) <= t.leadingFrames + t.spokenFrames
  {
    var leading := t.leadingFrames;
    FrameIs(earlier, low, leading, rate);
    FrameIs(seconds, high, leading, rate);
    RoundIsMonotone(low + leading as real, high + leading as real);
    RoundStaysBetween(leading, low + leading as real, leading + t.spokenFrames);
    RoundStaysBetween(leading, high + leading as real, leading + t.spokenFrames);
  }

  // ----- A whole chunk -------------------------------------------------------------------

  function SpokenSeconds(t: Trim, rate: nat): real
    requires rate > 0
  {
    t.spokenFrames as real / rate as real
  }

  /** The seconds of the speech are its frames. */
  lemma SpokenFramesAre(t: Trim, rate: nat)
    requires rate > 0
    ensures SpokenSeconds(t, rate) * rate as real == t.spokenFrames as real
  {
    DivideMultiply(t.spokenFrames as real, rate as real);
  }

  /** The estimate as a boundary of the request; the chunk starts at `offset` of its text. */
  function BoundaryOf(text: seq<CodePoint>, e: Estimated, t: Trim, offset: nat, rate: nat): Option<Boundary>
    requires rate > 0
  {
    BoundaryFromCodepoints(text, FrameOf(e.seconds, t.leadingFrames, rate), offset + e.position, e.length)
  }

  /** All boundaries of a chunk; nothing if making any of them fails. */
  function BoundariesOf(text: seq<CodePoint>, es: seq<Estimated>, t: Trim, offset: nat, rate: nat): Option<seq<Boundary>>
    requires rate > 0
  {
    if es == [] then Some([])
    else
      var front := BoundariesOf(text, es[..|es| - 1], t, offset, rate);
      var last := BoundaryOf(text, es[|es| - 1], t, offset, rate);
      if front.Some? && last.Some? then Some(front.value + [last.value]) else None
  }

  lemma {:induction false} BoundariesAre(text: seq<CodePoint>, es: seq<Estimated>, t: Trim, offset: nat, rate: nat)
    requires rate > 0 && forall i :: 0 <= i < |es| ==> BoundaryOf(text, es[i], t, offset, rate).Some?
    ensures var r := BoundariesOf(text, es, t, offset, rate);
      && r.Some? && |r.value| == |es|
      && forall i :: 0 <= i < |es| ==> BoundaryOf(text, es[i], t, offset, rate) == Some(r.value[i])
  {
    if es != [] { BoundariesAre(text, es[..|es| - 1], t, offset, rate); }
  }

  /** What is known of an estimate for a word of the spoken text. */
  ghost predicate Plausible(spoken: seq<CodePoint>, e: Estimated, duration: real) {
    0.0 <= e.seconds <= duration && 0 < e.length && e.position + e.length <= |spoken|
  }

  ghost predicate AllPlausible(spoken: seq<CodePoint>, es: seq<Estimated>, duration: real) {
    && (forall i :: 0 <= i < |es| ==> Plausible(spoken, es[i], duration))
    && (forall i, j :: 0 <= i < j < |es| ==> es[i].seconds <= es[j].seconds)
  }

  lemma {:induction false} EstimatesArePlausible(text: seq<CodePoint>, lib: Library, words: seq<Word>, duration: real, n: nat)
    requires InOrder(words, 0, |text|) && n <= |words| && duration > 0.0
    ensures AllPlausible(text, EstimatesUpTo(text, lib, words, duration, n), duration)
    ensures n > 0 ==> EstimatesUpTo(text, lib, words, duration, n)[n - 1] == EstimateAt(text, lib, words, duration, n - 1)
  {
    if n > 0 {
      EstimatesArePlausible(text, lib, words, duration, n - 1);
      PlausibleLast(text, lib, words, duration, n);
      if n > 1 { EstimatesAreInTime(text, lib, words, duration, n - 2, n - 1); }
      PlausibleGrows(text, EstimatesUpTo(text, lib, words, duration, n - 1), EstimateAt(text, lib, words, duration, n - 1), duration);
    }
  }

  lemma PlausibleGrows(spoken: seq<CodePoint>, es: seq<Estimated>, e: Estimated, duration: real)
    requires AllPlausible(spoken, es, duration) && Plausible(spoken, e, duration)
    requires es != [] ==> es[|es| - 1].seconds <= e.seconds
    ensures AllPlausible(spoken, es + [e], duration)
  {
  }

  lemma PlausibleLast(text: seq<CodePoint>, lib: Library, words: seq<Word>, duration: real, n: nat)
    requires InOrder(words, 0, |text|) && 0 < n <= |words| && duration > 0.0
    ensures Plausible(text, EstimateAt(text, lib, words, duration, n - 1), duration)
  {
    EstimatesAreInTime(text, lib, words, duration, n - 1, n - 1);
  }

  lemma {:induction false} FewWords(words: seq<Word>, length: nat)
    requires InOrder(words, 0, length)
    ensures |words| <= length
  {
    if words != [] {
      var last := words[|words| - 1];
      FewWords(words[..|words| - 1], last.start);
    }
  }

  /** A chunk of a request's text and its waveform, of a size a session and a submission allow. */
  ghost predicate IsChunk(text: seq<CodePoint>, offset: nat, spoken: seq<CodePoint>, samples: seq<real>, rate: nat) {
    && rate > 0 && WellFormed(text) && Length(text) <= UINT32_MAX && 2 * |samples| <= UINT64_MAX
    && offset + |spoken| <= |text| && spoken == text[offset..offset + |spoken|]
  }

  /** The boundary names the word of the estimate and lies in the trimmed audio. */
  ghost predicate IsGood(text: seq<CodePoint>, spoken: seq<CodePoint>, e: Estimated, b: Boundary, t: Trim, rate: nat) {
    && rate > 0 && b.frame == FrameOf(e.seconds, t.leadingFrames, rate) && b.frame <= t.until - t.from
    && e.position + e.length <= |spoken| && Names(text, b, spoken[e.position..e.position + e.length])
  }

  lemma FrameFits(e: Estimated, t: Trim, samples: seq<real>, rate: nat)
    requires rate > 0 && IsTrim(samples, t) && 0 < t.spokenFrames && 0.0 <= e.seconds <= SpokenSeconds(t, rate)
    ensures 0 <= FrameOf(e.seconds, t.leadingFrames, rate) <= t.until - t.from <= |samples|
  {
    FramesFit(e.seconds, e.seconds, t, rate);
  }

  lemma WordIsMade(text: seq<CodePoint>, offset: nat, spoken: seq<CodePoint>, frame: nat, position: nat, length: nat)
    requires WellFormed(text) && Length(text) <= UINT32_MAX && frame <= UINT64_MAX
    requires offset + |spoken| <= |text| && spoken == text[offset..offset + |spoken|]
    requires 0 < length && position + length <= |spoken|
    ensures var b := BoundaryFromCodepoints(text, frame, offset + position, length);
      b.Some? && b.value.frame == frame && Names(text, b.value, spoken[position..position + length])
  {
    SliceOfSlice(text, offset, |spoken|, position, length);
    RangeIsMade(text, frame, offset + position, length, spoken[position..position + length]);
  }

  lemma RangeIsMade(text: seq<CodePoint>, frame: nat, from: nat, length: nat, word: seq<CodePoint>)
    requires WellFormed(text) && Length(text) <= UINT32_MAX && frame <= UINT64_MAX
    requires 0 < length && from + length <= |text| && word == text[from..from + length]
    ensures var b := BoundaryFromCodepoints(text, frame, from, length);
      b.Some? && b.value.frame == frame && Names(text, b.value, word)
  {
    BoundaryNamesTheWord(text, frame, from, length);
  }

  lemma BoundaryIsGood(text: seq<CodePoint>, offset: nat, spoken: seq<CodePoint>, e: Estimated, samples: seq<real>, t: Trim, rate: nat)
    requires IsChunk(text, offset, spoken, samples, rate) && IsTrim(samples, t) && 0 < t.spokenFrames
    requires Plausible(spoken, e, SpokenSeconds(t, rate))
    ensures var b := BoundaryOf(text, e, t, offset, rate); b.Some? && IsGood(text, spoken, e, b.value, t, rate)
  {
    FrameFits(e, t, samples, rate);
    WordIsMade(text, offset, spoken, FrameOf(e.seconds, t.leadingFrames, rate), e.position, e.length);
  }

  lemma SliceOfSlice(text: seq<CodePoint>, offset: nat, size: nat, position: nat, length: nat)
    requires offset + size <= |text| && position + length <= size
    ensures text[offset..offset + size][position..position + length] == text[offset + position..offset + position + length]
  {
    var inner := text[offset..offset + size];
    assert forall k :: position <= k < position + length ==> inner[k] == text[offset + k];
  }

  ghost predicate AllGood(text: seq<CodePoint>, spoken: seq<CodePoint>, es: seq<Estimated>, bs: seq<Boundary>, t: Trim, rate: nat) {
    |bs| == |es| && forall i :: 0 <= i < |es| ==> IsGood(text, spoken, es[i], bs[i], t, rate)
  }

  lemma BoundariesAreGood(text: seq<CodePoint>, offset: nat, spoken: seq<CodePoint>, es: seq<Estimated>,
                          samples: seq<real>, t: Trim, rate: nat)
    requires IsChunk(text, offset, spoken, samples, rate) && IsTrim(samples, t) && 0 < t.spokenFrames
    requires AllPlausible(spoken, es, SpokenSeconds(t, rate))
    ensures var bs := BoundariesOf(text, es, t, offset, rate);
      bs.Some? && AllGood(text, spoken, es, bs.value, t, rate)
  {
    forall i | 0 <= i < |es|
      ensures var b := BoundaryOf(text, es[i], t, offset, rate); b.Some? && IsGood(text, spoken, es[i], b.value, t, rate)
    {
      BoundaryIsGood(text, offset, spoken, es[i], samples, t, rate);
    }
    BoundariesAre(text, es, t, offset, rate);
  }

  /** What a chunk's boundaries must be: each covers its word, and together they may be submitted. */
  ghost predicate Submittable(text: seq<CodePoint>, bs: seq<Boundary>, frames: nat) {
    && ValidSubmission(text, BYTES_PER_FRAME * frames, BYTES_PER_FRAME, bs)
    && ValidBoundaries(bs, frames, Length(text))
  }

  lemma GoodIsSubmittable(text: seq<CodePoint>, spoken: seq<CodePoint>, es: seq<Estimated>, bs: seq<Boundary>, t: Trim, rate: nat)
    requires AllGood(text, spoken, es, bs, t, rate) && t.from <= t.until && 2 * (t.until - t.from) <= UINT64_MAX
    requires Sorted(bs) && |bs| <= UINT32_MAX
    ensures Submittable(text, bs, t.until - t.from)
  {
    var frames := t.until - t.from;
    assert (BYTES_PER_FRAME * frames) / BYTES_PER_FRAME == frames;
    forall i | 0 <= i < |bs| ensures bs[i].frame <= frames && InText(text, bs[i]) && FitsText(bs[i], Length(text)) {
      assert IsGood(text, spoken, es[i], bs[i], t, rate);
    }
  }

  lemma GoodIsSorted(text: seq<CodePoint>, spoken: seq<CodePoint>, es: seq<Estimated>, bs: seq<Boundary>, t: Trim, rate: nat)
    requires rate > 0 && AllGood(text, spoken, es, bs, t, rate) && AllPlausible(spoken, es, SpokenSeconds(t, rate))
    ensures Sorted(bs)
  {
    forall i, j | 0 <= i < j < |bs| ensures bs[i].frame <= bs[j].frame {
      assert IsGood(text, spoken, es[i], bs[i], t, rate) && IsGood(text, spoken, es[j], bs[j], t, rate);
      assert Plausible(spoken, es[i], SpokenSeconds(t, rate)) && Plausible(spoken, es[j], SpokenSeconds(t, rate));
      FramesFit(es[i].seconds, es[j].seconds, t, rate);
    }
  }

  lemma SpeechIsPositive(t: Trim, rate: nat)
    requires rate > 0 && SpokenSeconds(t, rate) > 0.0
    ensures t.spokenFrames > 0
  {
    DivideMultiply(t.spokenFrames as real, rate as real);
  }

  /** Few enough estimates for a submission, and all of them plausible. */
  lemma EstimatesFit(text: seq<CodePoint>, offset: nat, spoken: seq<CodePoint>, lib: Library, samples: seq<real>, t: Trim, rate: nat)
    requires IsChunk(text, offset, spoken, samples, rate) && IsTrim(samples, t)
    ensures var es := Estimates(spoken, lib, SpokenSeconds(t, rate));
      && |es| <= UINT32_MAX && AllPlausible(spoken, es, SpokenSeconds(t, rate))
      && (es != [] ==> t.spokenFrames > 0)
  {
    var words := Matches(spoken, lib.isWord, 0);
    MatchesAreInOrder(spoken, lib.isWord, 0);
    FewWords(words, |spoken|);
    EdgesGrow(text, 0, |text|);
    if SpokenSeconds(t, rate) > 0.0 {
      SpeechIsPositive(t, rate);
      EstimatesArePlausible(spoken, lib, words, SpokenSeconds(t, rate), |words|);
    }
  }

  /** The boundaries made of a trimmed chunk: each covers its word, and they may be submitted. */
  ghost predicate MakesSubmittable(text: seq<CodePoint>, offset: nat, spoken: seq<CodePoint>, lib: Library, t: Trim, rate: nat) {
    && rate > 0 && t.from <= t.until
    && var es := Estimates(spoken, lib, SpokenSeconds(t, rate));
    && var bs := BoundariesOf(text, es, t, offset, rate);
    && bs.Some? && AllGood(text, spoken, es, bs.value, t, rate) && Submittable(text, bs.value, t.until - t.from)
  }

  lemma PlausibleIsSubmittable(text: seq<CodePoint>, offset: nat, spoken: seq<CodePoint>, es: seq<Estimated>,
                               samples: seq<real>, t: Trim, rate: nat)
    requires IsChunk(text, offset, spoken, samples, rate) && IsTrim(samples, t)
    requires |es| <= UINT32_MAX && AllPlausible(spoken, es, SpokenSeconds(t, rate)) && (es != [] ==> t.spokenFrames > 0)
    ensures var bs := BoundariesOf(text, es, t, offset, rate);
      bs.Some? && AllGood(text, spoken, es, bs.value, t, rate) && Submittable(text, bs.value, t.until - t.from)
  {
    if es != [] { BoundariesAreGood(text, offset, spoken, es, samples, t, rate); }
    var bs := BoundariesOf(text, es, t, offset, rate).value;
    GoodIsSorted(text, spoken, es, bs, t, rate);
    GoodIsSubmittable(text, spoken, es, bs, t, rate);
  }

  lemma TrimmedIsSubmittable(text: seq<CodePoint>, offset: nat, spoken: seq<CodePoint>, lib: Library, samples: seq<real>,
                             t: Trim, rate: nat)
    requires IsChunk(text, offset, spoken, samples, rate) && IsTrim(samples, t)
    ensures MakesSubmittable(text, offset, spoken, lib, t, rate)
  {
    EstimatesFit(text, offset, spoken, lib, samples, t, rate);
    PlausibleIsSubmittable(text, offset, spoken, Estimates(spoken, lib, SpokenSeconds(t, rate)), samples, t, rate);
  }

  /** As one submission, the boundaries of a chunk pass the check of the session. */
  lemma ChunkIsSubmittable(text: seq<CodePoint>, offset: nat, spoken: seq<CodePoint>, lib: Library, samples: seq<real>, rate: nat)
    requires IsChunk(text, offset, spoken, samples, rate)
    ensures MakesSubmittable(text, offset, spoken, lib, NormalizeEdgeSilence(samples, rate), rate)
  {
    TrimFits(samples, rate);
    TrimmedIsSubmittable(text, offset, spoken, lib, samples, NormalizeEdgeSilence(samples, rate), rate);
  }
}
