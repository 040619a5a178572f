/**
 * The online predictor of synthesis time and the chunk length it asks for. Seconds are real
 * numbers here; the constants are the program's.
 */
module Predictor {
  import opened Reals

  datatype Statistics = Statistics(fixedSeconds: real, secondsPerCharacter: real, observations: nat)

  function Default(): Statistics { Statistics(0.35, 0.025, 0) }

  function Blend(previous: real, observed: real, weight: real): real {
    previous * (1.0 - weight) + observed * weight
  }

  function Weight(s: Statistics): real { if s.observations > 0 then 0.35 else 0.65 }

  /** Learn from one synthesis of `length` characters that took `seconds`. */
  function Record(s: Statistics, length: int, seconds: real): Statistics {
    if length <= 0 then s
    else
      var weight := Weight(s);
      var observedRate := MaxReal(0.0, seconds - s.fixedSeconds) / (length as real);
      var rate := Blend(s.secondsPerCharacter, observedRate, weight);
      var observedFixed := MaxReal(0.0, seconds - rate * (length as real));
      Statistics(Blend(s.fixedSeconds, observedFixed, weight * 0.5), rate, s.observations + 1)
  }

  /** The variable part of the prediction for `length` characters. */
  function Variable(s: Statistics, length: int): real { s.secondsPerCharacter * (length as real) }

  function Estimate(s: Statistics, length: int): real {
    s.fixedSeconds + (if length > 0 then Variable(s, length) else 0.0)
  }

  /** Neither coefficient is negative. */
  predicate Sane(s: Statistics) { s.fixedSeconds >= 0.0 && s.secondsPerCharacter >= 0.0 }

  /** Before anything is learnt: 350 ms, and 25 ms a character. */
  lemma FreshEstimate(length: nat)
    ensures Estimate(Default(), length) == 0.35 + 0.025 * length as real
  {
  }

  // ----- Learning ------------------------------------------------------------------------

  /** A value blended towards an observation: by 0.35 after the first observation, by 0.65 at first. */
  function Towards(s: Statistics, previous: real, observed: real): real {
    if s.observations > 0 then previous * 0.65 + observed * 0.35 else previous * 0.35 + observed * 0.65
  }

  /** The same with half the weight. */
  function HalfTowards(s: Statistics, previous: real, observed: real): real {
    if s.observations > 0 then previous * 0.825 + observed * 0.175 else previous * 0.675 + observed * 0.325
  }

  lemma VariableIsSane(s: Statistics, length: int)
    requires Sane(s) && length > 0
    ensures Variable(s, length) >= 0.0
  {
  }

  lemma VariablePart(s: Statistics, length: int, seconds: real)
    requires length > 0
    ensures Variable(Record(s, length, seconds), length)
         == Towards(s, Variable(s, length), MaxReal(0.0, seconds - s.fixedSeconds))
  {
    var n, w := length as real, Weight(s);
    var observed := MaxReal(0.0, seconds - s.fixedSeconds);
    DivideMultiply(observed, n);
    var q := observed / n;
    assert Record(s, length, seconds).secondsPerCharacter == s.secondsPerCharacter * (1.0 - w) + q * w;
    assert (s.secondsPerCharacter * (1.0 - w) + q * w) * n
        == s.secondsPerCharacter * n * (1.0 - w) + (q * n) * w;
  }

  lemma FixedPart(s: Statistics, length: int, seconds: real)
    requires length > 0
    ensures var t := Record(s, length, seconds);
      t.fixedSeconds == HalfTowards(s, s.fixedSeconds, MaxReal(0.0, seconds - Variable(t, length)))
  {
  }

  /** Recording keeps both coefficients non-negative, whatever was observed. */
  lemma RecordKeepsSane(s: Statistics, length: int, seconds: real)
    requires Sane(s)
    ensures Sane(Record(s, length, seconds))
  {
    if length > 0 {
      var observed := MaxReal(0.0, seconds - s.fixedSeconds);
      assert observed / (length as real) >= 0.0;
    }
  }

  /** A synthesis of nothing teaches nothing; any other one is counted. */
  lemma RecordCounts(s: Statistics, length: int, seconds: real)
    ensures var t := Record(s, length, seconds);
      if length <= 0 then t == s else t.observations == s.observations + 1
  {
  }

  function Error(s: Statistics, length: int, seconds: real): real { Estimate(s, length) - seconds }

  /** `error` scaled by 1 - weight/2. */
  function Shrunk(s: Statistics, error: real): real {
    if s.observations > 0 then error * 0.825 else error * 0.675
  }

  /**
   * One observation moves the prediction for that length towards what was seen and never past
   * it; the error shrinks by at least the factor 1 - weight/2 exactly when the observation is
   * not more negative than the predicted variable part is positive, so for every real duration.
   */
  lemma RecordContracts(s: Statistics, length: int, seconds: real)
    requires Sane(s) && length > 0
    ensures var before, after := Error(s, length, seconds), Error(Record(s, length, seconds), length, seconds);
      && (before >= 0.0 ==> after >= 0.0) && (before <= 0.0 ==> after <= 0.0)
      && (Abs(after) <= Shrunk(s, Abs(before)) <==> seconds + Variable(s, length) >= 0.0)
  {
    VariablePart(s, length, seconds);
    FixedPart(s, length, seconds);
    LearntContracts(s, Record(s, length, seconds), length, seconds);
  }

  lemma LearntContracts(s: Statistics, t: Statistics, length: int, seconds: real)
    requires Sane(s) && length > 0
    requires Variable(t, length) == Towards(s, Variable(s, length), MaxReal(0.0, seconds - s.fixedSeconds))
    requires t.fixedSeconds == HalfTowards(s, s.fixedSeconds, MaxReal(0.0, seconds - Variable(t, length)))
    ensures var before, after := Error(s, length, seconds), Error(t, length, seconds);
      && (before >= 0.0 ==> after >= 0.0) && (before <= 0.0 ==> after <= 0.0)
      && (Abs(after) <= Shrunk(s, Abs(before)) <==> seconds + Variable(s, length) >= 0.0)
  {
    VariableIsSane(s, length);
    PartsContract(s, s.fixedSeconds, Variable(s, length), t.fixedSeconds, Variable(t, length), seconds);
  }

  /** The same on the fixed and the variable part, where all arithmetic is linear. */
  lemma PartsContract(s: Statistics, fixed: real, variable: real, newFixed: real, newVariable: real, seconds: real)
    requires fixed >= 0.0 && variable >= 0.0
    requires newVariable == Towards(s, variable, MaxReal(0.0, seconds - fixed))
    requires newFixed == HalfTowards(s, fixed, MaxReal(0.0, seconds - newVariable))
    ensures var before, after := fixed + variable - seconds, newFixed + newVariable - seconds;
      && (before >= 0.0 ==> after >= 0.0) && (before <= 0.0 ==> after <= 0.0)
      && (Abs(after) <= Shrunk(s, Abs(before)) <==> seconds + variable >= 0.0)
  {
  }

  function Repeat(s: Statistics, length: int, seconds: real, times: nat): Statistics {
    if times == 0 then s else Record(Repeat(s, length, seconds, times - 1), length, seconds)
  }

  function Pow(base: real, exponent: nat): real {
    if exponent == 0 then 1.0 else base * Pow(base, exponent - 1)
  }

  /** The slowest factor by which a repeated observation shrinks the error. */
  const SHRINK: real := 0.825

  /** `start` shrunk `times` times. */
  function Bound(start: real, times: nat): real {
    if times == 0 then start else SHRINK * Bound(start, times - 1)
  }

  lemma {:induction false} BoundIsPow(start: real, times: nat)
    ensures Bound(start, times) == Pow(SHRINK, times) * start
  {
    if times > 0 {
      BoundIsPow(start, times - 1);
      assert (SHRINK * Pow(SHRINK, times - 1)) * start == SHRINK * (Pow(SHRINK, times - 1) * start);
    }
  }

  /** Repeating one observation shrinks the prediction error geometrically, on the same side. */
  lemma {:induction false} RepeatingContracts(s: Statistics, length: int, seconds: real, times: nat)
    requires Sane(s) && length > 0 && seconds >= 0.0
    ensures var before := Error(s, length, seconds);
      var t := Repeat(s, length, seconds, times);
      var after := Error(t, length, seconds);
      && Sane(t)
      && (before >= 0.0 ==> after >= 0.0) && (before <= 0.0 ==> after <= 0.0)
      && Abs(after) <= Bound(Abs(before), times)
  {
    if times > 0 {
      RepeatingContracts(s, length, seconds, times - 1);
      var t := Repeat(s, length, seconds, times - 1);
      RecordKeepsSane(t, length, seconds);
      ContractsOnce(t, length, seconds);
    }
  }

  lemma ContractsOnce(s: Statistics, length: int, seconds: real)
    requires Sane(s) && length > 0 && seconds >= 0.0
    ensures var before, after := Error(s, length, seconds), Error(Record(s, length, seconds), length, seconds);
      && (before >= 0.0 ==> after >= 0.0) && (before <= 0.0 ==> after <= 0.0)
      && Abs(after) <= SHRINK * Abs(before)
  {
    VariableIsSane(s, length);
    RecordContracts(s, length, seconds);
  }

  /** After enough repetitions the prediction is as close to the observation as one likes. */
  lemma RepeatingConverges(s: Statistics, length: int, seconds: real, tolerance: real) returns (times: nat)
    requires Sane(s) && length > 0 && seconds >= 0.0 && tolerance > 0.0
    ensures Abs(Error(Repeat(s, length, seconds, times), length, seconds)) <= tolerance
  {
    times := EnoughTimes(Abs(Error(s, length, seconds)), tolerance);
    RepeatingContracts(s, length, seconds, times);
  }

  lemma EnoughTimes(start: real, tolerance: real) returns (times: nat)
    requires start >= 0.0 && tolerance > 0.0
    ensures Bound(start, times) <= tolerance
  {
    var needed := 5.0 * (start / tolerance);
    NotNegative(start, tolerance);
    times := needed.Floor + 1;
    BoundIsPow(start, times);
    PowVanishes(times);
    Vanishes(Pow(SHRINK, times), times as real, start, tolerance);
  }

  lemma NotNegative(x: real, d: real)
    requires x >= 0.0 && d > 0.0
    ensures x / d >= 0.0
  {
  }

  lemma Vanishes(p: real, k: real, start: real, tolerance: real)
    requires p > 0.0 && p * (1.0 + k / 5.0) <= 1.0 && tolerance > 0.0
    requires k >= 5.0 * (start / tolerance)
    ensures p * start <= tolerance
  {
    DivideMultiply(start, tolerance);
    var ratio := start / tolerance;
    assert p * ratio <= p * (k / 5.0);
    assert p * (1.0 + k / 5.0) == p + p * (k / 5.0);
    assert p * ratio <= 1.0;
    assert p * start == (p * ratio) * tolerance;
  }

  lemma {:induction false} PowVanishes(k: nat)
    ensures Pow(SHRINK, k) > 0.0
    ensures Pow(SHRINK, k) * (1.0 + (k as real) / 5.0) <= 1.0
  {
    if k > 0 {
      PowVanishes(k - 1);
      var p, a := Pow(SHRINK, k - 1), 1.0 + ((k - 1) as real) / 5.0;
      assert 1.0 + (k as real) / 5.0 <= 1.2 * a;
      assert SHRINK * p * (1.0 + (k as real) / 5.0) <= SHRINK * p * (1.2 * a) == 0.99 * (p * a);
    }
  }

  // ----- Choosing a length ---------------------------------------------------------------

  const MIN_CHUNK_CHARACTERS := 30
  const LOW_RUNWAY_CHUNK_CHARACTERS := 90
  const MEDIUM_RUNWAY_CHUNK_CHARACTERS := 120
  const MAX_TARGET_CHUNK_CHARACTERS := 140
  const RUNWAY_SAFETY_FACTOR := 0.68

  function Ceiling(runway: real): int {
    if runway < 1.0 then LOW_RUNWAY_CHUNK_CHARACTERS
    else if runway < 4.0 then MEDIUM_RUNWAY_CHUNK_CHARACTERS
    else MAX_TARGET_CHUNK_CHARACTERS
  }

  function Predicted(s: Statistics, runway: real): int {
    var available := MaxReal(0.0, runway) * RUNWAY_SAFETY_FACTOR;
    var budget := MaxReal(0.0, available - s.fixedSeconds);
    RoundHalfEven(budget / MaxReal(0.001, s.secondsPerCharacter))
  }

  /** The chunk length to ask for when `runway` seconds of audio are queued. */
  function ChooseTarget(s: Statistics, runway: real): int {
    var predicted := Predicted(s, runway);
    var capped := if predicted < Ceiling(runway) then predicted else Ceiling(runway);
    if capped < MIN_CHUNK_CHARACTERS then MIN_CHUNK_CHARACTERS else capped
  }

  /** The target always lies in 30..140 and never shrinks when more audio is queued. */
  lemma TargetIsBoundedAndMonotone(s: Statistics, runway: real, longer: real)
    requires runway <= longer
    ensures MIN_CHUNK_CHARACTERS <= ChooseTarget(s, runway) <= ChooseTarget(s, longer) <= MAX_TARGET_CHUNK_CHARACTERS
  {
    var rate := MaxReal(0.001, s.secondsPerCharacter);
    var less := MaxReal(0.0, MaxReal(0.0, runway) * RUNWAY_SAFETY_FACTOR - s.fixedSeconds);
    var more := MaxReal(0.0, MaxReal(0.0, longer) * RUNWAY_SAFETY_FACTOR - s.fixedSeconds);
    DivideIsMonotone(less, more, rate);
    RoundIsMonotone(less / rate, more / rate);
  }

  lemma RateTimes(rate: real, target: real, x: real, y: real)
    requires rate >= 0.0 && target <= x + 0.5 && y == x * rate
    ensures rate * target <= y + rate * 0.5
  {
    var more := x + 0.5;
    assert rate * target <= rate * more;
    assert rate * more == x * rate + rate * 0.5;
  }

  /** The safe part of the runway left for the variable part of a synthesis. */
  function Budget(s: Statistics, runway: real): real {
    MaxReal(0.0, MaxReal(0.0, runway) * RUNWAY_SAFETY_FACTOR - s.fixedSeconds)
  }

  /** The rate that is planned with: never below a millisecond per character. */
  function PlannedRate(s: Statistics): real { MaxReal(0.001, s.secondsPerCharacter) }

  /** A target above the minimum comes from a budget, and fits it up to rounding. */
  lemma TargetFromBudget(s: Statistics, runway: real)
    ensures ChooseTarget(s, runway) > MIN_CHUNK_CHARACTERS ==>
      && ChooseTarget(s, runway) as real <= Budget(s, runway) / PlannedRate(s) + 0.5
      && Budget(s, runway) == MaxReal(0.0, runway) * RUNWAY_SAFETY_FACTOR - s.fixedSeconds
  {
    var x := Budget(s, runway) / PlannedRate(s);
    RoundIsNearest(x);
    assert Predicted(s, runway) == RoundHalfEven(x);
    assert Budget(s, runway) == 0.0 ==> x == 0.0;
  }

  /**
   * What the target is for: a chunk of the chosen length is predicted to be ready before the
   * safe part of the runway ends, up to half a character of rounding, unless the minimum rules.
   */
  lemma TargetFitsTheRunway(s: Statistics, runway: real)
    requires Sane(s)
    ensures ChooseTarget(s, runway) > MIN_CHUNK_CHARACTERS ==>
      Estimate(s, ChooseTarget(s, runway)) <= MaxReal(0.0, runway) * RUNWAY_SAFETY_FACTOR + PlannedRate(s) * 0.5
  {
    TargetFromBudget(s, runway);
    if ChooseTarget(s, runway) > MIN_CHUNK_CHARACTERS {
      var q := Budget(s, runway) / PlannedRate(s);
      DivideMultiply(Budget(s, runway), PlannedRate(s));
      EstimateFits(s, ChooseTarget(s, runway), Budget(s, runway), q);
    }
  }

  lemma QuotientTimes(budget: real, rate: real, bound: real)
    requires rate > 0.0 && budget / rate <= bound
    ensures budget <= bound * rate
  {
    DivideMultiply(budget, rate);
    MultiplyIsMonotone(budget / rate, bound, rate);
  }

  /**
   * And the target is as long as the runway allows: below the ceiling for that runway, half a
   * character more would not fit what is left of its safe part.
   */
  lemma TargetUsesTheRunway(s: Statistics, runway: real)
    ensures var target, limit := ChooseTarget(s, runway), if runway < 1.0 then 90 else if runway < 4.0 then 120 else 140;
      var safe := (if runway > 0.0 then runway else 0.0) * 0.68;
      && target <= limit
      && (target < limit ==> safe - s.fixedSeconds <= (target as real + 0.5) * MaxReal(0.001, s.secondsPerCharacter))
  {
    if ChooseTarget(s, runway) < Ceiling(runway) { BudgetIsUsed(s, runway); }
  }

  lemma BudgetIsUsed(s: Statistics, runway: real)
    requires ChooseTarget(s, runway) < Ceiling(runway)
    ensures Budget(s, runway) <= (ChooseTarget(s, runway) as real + 0.5) * PlannedRate(s)
  {
    var x := Budget(s, runway) / PlannedRate(s);
    RoundIsNearest(x);
    assert Predicted(s, runway) == RoundHalfEven(x);
    QuotientTimes(Budget(s, runway), PlannedRate(s), ChooseTarget(s, runway) as real + 0.5);
  }

  lemma EstimateFits(s: Statistics, target: int, budget: real, q: real)
    requires target > 0 && target as real <= q + 0.5 && budget == q * PlannedRate(s)
    ensures Estimate(s, target) <= s.fixedSeconds + budget + PlannedRate(s) * 0.5
  {
    var rate, length := PlannedRate(s), target as real;
    RateTimes(rate, length, q, budget);
    MultiplyIsMonotone(s.secondsPerCharacter, rate, length);
    assert Estimate(s, target) == s.fixedSeconds + length * s.secondsPerCharacter;
  }

  /** A length between 30 and the ceiling for the runway that fits its safe part, and nearly fills it. */
  ghost predicate FillsRunway(s: Statistics, runway: real, target: int) {
    var limit := if runway < 1.0 then 90 else if runway < 4.0 then 120 else 140;
    var safe, rate := (if runway > 0.0 then runway else 0.0) * 0.68, MaxReal(0.001, s.secondsPerCharacter);
    && 30 <= target <= limit
    && (target > 30 ==> Estimate(s, target) <= safe + rate * 0.5)
    && (target < limit ==> safe - s.fixedSeconds <= (target as real + 0.5) * rate)
  }

  lemma TargetFillsTheRunway(s: Statistics, runway: real)
    requires Sane(s)
    ensures FillsRunway(s, runway, ChooseTarget(s, runway))
  {
    TargetIsBoundedAndMonotone(s, runway, runway);
    TargetFitsTheRunway(s, runway);
    TargetUsesTheRunway(s, runway);
  }

  // ----- The statistics object -----------------------------------------------------------

  class GenerationStatistics {
    var synthesisFixedSeconds: real
    var synthesisSecondsPerCharacter: real
    var observations: nat

    function View(): Statistics
      reads this
    {
      Statistics(synthesisFixedSeconds, synthesisSecondsPerCharacter, observations)
    }

    constructor ()
      ensures View() == Default() && Sane(View())
    {
      synthesisFixedSeconds, synthesisSecondsPerCharacter, observations := 0.35, 0.025, 0;
    }

    method RecordGeneration(length: int, seconds: real)
      modifies this
      ensures View() == Record(old(View()), length, seconds)
    {
      if length <= 0 { return; }
      var weight := if observations > 0 then 0.35 else 0.65;
      var rate := MaxReal(0.0, seconds - synthesisFixedSeconds) / (length as real);
      synthesisSecondsPerCharacter := Blend(synthesisSecondsPerCharacter, rate, weight);
      var observedFixed := MaxReal(0.0, seconds - synthesisSecondsPerCharacter * (length as real));
      synthesisFixedSeconds := Blend(synthesisFixedSeconds, observedFixed, weight * 0.5);
      observations := observations + 1;
    }
  }
}
