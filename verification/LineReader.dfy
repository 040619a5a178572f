/**
 * The bounded line reader of the pipe bridge. A stream arrives in reads of any size up to the
 * capacity of the buffer; `Drain` is what a caller gets from it line by line, `Expected` what
 * the stream means.
 */
module LineReader {
  import opened Utf16

  /** What one read delivers; nothing at all means the end of the stream. */
  type Read = r: seq<CodeUnit> | r != [] witness [0]

  datatype Outcome = Line(text: seq<CodeUnit>) | EndOfStream | TooLong

  /** The outcome of one call and what it leaves unread: the rest of the buffer and later reads. */
  datatype Result = Result(outcome: Outcome, pending: seq<CodeUnit>, ahead: seq<Read>)

  function Flat(ahead: seq<Read>): seq<CodeUnit> {
    if ahead == [] then [] else ahead[0] + Flat(ahead[1..])
  }

  /** No read is larger than the buffer it was read into. */
  ghost predicate Bounded(ahead: seq<Read>, capacity: nat) {
    forall i :: 0 <= i < |ahead| ==> |ahead[i]| <= capacity
  }

  /** The first line feed, or the length of the string. */
  function LineLength(s: seq<CodeUnit>): (r: nat)
    ensures r <= |s| && (forall k :: 0 <= k < r ==> s[k] != LINE_FEED)
    ensures r < |s| ==> s[r] == LINE_FEED
  {
    if s == [] || s[0] == LINE_FEED then 0 else 1 + LineLength(s[1..])
  }

  lemma {:induction false} LineLengthIs(s: seq<CodeUnit>, n: nat)
    requires n <= |s| && (forall k :: 0 <= k < n ==> s[k] != LINE_FEED) && (n < |s| ==> s[n] == LINE_FEED)
    ensures LineLength(s) == n
  {
  }

  predicate EndsInReturn(s: seq<CodeUnit>) { s != [] && s[|s| - 1] == CARRIAGE_RETURN }

  function StripReturn(s: seq<CodeUnit>): seq<CodeUnit> {
    if EndsInReturn(s) then s[..|s| - 1] else s
  }

  // ----- The reader ----------------------------------------------------------------------

  /** The line feed is at `index`; the carriage return before it may already have been collected. */
  function EndLine(built: seq<CodeUnit>, pending: seq<CodeUnit>, index: nat, ahead: seq<Read>, limit: nat): Result
    requires index < |pending|
  {
    var content := StripReturn(pending[..index]);
    var kept := if |content| == index then StripReturn(built) else built;
    if |kept| + |content| > limit then Result(TooLong, pending, ahead)
    else Result(Line(kept + content), pending[index + 1..], ahead)
  }

  /** One call that has collected `built` from earlier reads. */
  function ReadLine(built: seq<CodeUnit>, pending: seq<CodeUnit>, ahead: seq<Read>, limit: nat): (r: Result)
    ensures r.outcome.Line? ==> |r.pending| + |Flat(r.ahead)| < |built| + |pending| + |Flat(ahead)|
    decreases |ahead|
  {
    var index := LineLength(pending);
    if index < |pending| then EndLine(built, pending, index, ahead, limit)
    else if pending != [] && |built| + |pending| > limit then Result(TooLong, pending, ahead)
    else if ahead == [] then
      Result(if built + pending == [] then EndOfStream else Line(built + pending), [], [])
    else
      ReadLine(built + pending, ahead[0], ahead[1..], limit)
  }

  /** All calls, up to the end of the stream or the first failure. */
  function Drain(pending: seq<CodeUnit>, ahead: seq<Read>, limit: nat): seq<Outcome>
    decreases |pending| + |Flat(ahead)|
  {
    var r := ReadLine([], pending, ahead, limit);
    if r.outcome.Line? then [r.outcome] + Drain(r.pending, r.ahead, limit) else [r.outcome]
  }

  // ----- What a stream means -------------------------------------------------------------

  function Expected(s: seq<CodeUnit>, limit: nat): seq<Outcome> {
    var n := LineLength(s);
    if n < |s| then
      var line := StripReturn(s[..n]);
      if |line| > limit then [TooLong] else [Line(line)] + Expected(s[n + 1..], limit)
    else if |s| > limit then [TooLong]
    else if s == [] then [EndOfStream]
    else [Line(s), EndOfStream]
  }

  /**
   * Far too long; or with a carriage return at the end and not exactly at the limit; or without
   * one at the end, and with none inside that is so close to the end that one read can hold
   * all that follows it. Such a line is read alike however it was divided (`SteadyIsExact`).
   */
  ghost predicate Steady(line: seq<CodeUnit>, limit: nat, capacity: nat) {
    || |line| > limit + 1
    || (if EndsInReturn(line) then |line| != limit + 1
        else forall k :: 0 <= k < |line| && line[k] == CARRIAGE_RETURN ==> |line| - k > capacity)
  }

  /** All lines up to the first one that is too long are steady. */
  ghost predicate AllSteady(s: seq<CodeUnit>, limit: nat, capacity: nat) {
    var n := LineLength(s);
    n < |s| ==>
      && Steady(s[..n], limit, capacity)
      && (|StripReturn(s[..n])| <= limit ==> AllSteady(s[n + 1..], limit, capacity))
  }

  lemma LineLengthSkips(built: seq<CodeUnit>, pending: seq<CodeUnit>, rest: seq<CodeUnit>)
    requires LINE_FEED !in built && LineLength(pending) < |pending|
    ensures LineLength(built + pending + rest) == |built| + LineLength(pending)
  {
    LineLengthIs(built + pending + rest, |built| + LineLength(pending));
  }

  /** One call, wherever the reads were divided. */
  ghost predicate Means(s: seq<CodeUnit>, limit: nat, r: Result) {
    var n := LineLength(s);
    if n < |s| then
      var line := StripReturn(s[..n]);
      if |line| > limit then r.outcome == TooLong
      else r.outcome == Line(line) && r.pending + Flat(r.ahead) == s[n + 1..]
    else if |s| > limit then r.outcome == TooLong
    else r.outcome == (if s == [] then EndOfStream else Line(s)) && r.pending + Flat(r.ahead) == []
  }

  lemma {:induction false} ReadLineMeans(built: seq<CodeUnit>, pending: seq<CodeUnit>, ahead: seq<Read>, limit: nat,
                                         capacity: nat)
    requires |built| <= limit && LINE_FEED !in built && |pending| <= capacity && Bounded(ahead, capacity)
    requires var s := built + pending + Flat(ahead);
      var n := LineLength(s); n < |s| ==> Steady(s[..n], limit, capacity)
    ensures Means(built + pending + Flat(ahead), limit, ReadLine(built, pending, ahead, limit))
    decreases |ahead|
  {
    var s := built + pending + Flat(ahead);
    var index := LineLength(pending);
    if index < |pending| {
      LineLengthSkips(built, pending, Flat(ahead));
      FoundInBuffer(built, pending, ahead, limit, capacity);
    } else if pending != [] && |built| + |pending| > limit {
      RefusedMeans(built, pending, ahead, limit, capacity);
    } else if ahead == [] {
      EndMeans(built, pending, limit);
    } else {
      NextRead(built, pending, ahead);
      NoLineFeed(built, pending, ahead, limit);
      ReadLineMeans(built + pending, ahead[0], ahead[1..], limit, capacity);
    }
  }

  lemma NextRead(built: seq<CodeUnit>, pending: seq<CodeUnit>, ahead: seq<Read>)
    requires ahead != []
    ensures built + pending + Flat(ahead) == (built + pending) + ahead[0] + Flat(ahead[1..])
  {
  }

  lemma RefusedMeans(built: seq<CodeUnit>, pending: seq<CodeUnit>, ahead: seq<Read>, limit: nat, capacity: nat)
    requires LINE_FEED !in built && LineLength(pending) == |pending| && pending != [] && |built| + |pending| > limit
    requires var s := built + pending + Flat(ahead);
      var n := LineLength(s); n < |s| ==> Steady(s[..n], limit, capacity)
    ensures Means(built + pending + Flat(ahead), limit, ReadLine(built, pending, ahead, limit))
  {
    NotFoundTooLong(built + pending, Flat(ahead), limit, capacity);
  }

  lemma EndMeans(built: seq<CodeUnit>, pending: seq<CodeUnit>, limit: nat)
    requires LINE_FEED !in built && LineLength(pending) == |pending| && |built| + |pending| <= limit
    ensures Means(built + pending + Flat([]), limit, ReadLine(built, pending, [], limit))
  {
    var s := built + pending;
    assert s + Flat([]) == s;
    LineLengthIs(s, |s|);
  }

  lemma FoundInBuffer(built: seq<CodeUnit>, pending: seq<CodeUnit>, ahead: seq<Read>, limit: nat, capacity: nat)
    requires LINE_FEED !in built && LineLength(pending) < |pending| <= capacity
    requires var s := built + pending + Flat(ahead); Steady(s[..|built| + LineLength(pending)], limit, capacity)
    ensures Means(built + pending + Flat(ahead), limit, ReadLine(built, pending, ahead, limit))
  {
    var s := built + pending + Flat(ahead);
    var index := LineLength(pending);
    var n := |built| + index;
    LineLengthIs(s, n);
    assert s[..n] == built + pending[..index];
    assert s[n + 1..] == pending[index + 1..] + Flat(ahead);
    StripJoins(built, pending[..index], limit, capacity);
  }

  /** Stripping the part in the buffer, or else what was collected, strips the line. */
  lemma StripJoins(built: seq<CodeUnit>, part: seq<CodeUnit>, limit: nat, capacity: nat)
    requires Steady(built + part, limit, capacity) && |part| < capacity
    ensures var content := StripReturn(part);
      var kept := if |content| == |part| then StripReturn(built) else built;
      kept + content == StripReturn(built + part) || (|kept| + |content| > limit && |StripReturn(built + part)| > limit)
  {
    if part == [] {
      assert built + part == built;
    } else {
      assert EndsInReturn(built) ==> (built + part)[|built| - 1] == CARRIAGE_RETURN;
    }
  }

  lemma NotFoundTooLong(front: seq<CodeUnit>, rest: seq<CodeUnit>, limit: nat, capacity: nat)
    requires |front| > limit && LINE_FEED !in front
    requires var n := LineLength(front + rest); n < |front + rest| ==> Steady((front + rest)[..n], limit, capacity)
    ensures var s := front + rest; var n := LineLength(s);
      |if n < |s| then StripReturn(s[..n]) else s| > limit
  {
    var s := front + rest;
    assert forall k :: 0 <= k < |front| ==> s[k] == front[k] && s[k] in front;
    assert LineLength(s) >= |front|;
  }

  /** What a call leaves unread are still reads of a bounded buffer. */
  lemma {:induction false} ReadLineLeavesBounded(built: seq<CodeUnit>, pending: seq<CodeUnit>, ahead: seq<Read>, limit: nat,
                                                 capacity: nat)
    requires |pending| <= capacity && Bounded(ahead, capacity)
    ensures var r := ReadLine(built, pending, ahead, limit); |r.pending| <= capacity && Bounded(r.ahead, capacity)
    decreases |ahead|
  {
    if LineLength(pending) == |pending| && ahead != [] {
      ReadLineLeavesBounded(built + pending, ahead[0], ahead[1..], limit, capacity);
    }
  }

  /** Every division of a steady stream into reads gives the same lines. */
  lemma {:induction false} DivisionDoesNotMatter(pending: seq<CodeUnit>, ahead: seq<Read>, limit: nat, capacity: nat)
    requires |pending| <= capacity && Bounded(ahead, capacity)
    requires AllSteady(pending + Flat(ahead), limit, capacity)
    ensures Drain(pending, ahead, limit) == Expected(pending + Flat(ahead), limit)
    decreases |pending| + |Flat(ahead)|
  {
    var s := pending + Flat(ahead);
    assert [] + pending + Flat(ahead) == s;
    ReadLineMeans([], pending, ahead, limit, capacity);
    ReadLineLeavesBounded([], pending, ahead, limit, capacity);
    var r := ReadLine([], pending, ahead, limit);
    if r.outcome.Line? {
      DivisionDoesNotMatter(r.pending, r.ahead, limit, capacity);
    }
  }

  /** Carriage returns stand directly before line feeds only, and every line fits with its own. */
  predicate IsPlain(s: seq<CodeUnit>, limit: nat) {
    && (forall i :: 0 <= i < |s| && s[i] == CARRIAGE_RETURN ==> i + 1 < |s| && s[i + 1] == LINE_FEED)
    && LinesFit(s, limit)
  }

  predicate LinesFit(s: seq<CodeUnit>, limit: nat) {
    var n := LineLength(s);
    n <= limit && (n < |s| ==> LinesFit(s[n + 1..], limit))
  }

  /** Such a stream is steady, and none of its lines is refused. */
  lemma {:induction false} PlainIsSteady(s: seq<CodeUnit>, limit: nat, capacity: nat)
    requires IsPlain(s, limit)
    ensures AllSteady(s, limit, capacity) && TooLong !in Expected(s, limit)
  {
    var n := LineLength(s);
    if n < |s| {
      var rest := s[n + 1..];
      assert forall i :: 0 <= i < |rest| ==> rest[i] == s[n + 1 + i];
      forall i | 0 <= i < n && s[i] == CARRIAGE_RETURN ensures i == n - 1 {
        var next := i + 1;
        assert s[next] == LINE_FEED;
      }
      var line := s[..n];
      assert forall i :: 0 <= i < n ==> line[i] == s[i];
      PlainIsSteady(rest, limit, capacity);
    }
  }

  // ----- The exact condition -------------------------------------------------------------

  /** The first call on a stream divided this way. */
  function First(ahead: seq<Read>, limit: nat): Outcome { ReadLine([], [], ahead, limit).outcome }

  /** The reads of a bounded buffer that deliver `s`. */
  ghost predicate Divides(ahead: seq<Read>, s: seq<CodeUnit>, capacity: nat) {
    Flat(ahead) == s && Bounded(ahead, capacity)
  }

  ghost predicate ReadAlike(line: seq<CodeUnit>, limit: nat, capacity: nat) {
    forall a: seq<Read>, b: seq<Read> | Divides(a, line + [LINE_FEED], capacity) && Divides(b, line + [LINE_FEED], capacity) ::
      First(a, limit) == First(b, limit)
  }

  /**
   * A line is read alike under all divisions exactly when it is steady. The buffer must hold a
   * carriage return and a line feed.
   */
  lemma SteadyIsExact(line: seq<CodeUnit>, limit: nat, capacity: nat)
    requires LINE_FEED !in line && capacity >= 2
    ensures Steady(line, limit, capacity) <==> ReadAlike(line, limit, capacity)
  {
    if Steady(line, limit, capacity) {
      SteadyIsReadAlike(line, limit, capacity);
    } else {
      var a, b := TwoDivisions(line, limit, capacity);
    }
  }

  lemma SteadyIsReadAlike(line: seq<CodeUnit>, limit: nat, capacity: nat)
    requires LINE_FEED !in line && Steady(line, limit, capacity)
    ensures ReadAlike(line, limit, capacity)
  {
    var s := line + [LINE_FEED];
    forall a: seq<Read>, b: seq<Read> | Divides(a, s, capacity) && Divides(b, s, capacity)
      ensures First(a, limit) == First(b, limit)
    {
      SteadyFirst(line, a, limit, capacity);
      SteadyFirst(line, b, limit, capacity);
    }
  }

  /** Two divisions of an unsteady line that are read differently. */
  lemma TwoDivisions(line: seq<CodeUnit>, limit: nat, capacity: nat) returns (a: seq<Read>, b: seq<Read>)
    requires LINE_FEED !in line && !Steady(line, limit, capacity) && capacity >= 2
    ensures Divides(a, line + [LINE_FEED], capacity) && Divides(b, line + [LINE_FEED], capacity)
    ensures First(a, limit) != First(b, limit)
  {
    var k := DifferingCut(line, limit, capacity);
    a, b := Units(line[..k]) + [line[k..] + [LINE_FEED]], Units(line) + [[LINE_FEED]];
    TailDivides(line, k, capacity);
    LineDivides(line, capacity);
  }

  lemma SteadyFirst(line: seq<CodeUnit>, ahead: seq<Read>, limit: nat, capacity: nat)
    requires LINE_FEED !in line && Steady(line, limit, capacity) && Divides(ahead, line + [LINE_FEED], capacity)
    ensures First(ahead, limit) == if |StripReturn(line)| > limit then TooLong else Line(StripReturn(line))
  {
    var s := line + [LINE_FEED];
    LineLengthIs(s, |line|);
    assert s[..|line|] == line && [] + [] + Flat(ahead) == s;
    ReadLineMeans([], [], ahead, limit, capacity);
  }

  /** The slowest division: every code unit is a read of its own. */
  function Units(s: seq<CodeUnit>): (r: seq<Read>)
    ensures |r| == |s| && forall i :: 0 <= i < |r| ==> |r[i]| == 1
  {
    if s == [] then [] else [[s[0]]] + Units(s[1..])
  }

  lemma {:induction false} UnitsAreFlat(s: seq<CodeUnit>)
    ensures Flat(Units(s)) == s
  {
    if s != [] {
      UnitsAreFlat(s[1..]);
      var head: Read := [s[0]];
      assert ([head] + Units(s[1..]))[1..] == Units(s[1..]);
      assert head + s[1..] == s;
    }
  }

  lemma UnitsDivide(s: seq<CodeUnit>, more: seq<Read>, capacity: nat)
    requires capacity >= 1 && Bounded(more, capacity)
    ensures Divides(Units(s) + more, s + Flat(more), capacity)
  {
    UnitsAreFlat(s);
    FlatConcat(Units(s), more);
  }

  lemma LineDivides(line: seq<CodeUnit>, capacity: nat)
    requires capacity >= 1
    ensures Divides(Units(line) + [[LINE_FEED]], line + [LINE_FEED], capacity)
  {
    assert Flat([[LINE_FEED]]) == [LINE_FEED];
    UnitsDivide(line, [[LINE_FEED]], capacity);
  }

  /** A line with its line feed, unit by unit up to `k` and the rest in one read. */
  lemma TailDivides(line: seq<CodeUnit>, k: nat, capacity: nat)
    requires k <= |line| && |line| - k < capacity
    ensures Divides(Units(line[..k]) + [line[k..] + [LINE_FEED]], line + [LINE_FEED], capacity)
  {
    var tail: Read := line[k..] + [LINE_FEED];
    assert Flat([tail]) == tail;
    UnitsDivide(line[..k], [tail], capacity);
    assert line[..k] + tail == line + [LINE_FEED];
  }

  /** Single units without a line feed are collected while they fit. */
  lemma {:induction false} UnitsAreCollected(built: seq<CodeUnit>, pending: seq<CodeUnit>, s: seq<CodeUnit>, more: seq<Read>,
                                             limit: nat)
    requires LINE_FEED !in pending && LINE_FEED !in s && |built| + |pending| + |s| <= limit && more != []
    ensures ReadLine(built, pending, Units(s) + more, limit) == ReadLine(built + pending + s, more[0], more[1..], limit)
    decreases |s|
  {
    LineLengthIs(pending, |pending|);
    NoLineFeed(built, pending, Units(s) + more, limit);
    if s == [] {
      assert Units(s) + more == more && built + pending + s == built + pending;
    } else {
      var rest := Units(s[1..]) + more;
      assert Units(s) + more == [[s[0]]] + rest && ([[s[0]]] + rest)[1..] == rest;
      UnitsAreCollected(built + pending, [s[0]], s[1..], more, limit);
      assert built + pending + [s[0]] + s[1..] == built + pending + s;
    }
  }

  lemma ReadByUnits(line: seq<CodeUnit>, limit: nat)
    requires LINE_FEED !in line && |line| <= limit
    ensures First(Units(line) + [[LINE_FEED]], limit) == Line(StripReturn(line))
  {
    ReadByUnitsAndTail(line, [], limit);
    assert [] + [LINE_FEED] == [LINE_FEED] && StripReturn(line) + [] == StripReturn(line);
  }

  /** Unit by unit, a line is too long as soon as more than the limit was collected. */
  lemma CollectTooMany(front: seq<CodeUnit>, last: CodeUnit, limit: nat)
    requires LINE_FEED !in front && last != LINE_FEED && |front| == limit
    ensures First(Units(front + [last]) + [[LINE_FEED]], limit) == TooLong
  {
    UnitsOfConcat(front, [last]);
    var more: seq<Read> := [[last], [LINE_FEED]];
    assert Units(front + [last]) + [[LINE_FEED]] == Units(front) + more;
    UnitsAreCollected([], [], front, more, limit);
    assert [] + [] + front == front;
    NoLineFeed(front, [last], [[LINE_FEED]], limit);
  }

  lemma {:induction false} UnitsOfConcat(s: seq<CodeUnit>, last: seq<CodeUnit>)
    requires |last| == 1
    ensures Units(s + last) == Units(s) + [last]
    decreases |s|
  {
    if s == [] {
      assert s + last == last && last == [last[0]] && Units(last[1..]) == [];
    } else {
      assert (s + last)[1..] == s[1..] + last;
      UnitsOfConcat(s[1..], last);
    }
  }

  /** A line whose last read holds `tail` and the line feed. */
  lemma ReadByUnitsAndTail(front: seq<CodeUnit>, tail: seq<CodeUnit>, limit: nat)
    requires LINE_FEED !in front && LINE_FEED !in tail && |front| <= limit
    ensures var content := StripReturn(tail);
      var kept := if |content| == |tail| then StripReturn(front) else front;
      First(Units(front) + [tail + [LINE_FEED]], limit) == if |kept| + |content| > limit then TooLong else Line(kept + content)
  {
    UnitsAreCollected([], [], front, [tail + [LINE_FEED]], limit);
    assert [] + [] + front == front;
    ReadEnd(front, tail, limit);
  }

  /** Where to begin the last read of an unsteady line so that it is not read as it is unit by unit. */
  lemma DifferingCut(line: seq<CodeUnit>, limit: nat, capacity: nat) returns (k: nat)
    requires LINE_FEED !in line && !Steady(line, limit, capacity) && capacity >= 2
    ensures k <= |line| && |line| - k < capacity
    ensures First(Units(line[..k]) + [line[k..] + [LINE_FEED]], limit) != First(Units(line) + [[LINE_FEED]], limit)
  {
    if |line| <= limit {
      ReadByUnits(line, limit);
    } else {
      assert line == line[..limit] + [line[limit]];
      CollectTooMany(line[..limit], line[limit], limit);
    }
    if EndsInReturn(line) {
      k := |line| - 1;
      ReadByUnitsAndTail(line[..k], line[k..], limit);
    } else {
      var r :| 0 <= r < |line| && line[r] == CARRIAGE_RETURN && |line| - r <= capacity;
      k := r + 1;
      ReadByUnitsAndTail(line[..k], line[k..], limit);
      ReturnIsLost(line, k, limit);
    }
  }

  /** A carriage return inside a line is lost when a read ends right behind it and the next one ends the line. */
  lemma ReturnIsLost(line: seq<CodeUnit>, k: nat, limit: nat)
    requires 0 < k < |line| && line[k - 1] == CARRIAGE_RETURN && !EndsInReturn(line)
    ensures StripReturn(line[k..]) == line[k..] && StripReturn(line[..k]) == line[..k - 1]
    ensures |line[..k - 1] + line[k..]| == |line| - 1
  {
  }

  /** A call that finds a line feed in the buffer. */
  lemma LineFeedFound(built: seq<CodeUnit>, pending: seq<CodeUnit>, ahead: seq<Read>, limit: nat)
    requires LineLength(pending) < |pending|
    ensures ReadLine(built, pending, ahead, limit) == EndLine(built, pending, LineLength(pending), ahead, limit)
  {
  }

  /** A call that finds no line feed in the buffer. */
  lemma NoLineFeed(built: seq<CodeUnit>, pending: seq<CodeUnit>, ahead: seq<Read>, limit: nat)
    requires LineLength(pending) == |pending|
    ensures var r := ReadLine(built, pending, ahead, limit);
      if pending != [] && |built| + |pending| > limit then r == Result(TooLong, pending, ahead)
      else if ahead == [] then r == Result(if built + pending == [] then EndOfStream else Line(built + pending), [], [])
      else r == ReadLine(built + pending, ahead[0], ahead[1..], limit)
  {
  }

  /** A call that finds the line feed at the end of the buffer. */
  lemma ReadEnd(built: seq<CodeUnit>, tail: seq<CodeUnit>, limit: nat)
    requires LINE_FEED !in tail
    ensures var content := StripReturn(tail);
      var kept := if |content| == |tail| then StripReturn(built) else built;
      ReadLine(built, tail + [LINE_FEED], [], limit).outcome
      == if |kept| + |content| > limit then TooLong else Line(kept + content)
  {
    LineLengthIs(tail + [LINE_FEED], |tail|);
    assert (tail + [LINE_FEED])[..|tail|] == tail;
  }

  // ----- Whole streams -------------------------------------------------------------------

  ghost predicate StreamReadAlike(s: seq<CodeUnit>, limit: nat, capacity: nat) {
    forall a: seq<Read>, b: seq<Read> | Divides(a, s, capacity) && Divides(b, s, capacity) ::
      Drain([], a, limit) == Drain([], b, limit)
  }

  lemma {:induction false} FlatConcat(a: seq<Read>, b: seq<Read>)
    ensures Flat(a + b) == Flat(a) + Flat(b)
    decreases |a|
  {
    if a == [] {
      assert a + b == b;
    } else {
      assert (a + b)[1..] == a[1..] + b;
      FlatConcat(a[1..], b);
    }
  }

  /** A call that finds its line feed does not look at later reads. */
  lemma {:induction false} LaterReadsDoNotMatter(built: seq<CodeUnit>, pending: seq<CodeUnit>, ahead: seq<Read>,
                                                 more: seq<Read>, limit: nat)
    requires LINE_FEED in pending + Flat(ahead)
    ensures ReadLine(built, pending, ahead + more, limit).outcome == ReadLine(built, pending, ahead, limit).outcome
    decreases |ahead|
  {
    assert ahead == [] ==> pending + Flat(ahead) == pending;
    if LineLength(pending) == |pending| {
      assert (ahead + more)[0] == ahead[0] && (ahead + more)[1..] == ahead[1..] + more;
      assert LINE_FEED in ahead[0] + Flat(ahead[1..]);
      LaterReadsDoNotMatter(built + pending, ahead[0], ahead[1..], more, limit);
    }
  }

  lemma DrainStarts(ahead: seq<Read>, limit: nat)
    ensures Drain([], ahead, limit) != [] && Drain([], ahead, limit)[0] == First(ahead, limit)
  {
  }

  /** A line that fits, read unit by unit, is delivered, and the rest is read as if it came alone. */
  lemma DrainAfterLine(line: seq<CodeUnit>, ahead: seq<Read>, limit: nat)
    requires LINE_FEED !in line && |line| <= limit
    ensures Drain([], Units(line) + ([[LINE_FEED]] + ahead), limit) == [Line(StripReturn(line))] + Drain([], ahead, limit)
  {
    var more: seq<Read> := [[LINE_FEED]] + ahead;
    UnitsAreCollected([], [], line, more, limit);
    assert [] + [] + line == line && more[1..] == ahead;
    LineFeedFound(line, [LINE_FEED], ahead, limit);
    assert [LINE_FEED][..0] == [] && [LINE_FEED][1..] == [] && StripReturn(line) + [] == StripReturn(line);
    assert ReadLine([], [], Units(line) + more, limit) == Result(Line(StripReturn(line)), [], ahead);
  }

  /** A division of what follows a line, with the line before it. */
  lemma DividesAfterLine(line: seq<CodeUnit>, ahead: seq<Read>, rest: seq<CodeUnit>, capacity: nat)
    requires Divides(ahead, rest, capacity) && capacity >= 1
    ensures Divides(Units(line) + ([[LINE_FEED]] + ahead), line + [LINE_FEED] + rest, capacity)
  {
    var more: seq<Read> := [[LINE_FEED]] + ahead;
    assert more[1..] == ahead;
    UnitsDivide(line, more, capacity);
    assert line + ([LINE_FEED] + rest) == line + [LINE_FEED] + rest;
  }

  /** Two readings that differ still differ behind a line that fits. */
  lemma DiffersAfterLine(line: seq<CodeUnit>, c: seq<Read>, d: seq<Read>, limit: nat)
    requires LINE_FEED !in line && |line| <= limit && Drain([], c, limit) != Drain([], d, limit)
    ensures Drain([], Units(line) + ([[LINE_FEED]] + c), limit) != Drain([], Units(line) + ([[LINE_FEED]] + d), limit)
  {
    DrainAfterLine(line, c, limit);
    DrainAfterLine(line, d, limit);
    var head := [Line(StripReturn(line))];
    assert (head + Drain([], c, limit))[1..] == Drain([], c, limit);
    assert (head + Drain([], d, limit))[1..] == Drain([], d, limit);
  }

  lemma FirstLineAndRest(s: seq<CodeUnit>)
    requires LineLength(s) < |s|
    ensures var n := LineLength(s);
      s == s[..n] + [LINE_FEED] + s[n + 1..] && LINE_FEED !in s[..n] && |s[n + 1..]| < |s|
  {
  }

  /** A stream that is not steady is read differently under two divisions. */
  lemma {:induction false} UnsteadyDiffers(s: seq<CodeUnit>, limit: nat, capacity: nat) returns (a: seq<Read>, b: seq<Read>)
    requires !AllSteady(s, limit, capacity) && capacity >= 2
    ensures Divides(a, s, capacity) && Divides(b, s, capacity) && Drain([], a, limit) != Drain([], b, limit)
    decreases |s|
  {
    FirstLineAndRest(s);
    var n := LineLength(s);
    var line, rest := s[..n], s[n + 1..];
    if Steady(line, limit, capacity) {
      var c, d := UnsteadyDiffers(rest, limit, capacity);
      a, b := LaterLineDiffers(line, rest, c, d, limit, capacity);
    } else {
      a, b := UnsteadyLineDiffers(line, rest, limit, capacity);
    }
  }

  lemma LaterLineDiffers(line: seq<CodeUnit>, rest: seq<CodeUnit>, c: seq<Read>, d: seq<Read>, limit: nat, capacity: nat)
    returns (a: seq<Read>, b: seq<Read>)
    requires LINE_FEED !in line && |line| <= limit && capacity >= 2
    requires Divides(c, rest, capacity) && Divides(d, rest, capacity) && Drain([], c, limit) != Drain([], d, limit)
    ensures var s := line + [LINE_FEED] + rest;
      Divides(a, s, capacity) && Divides(b, s, capacity) && Drain([], a, limit) != Drain([], b, limit)
  {
    DividesAfterLine(line, c, rest, capacity);
    DividesAfterLine(line, d, rest, capacity);
    DiffersAfterLine(line, c, d, limit);
    a, b := Units(line) + ([[LINE_FEED]] + c), Units(line) + ([[LINE_FEED]] + d);
  }

  lemma UnsteadyLineDiffers(line: seq<CodeUnit>, rest: seq<CodeUnit>, limit: nat, capacity: nat)
    returns (a: seq<Read>, b: seq<Read>)
    requires LINE_FEED !in line && !Steady(line, limit, capacity) && capacity >= 2
    ensures var s := line + [LINE_FEED] + rest;
      Divides(a, s, capacity) && Divides(b, s, capacity) && Drain([], a, limit) != Drain([], b, limit)
  {
    var c, d := TwoDivisions(line, limit, capacity);
    var more := Units(rest);
    UnitsDivide(rest, [], capacity);
    assert more + [] == more && rest + [] == rest;
    a, b := c + more, d + more;
    FlatConcat(c, more);
    FlatConcat(d, more);
    LineWithLaterReads(line, c, more, limit);
    LineWithLaterReads(line, d, more, limit);
    DrainStarts(a, limit);
    DrainStarts(b, limit);
  }

  lemma LineWithLaterReads(line: seq<CodeUnit>, ahead: seq<Read>, more: seq<Read>, limit: nat)
    requires Flat(ahead) == line + [LINE_FEED]
    ensures First(ahead + more, limit) == First(ahead, limit)
  {
    assert ([] + Flat(ahead))[|line|] == LINE_FEED;
    LaterReadsDoNotMatter([], [], ahead, more, limit);
  }

  /** A stream is read alike under all divisions exactly when all its lines are steady. */
  lemma SteadyStreamsAreExact(s: seq<CodeUnit>, limit: nat, capacity: nat)
    requires capacity >= 2
    ensures AllSteady(s, limit, capacity) <==> StreamReadAlike(s, limit, capacity)
  {
    if AllSteady(s, limit, capacity) {
      forall a: seq<Read>, b: seq<Read> | Divides(a, s, capacity) && Divides(b, s, capacity)
        ensures Drain([], a, limit) == Drain([], b, limit)
      {
        assert [] + Flat(a) == s && [] + Flat(b) == s;
        DivisionDoesNotMatter([], a, limit, capacity);
        DivisionDoesNotMatter([], b, limit, capacity);
      }
    } else {
      var a, b := UnsteadyDiffers(s, limit, capacity);
    }
  }

  // ----- The reader object ---------------------------------------------------------------

  class BoundedLineReader {
    const maximumLength: nat
    const buffer: array<CodeUnit>
    var start: nat
    var end: nat
    /** The reads the text reader behind this one will deliver. */
    var ahead: seq<Read>

    ghost predicate Valid()
      reads this
    {
      start <= end <= buffer.Length && Bounded(ahead, buffer.Length)
    }

    ghost function Pending(): seq<CodeUnit>
      reads this, buffer
      requires Valid()
    {
      buffer[start..end]
    }

    constructor (capacity: nat, maximumLength: nat, ahead: seq<Read>)
      requires Bounded(ahead, capacity)
      ensures Valid() && fresh(buffer) && Pending() == [] && this.ahead == ahead && this.maximumLength == maximumLength
    {
      buffer := new CodeUnit[capacity](_ => 0);
      this.maximumLength, this.ahead, start, end := maximumLength, ahead, 0, 0;
    }

    method NextLine() returns (outcome: Outcome)
      requires Valid()
      modifies this, buffer
      ensures Valid()
      ensures Result(outcome, Pending(), ahead) == ReadLine([], old(Pending()), old(ahead), maximumLength)
    {
      ghost var wanted := ReadLine([], Pending(), ahead, maximumLength);
      var builder: seq<CodeUnit> := [];
      while true
        invariant Valid() && ReadLine(builder, Pending(), ahead, maximumLength) == wanted
        decreases |ahead|
      {
        var index := FindLineFeed();
        if index < end {
          LineFeedFound(builder, Pending(), ahead, maximumLength);
          outcome := TakeLine(builder, index);
          return;
        }
        var more;
        builder, outcome, more := ReadMore(builder);
        if !more { return; }
      }
    }

    /** Collects the buffer and reads the next one; without more to read the call is over. */
    method ReadMore(collected: seq<CodeUnit>) returns (builder: seq<CodeUnit>, outcome: Outcome, more: bool)
      requires Valid() && LineLength(Pending()) == |Pending()|
      modifies this, buffer
      ensures Valid()
      ensures var wanted := ReadLine(collected, old(Pending()), old(ahead), maximumLength);
        if more then |ahead| < |old(ahead)| && ReadLine(builder, Pending(), ahead, maximumLength) == wanted
        else Result(outcome, Pending(), ahead) == wanted
    {
      var fits;
      builder, fits := Append(collected);
      if !fits { return builder, TooLong, false; }
      if ahead == [] {
        Discard();
        return builder, if builder == [] then EndOfStream else Line(builder), false;
      }
      Fill();
      return builder, EndOfStream, true;
    }

    /** Appends the buffer to what was collected, if that stays within the limit. */
    method Append(collected: seq<CodeUnit>) returns (builder: seq<CodeUnit>, fits: bool)
      requires Valid() && LineLength(Pending()) == |Pending()|
      ensures var r := ReadLine(collected, Pending(), ahead, maximumLength);
        if !fits then r == Result(TooLong, Pending(), ahead)
        else if ahead == [] then r == Result(if builder == [] then EndOfStream else Line(builder), [], [])
        else r == ReadLine(builder, ahead[0], ahead[1..], maximumLength)
    {
      NoLineFeed(collected, Pending(), ahead, maximumLength);
      fits := !(end > start && |collected| + (end - start) > maximumLength);
      builder := if fits then collected + buffer[start..end] else collected;
    }

    /** Nothing was read: the buffer is empty. */
    method Discard()
      requires Valid()
      modifies `start, `end
      ensures Valid() && Pending() == []
    {
      start, end := 0, 0;
    }

    method FindLineFeed() returns (index: nat)
      requires Valid()
      ensures start <= index <= end && index - start == LineLength(Pending())
    {
      index := start;
      while index < end && buffer[index] != LINE_FEED
        invariant start <= index <= end
        invariant forall k :: start <= k < index ==> buffer[k] != LINE_FEED
      {
        index := index + 1;
      }
      LineLengthIs(Pending(), index - start);
    }

    /** Ends the current line at the line feed found at `index`. */
    method TakeLine(collected: seq<CodeUnit>, index: nat) returns (outcome: Outcome)
      requires Valid() && start <= index < end
      modifies `start
      ensures Valid()
      ensures Result(outcome, Pending(), ahead)
           == EndLine(collected, old(Pending()), index - old(start), ahead, maximumLength)
    {
      var builder, count := collected, index - start;
      var part := buffer[start..index];
      assert part == Pending()[..count] && Pending()[count + 1..] == buffer[index + 1..end];
      var hasCarriageReturn := count > 0 && part[count - 1] == CARRIAGE_RETURN;
      var content := if hasCarriageReturn then part[..count - 1] else part;
      if !hasCarriageReturn && |builder| > 0 && builder[|builder| - 1] == CARRIAGE_RETURN {
        builder := builder[..|builder| - 1];
      }
      if |builder| + |content| > maximumLength { return TooLong; }
      outcome := Line(builder + content);
      start := index + 1;
    }

    /** The next read replaces the buffer's contents. */
    method Fill()
      requires Valid() && ahead != []
      modifies this, buffer
      ensures Valid() && Pending() == old(ahead[0]) && ahead == old(ahead[1..])
    {
      var chunk := ahead[0];
      forall i | 0 <= i < |chunk| { buffer[i] := chunk[i]; }
      start, end, ahead := 0, |chunk|, ahead[1..];
    }
  }
}
