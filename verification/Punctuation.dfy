/**
 * Where adaptive chunks may end: the punctuation of a text, indexed once. The index is built by
 * scanning like the regular expression it comes from; what it contains is stated without it.
 */
module Punctuation {

  /** Python's notion of whitespace, the same for `isspace`, `strip` and the class \s. */
  predicate IsSpace(c: char) {
    var n := c as int;
    || 0x09 <= n <= 0x0D || 0x1C <= n <= 0x20 || n == 0x85 || n == 0xA0 || n == 0x1680
    || 0x2000 <= n <= 0x200A || n == 0x2028 || n == 0x2029 || n == 0x202F || n == 0x205F || n == 0x3000
  }

  predicate IsMark(c: char) { c in ".!?;:," }

  predicate EndsSentence(c: char) { c in ".!?" }

  /** Quotes and brackets that may close after the punctuation. */
  predicate IsCloser(c: char) { c in "\"'\U{201D}\U{2019})" }

  // ----- Runs of characters --------------------------------------------------------------

  /** The end of the run of marks that starts at `i`. */
  function MarksEnd(text: string, i: nat): (r: nat)
    requires i <= |text|
    ensures i <= r <= |text| && (forall k :: i <= k < r ==> IsMark(text[k]))
    ensures r < |text| ==> !IsMark(text[r])
    decreases |text| - i
  {
    if i < |text| && IsMark(text[i]) then MarksEnd(text, i + 1) else i
  }

  function ClosersEnd(text: string, i: nat): (r: nat)
    requires i <= |text|
    ensures i <= r <= |text| && (forall k :: i <= k < r ==> IsCloser(text[k]))
    ensures r < |text| ==> !IsCloser(text[r])
    decreases |text| - i
  {
    if i < |text| && IsCloser(text[i]) then ClosersEnd(text, i + 1) else i
  }

  /** The start of the run of closers that ends at `p`. */
  function ClosersStart(text: string, p: nat): (r: nat)
    requires p <= |text|
    ensures r <= p && (forall k :: r <= k < p ==> IsCloser(text[k]))
    ensures r > 0 ==> !IsCloser(text[r - 1])
  {
    if p > 0 && IsCloser(text[p - 1]) then ClosersStart(text, p - 1) else p
  }

  function MarksStart(text: string, p: nat): (r: nat)
    requires p <= |text|
    ensures r <= p && (forall k :: r <= k < p ==> IsMark(text[k]))
    ensures r > 0 ==> !IsMark(text[r - 1])
  {
    if p > 0 && IsMark(text[p - 1]) then MarksStart(text, p - 1) else p
  }

  // ----- What a boundary is --------------------------------------------------------------

  predicate AtBreak(text: string, p: nat)
    requires p <= |text|
  {
    p == |text| || IsSpace(text[p])
  }

  /** Punctuation, then any closers, end here, and whitespace or the end of the text follows. */
  predicate IsBoundary(text: string, p: int) {
    && 0 < p <= |text| && AtBreak(text, p)
    && var q := ClosersStart(text, p); q > 0 && IsMark(text[q - 1])
  }

  /** Where the punctuation of the boundary at `p` begins. */
  function RunStart(text: string, p: int): nat
    requires IsBoundary(text, p)
  {
    MarksStart(text, ClosersStart(text, p))
  }

  /** The punctuation of the boundary contains a sentence end. */
  predicate IsSentenceBoundary(text: string, p: int) {
    && IsBoundary(text, p)
    && exists k :: RunStart(text, p) <= k < ClosersStart(text, p) && EndsSentence(text[k])
  }

  // ----- Building the index --------------------------------------------------------------

  datatype PunctuationMap = PunctuationMap(boundaries: seq<int>, sentenceBoundaries: set<int>)

  ghost predicate Increasing(positions: seq<int>) {
    forall i, j :: 0 <= i < j < |positions| ==> positions[i] < positions[j]
  }

  /** The map lists exactly the boundaries of `text`, in order. */
  ghost predicate Indexes(map_: PunctuationMap, text: string) {
    && Increasing(map_.boundaries)
    && (forall p :: p in map_.boundaries <==> IsBoundary(text, p))
    && (forall p :: p in map_.sentenceBoundaries <==> IsSentenceBoundary(text, p))
  }

  /** The end of the match that starts at `i`, if there is one. */
  function MatchEnd(text: string, i: nat): (r: int)
    requires i < |text|
    ensures r == -1 || i < r <= |text|
  {
    var end := ClosersEnd(text, MarksEnd(text, i));
    if IsMark(text[i]) && AtBreak(text, end) then end else -1
  }

  /** A match ends at a boundary and starts no later than where its punctuation begins. */
  lemma MatchIsBoundary(text: string, i: nat)
    requires i < |text| && MatchEnd(text, i) != -1
    ensures var end := MatchEnd(text, i);
      IsBoundary(text, end) && ClosersStart(text, end) == MarksEnd(text, i) && RunStart(text, end) <= i
  {
    var marks := MarksEnd(text, i);
    var end := MatchEnd(text, i);
    assert IsMark(text[marks - 1]);
    ClosersBack(text, marks, end);
    MarksBack(text, i, marks);
  }

  /** No boundary lies inside a match. */
  lemma NoneInside(text: string, i: nat)
    requires i < |text| && MatchEnd(text, i) != -1
    ensures forall p :: i < p < MatchEnd(text, i) ==> !IsBoundary(text, p)
  {
    var marks := MarksEnd(text, i);
    assert forall p :: i < p < MatchEnd(text, i) ==>
      (if p < marks then IsMark(text[p]) else IsCloser(text[p])) && !AtBreak(text, p);
  }

  /** Going back over closers stops where they begin. */
  lemma {:induction false} ClosersBack(text: string, from: nat, p: nat)
    requires 0 < from <= p <= |text| && !IsCloser(text[from - 1])
    requires forall k :: from <= k < p ==> IsCloser(text[k])
    ensures ClosersStart(text, p) == from
  {
    if from < p { ClosersBack(text, from, p - 1); }
  }

  lemma {:induction false} MarksBack(text: string, from: nat, p: nat)
    requires from <= p <= |text|
    requires forall k :: from <= k < p ==> IsMark(text[k])
    ensures MarksStart(text, p) <= from
  {
    if from < p { MarksBack(text, from, p - 1); }
  }

  /** Every boundary is where a match from the start of its punctuation ends. */
  lemma BoundaryIsMatched(text: string, p: int)
    requires IsBoundary(text, p)
    ensures RunStart(text, p) < p && MatchEnd(text, RunStart(text, p)) == p
  {
    var q := ClosersStart(text, p);
    var start := RunStart(text, p);
    assert start < q by { MarksBack(text, q - 1, q); }
    MarksForward(text, start, q);
    ClosersForward(text, q, p);
  }

  lemma {:induction false} MarksForward(text: string, i: nat, q: nat)
    requires i <= q <= |text| && (forall k :: i <= k < q ==> IsMark(text[k]))
    requires q < |text| ==> !IsMark(text[q])
    ensures MarksEnd(text, i) == q
    decreases q - i
  {
    if i < q { MarksForward(text, i + 1, q); }
  }

  lemma {:induction false} ClosersForward(text: string, i: nat, p: nat)
    requires i <= p <= |text| && (forall k :: i <= k < p ==> IsCloser(text[k]))
    requires p < |text| ==> !IsCloser(text[p])
    ensures ClosersEnd(text, i) == p
    decreases p - i
  {
    if i < p { ClosersForward(text, i + 1, p); }
  }

  /** Scanning has passed `i`: what lies behind is listed, what lies ahead begins ahead. */
  ghost predicate Scanned(map_: PunctuationMap, text: string, i: nat) {
    && Increasing(map_.boundaries)
    && (forall p :: p in map_.boundaries <==> IsBoundary(text, p) && p <= i)
    && (forall p :: p in map_.sentenceBoundaries <==> IsSentenceBoundary(text, p) && p <= i)
    && (forall p :: IsBoundary(text, p) && p > i ==> RunStart(text, p) >= i)
  }

  lemma ScanMiss(map_: PunctuationMap, text: string, i: nat)
    requires i < |text| && Scanned(map_, text, i) && MatchEnd(text, i) == -1
    ensures Scanned(map_, text, i + 1)
  {
    forall p | IsBoundary(text, p) && p > i ensures p > i + 1 && RunStart(text, p) >= i + 1 {
      BoundaryIsMatched(text, p);
    }
  }

  /** After a match, the punctuation of every later boundary begins behind it. */
  lemma AheadOfMatch(text: string, i: nat, p: int)
    requires i < |text| && MatchEnd(text, i) != -1
    requires IsBoundary(text, p) && p > MatchEnd(text, i)
    ensures RunStart(text, p) >= MatchEnd(text, i)
  {
    var end := MatchEnd(text, i);
    BoundaryIsMatched(text, p);
    assert IsSpace(text[end]) && !IsMark(text[end]) && !IsCloser(text[end]);
    assert ClosersStart(text, p) > end;
  }

  /** A match contains a sentence end exactly when its end is a sentence boundary. */
  lemma MatchIsSentence(text: string, i: nat)
    requires i < |text| && MatchEnd(text, i) != -1 && RunStart(text, MatchEnd(text, i)) == i
    ensures var end := MatchEnd(text, i);
      IsSentenceBoundary(text, end) <==> exists k :: i <= k < end && EndsSentence(text[k])
  {
    var end := MatchEnd(text, i);
    MatchIsBoundary(text, i);
    assert forall k :: ClosersStart(text, end) <= k < end ==> IsCloser(text[k]) && !EndsSentence(text[k]);
  }

  lemma ScanHit(map_: PunctuationMap, text: string, i: nat, sentence: bool)
    requires i < |text| && Scanned(map_, text, i) && MatchEnd(text, i) != -1
    requires sentence <==> exists k :: i <= k < MatchEnd(text, i) && EndsSentence(text[k])
    ensures var end := MatchEnd(text, i);
      Scanned(PunctuationMap(map_.boundaries + [end],
                             map_.sentenceBoundaries + (if sentence then {end} else {})), text, end)
  {
    var end := MatchEnd(text, i);
    MatchIsBoundary(text, i);
    NoneInside(text, i);
    MatchIsSentence(text, i);
    forall p | IsBoundary(text, p) && p > end ensures RunStart(text, p) >= end {
      AheadOfMatch(text, i, p);
    }
    ListedAppend(map_.boundaries, text, i, end);
    forall p ensures p in map_.sentenceBoundaries + (if sentence then {end} else {})
                 <==> IsSentenceBoundary(text, p) && p <= end {
      assert IsSentenceBoundary(text, p) ==> IsBoundary(text, p);
    }
  }

  /** Adding the next boundary to the list of the earlier ones. */
  lemma ListedAppend(boundaries: seq<int>, text: string, i: nat, end: int)
    requires Increasing(boundaries) && (forall p :: p in boundaries <==> IsBoundary(text, p) && p <= i)
    requires i < end && IsBoundary(text, end) && (forall p :: i < p < end ==> !IsBoundary(text, p))
    ensures Increasing(boundaries + [end])
    ensures forall p :: p in boundaries + [end] <==> IsBoundary(text, p) && p <= end
  {
    forall j | 0 <= j < |boundaries| ensures boundaries[j] < end {
      var p := boundaries[j];
      assert p in boundaries;
    }
    AppendIncreases(boundaries, end);
  }

  method FromText(text: string) returns (map_: PunctuationMap)
    ensures Indexes(map_, text)
  {
    var boundaries: seq<int>, sentences: set<int> := [], {};
    var i := 0;
    while i < |text|
      invariant 0 <= i <= |text|
      invariant Scanned(PunctuationMap(boundaries, sentences), text, i)
      decreases |text| - i
    {
      var end := MatchEnd(text, i);
      if end == -1 {
        ScanMiss(PunctuationMap(boundaries, sentences), text, i);
        i := i + 1;
      } else {
        var sentence := exists k :: i <= k < end && EndsSentence(text[k]);
        ScanHit(PunctuationMap(boundaries, sentences), text, i, sentence);
        boundaries := boundaries + [end];
        if sentence { sentences := sentences + {end}; }
        i := end;
      }
    }
    map_ := PunctuationMap(boundaries, sentences);
  }

  // ----- Looking up a range --------------------------------------------------------------

  /** The number of positions up to `x`, by bisection between `lo` and `hi`. */
  function BisectRight(positions: seq<int>, x: int, lo: nat, hi: nat): (r: nat)
    requires lo <= hi <= |positions|
    ensures lo <= r <= hi
    decreases hi - lo
  {
    if lo == hi then lo
    else
      var mid := (lo + hi) / 2;
      if x < positions[mid] then BisectRight(positions, x, lo, mid)
      else BisectRight(positions, x, mid + 1, hi)
  }

  lemma {:induction false} BisectSplits(positions: seq<int>, x: int, lo: nat, hi: nat)
    requires lo <= hi <= |positions| && Increasing(positions)
    requires forall i :: 0 <= i < lo ==> positions[i] <= x
    requires forall i :: hi <= i < |positions| ==> positions[i] > x
    ensures var r := BisectRight(positions, x, lo, hi);
      && (forall i :: 0 <= i < r ==> positions[i] <= x)
      && (forall i :: r <= i < |positions| ==> positions[i] > x)
    decreases hi - lo
  {
    if lo < hi {
      var mid := (lo + hi) / 2;
      if x < positions[mid] { BisectSplits(positions, x, lo, mid); }
      else { BisectSplits(positions, x, mid + 1, hi); }
    }
  }

  function PositionsBetween(positions: seq<int>, start: int, end: int): seq<int> {
    var first := BisectRight(positions, start, 0, |positions|);
    var last := BisectRight(positions, end, 0, |positions|);
    if first <= last then positions[first..last] else []
  }

  function Filter(positions: seq<int>, start: int, end: int): seq<int> {
    if positions == [] then []
    else
      var last := positions[|positions| - 1];
      Filter(positions[..|positions| - 1], start, end) + (if start < last <= end then [last] else [])
  }

  /** The two bisections select exactly what a plain filter of all positions would. */
  lemma BetweenIsFilter(positions: seq<int>, start: int, end: int)
    requires Increasing(positions)
    ensures PositionsBetween(positions, start, end) == Filter(positions, start, end)
  {
    var first := BisectRight(positions, start, 0, |positions|);
    var last := BisectRight(positions, end, 0, |positions|);
    BisectSplits(positions, start, 0, |positions|);
    BisectSplits(positions, end, 0, |positions|);
    FilterSlice(positions, start, end, first, last, |positions|);
    assert positions[..|positions|] == positions;
  }

  lemma {:induction false} FilterSlice(positions: seq<int>, start: int, end: int, first: nat, last: nat, n: nat)
    requires n <= |positions| && first <= |positions| && last <= |positions|
    requires forall i :: 0 <= i < |positions| ==> (positions[i] <= start <==> i < first)
    requires forall i :: 0 <= i < |positions| ==> (positions[i] <= end <==> i < last)
    ensures var upto := if n < last then n else last;
      Filter(positions[..n], start, end) == if first <= upto then positions[first..upto] else []
  {
    if n > 0 {
      FilterSlice(positions, start, end, first, last, n - 1);
      FilterOneMore(positions, start, end, n);
      SliceOneMore(positions, first, n);
    }
  }

  lemma FilterOneMore(positions: seq<int>, start: int, end: int, n: nat)
    requires 0 < n <= |positions|
    ensures Filter(positions[..n], start, end)
         == Filter(positions[..n - 1], start, end) + (if start < positions[n - 1] <= end then [positions[n - 1]] else [])
  {
    assert positions[..n][..n - 1] == positions[..n - 1];
  }

  lemma SliceOneMore(positions: seq<int>, first: nat, n: nat)
    requires 0 < n <= |positions|
    ensures first < n ==> positions[first..n] == positions[first..n - 1] + [positions[n - 1]]
  {
  }

  lemma {:induction false} InFilter(positions: seq<int>, start: int, end: int)
    ensures forall p :: p in Filter(positions, start, end) <==> p in positions && start < p <= end
  {
    if positions != [] {
      var front, last := positions[..|positions| - 1], positions[|positions| - 1];
      InFilter(front, start, end);
      assert positions == front + [last];
    }
  }

  // ----- Increasing sequences ------------------------------------------------------------

  ghost predicate AllBelow(positions: seq<int>, bound: int) {
    forall i :: 0 <= i < |positions| ==> positions[i] < bound
  }

  lemma FrontBelowLast(positions: seq<int>)
    requires positions != [] && Increasing(positions)
    ensures Increasing(positions[..|positions| - 1]) && AllBelow(positions[..|positions| - 1], positions[|positions| - 1])
  {
  }

  lemma AppendIncreases(positions: seq<int>, last: int)
    requires Increasing(positions) && AllBelow(positions, last)
    ensures Increasing(positions + [last]) && AllBelow(positions + [last], last + 1)
  {
  }

  lemma MemberBelow(positions: seq<int>, bound: int, p: int)
    requires AllBelow(positions, bound) && p in positions
    ensures p < bound
  {
  }

  lemma BelowMore(positions: seq<int>, bound: int, more: int)
    requires AllBelow(positions, bound) && bound <= more
    ensures AllBelow(positions, more)
  {
  }

  lemma {:induction false} FilterKeepsOrder(positions: seq<int>, start: int, end: int, bound: int)
    requires Increasing(positions) && AllBelow(positions, bound)
    ensures Increasing(Filter(positions, start, end)) && AllBelow(Filter(positions, start, end), bound)
  {
    if positions != [] {
      var front, last := positions[..|positions| - 1], positions[|positions| - 1];
      FrontBelowLast(positions);
      FilterKeepsOrder(front, start, end, last);
      AppendIncreases(Filter(front, start, end), last);
      BelowMore(Filter(front, start, end), last, bound);
      BelowMore(Filter(front, start, end) + [last], last + 1, bound);
    }
  }
}
