/**
 * Strings of UTF-16 code units and of code points, and the encoding between them (section 2 of
 * RFC 2781). Native text offsets count code units, Python's count code points.
 */
module Utf16 {
  import opened AudioTypes

  type CodeUnit = x: int | 0 <= x < 0x1_0000

  type CodePoint = x: int | 0 <= x < 0x11_0000

  const LINE_FEED: CodeUnit := 0x0A
  const CARRIAGE_RETURN: CodeUnit := 0x0D

  predicate IsHigh(u: int) { 0xD800 <= u < 0xDC00 }

  predicate IsLow(u: int) { 0xDC00 <= u < 0xE000 }

  /** A Python string may hold lone surrogates; they have no encoding. */
  predicate WellFormed(text: seq<CodePoint>) {
    forall i :: 0 <= i < |text| ==> !IsHigh(text[i]) && !IsLow(text[i])
  }

  // ----- The encoding --------------------------------------------------------------------

  function Width(c: CodePoint): nat { if c > 0xFFFF then 2 else 1 }

  function Encode(c: CodePoint): (r: seq<CodeUnit>)
    ensures |r| == Width(c)
  {
    if c < 0x1_0000 then [c] else [0xD800 + (c - 0x1_0000) / 0x400, 0xDC00 + (c - 0x1_0000) % 0x400]
  }

  /** The encoding of section 2.1 of RFC 2781: a surrogate pair holds ten bits of the rest in either half. */
  lemma EncodesByTheStandard(c: CodePoint)
    ensures c < 0x1_0000 ==> Encode(c) == [c]
    ensures c >= 0x1_0000 ==>
      && |Encode(c)| == 2
      && var high: int, low: int := Encode(c)[0], Encode(c)[1];
      && IsHigh(high) && IsLow(low) && 0x1_0000 + (high - 0xD800) * 0x400 + (low - 0xDC00) == c
  {
  }

  function EncodeAll(text: seq<CodePoint>): seq<CodeUnit> {
    if text == [] then [] else EncodeAll(text[..|text| - 1]) + Encode(text[|text| - 1])
  }

  function Decode(units: seq<CodeUnit>): Option<seq<CodePoint>> {
    if units == [] then Some([])
    else
      var n := |units|;
      var last := units[n - 1];
      if !IsHigh(last) && !IsLow(last) then Append(Decode(units[..n - 1]), last)
      else if IsLow(last) && n >= 2 && IsHigh(units[n - 2]) then
        Append(Decode(units[..n - 2]), Join(units[n - 2], last))
      else None
  }

  function Join(high: int, low: int): CodePoint
    requires IsHigh(high) && IsLow(low)
  {
    0x1_0000 + (high - 0xD800) * 0x400 + (low - 0xDC00)
  }

  function Append(front: Option<seq<CodePoint>>, c: CodePoint): Option<seq<CodePoint>> {
    if front.Some? then Some(front.value + [c]) else None
  }

  lemma {:induction false} EncodeConcat(a: seq<CodePoint>, b: seq<CodePoint>)
    ensures EncodeAll(a + b) == EncodeAll(a) + EncodeAll(b)
  {
    if b == [] {
      assert a + b == a;
    } else {
      assert (a + b)[..|a + b| - 1] == a + b[..|b| - 1];
      EncodeConcat(a, b[..|b| - 1]);
    }
  }

  /** The units of a code point at the end are decoded to that code point. */
  lemma DecodeLast(front: seq<CodeUnit>, c: CodePoint)
    requires !IsHigh(c) && !IsLow(c)
    ensures Decode(front + Encode(c)) == Append(Decode(front), c)
  {
    var units := front + Encode(c);
    assert units[..|front|] == front;
    if c >= 0x1_0000 { JoinHalves(c); }
  }

  lemma JoinHalves(c: CodePoint)
    requires c >= 0x1_0000
    ensures IsHigh(Encode(c)[0]) && IsLow(Encode(c)[1]) && Join(Encode(c)[0], Encode(c)[1]) == c
  {
  }

  lemma FrontAndLast(text: seq<CodePoint>)
    requires text != []
    ensures text == text[..|text| - 1] + [text[|text| - 1]]
  {
  }

  /** Decoding undoes encoding. */
  lemma {:induction false} DecodeEncode(text: seq<CodePoint>)
    requires WellFormed(text)
    ensures Decode(EncodeAll(text)) == Some(text)
  {
    if text != [] {
      var front, c := text[..|text| - 1], text[|text| - 1];
      DecodeEncode(front);
      DecodeLast(EncodeAll(front), c);
      FrontAndLast(text);
    }
  }

  lemma AppendPair(front: seq<CodePoint>, high: CodeUnit, low: CodeUnit)
    requires WellFormed(front) && IsHigh(high) && IsLow(low)
    ensures var text := front + [Join(high, low)];
      WellFormed(text) && EncodeAll(text) == EncodeAll(front) + [high, low]
  {
    assert Encode(Join(high, low)) == [high, low];
    assert (front + [Join(high, low)])[..|front|] == front;
  }

  lemma AppendUnit(front: seq<CodePoint>, u: CodeUnit)
    requires WellFormed(front) && !IsHigh(u) && !IsLow(u)
    ensures WellFormed(front + [u]) && EncodeAll(front + [u]) == EncodeAll(front) + [u]
  {
    assert (front + [u])[..|front|] == front;
  }

  /** The last code point decoded, and the units it was made of. */
  lemma DecodedLast(units: seq<CodeUnit>, text: seq<CodePoint>)
    requires units != [] && Decode(units) == Some(text)
    ensures text != []
    ensures var n, front, last := |units|, text[..|text| - 1], text[|text| - 1];
      if IsLow(units[n - 1])
      then n >= 2 && IsHigh(units[n - 2]) && Decode(units[..n - 2]) == Some(front) && last == Join(units[n - 2], units[n - 1])
      else !IsHigh(units[n - 1]) && Decode(units[..n - 1]) == Some(front) && last == units[n - 1]
  {
    var n := |units|;
    var before := Decode(units[..if IsLow(units[n - 1]) then n - 2 else n - 1]).value;
    assert text[..|text| - 1] == before;
  }

  lemma LastTwo(units: seq<CodeUnit>)
    requires |units| >= 2
    ensures units == units[..|units| - 2] + [units[|units| - 2], units[|units| - 1]]
  {
  }

  lemma LastOne(units: seq<CodeUnit>)
    requires |units| >= 1
    ensures units == units[..|units| - 1] + [units[|units| - 1]]
  {
  }

  /** Encoding undoes decoding, so no two strings of code units stand for the same text. */
  lemma {:induction false} EncodeDecode(units: seq<CodeUnit>, text: seq<CodePoint>)
    requires Decode(units) == Some(text)
    ensures WellFormed(text) && EncodeAll(text) == units
  {
    if units != [] {
      var n := |units|;
      DecodedLast(units, text);
      FrontAndLast(text);
      var front := text[..|text| - 1];
      if IsLow(units[n - 1]) {
        EncodeDecode(units[..n - 2], front);
        AppendPair(front, units[n - 2], units[n - 1]);
        LastTwo(units);
      } else {
        EncodeDecode(units[..n - 1], front);
        AppendUnit(front, units[n - 1]);
        LastOne(units);
      }
    }
  }

  // ----- Edges ---------------------------------------------------------------------------

  /** The code-unit offset of the code point at `k`. */
  function Edge(text: seq<CodePoint>, k: nat): nat
    requires k <= |text|
  {
    if k == 0 then 0 else Edge(text, k - 1) + Width(text[k - 1])
  }

  /** The length of the text in code units. */
  function Length(text: seq<CodePoint>): nat { Edge(text, |text|) }

  /** An edge is the length of the encoding of what precedes it. */
  lemma {:induction false} EdgeIsEncodedLength(text: seq<CodePoint>, k: nat)
    requires k <= |text|
    ensures Edge(text, k) == |EncodeAll(text[..k])|
  {
    if k > 0 {
      EdgeIsEncodedLength(text, k - 1);
      assert text[..k][..k - 1] == text[..k - 1];
    }
  }

  lemma LengthIs(text: seq<CodePoint>)
    ensures Length(text) == |EncodeAll(text)|
  {
    EdgeIsEncodedLength(text, |text|);
    assert text[..|text|] == text;
  }

  lemma {:induction false} EdgeOfPrefix(text: seq<CodePoint>, n: nat, k: nat)
    requires k <= n <= |text|
    ensures Edge(text[..n], k) == Edge(text, k)
  {
    if k > 0 { EdgeOfPrefix(text, n, k - 1); }
  }

  ghost predicate IsEdge(text: seq<CodePoint>, e: int) {
    exists k: nat :: k <= |text| && Edge(text, k) == e
  }

  /** The offset lies between the two halves of a surrogate pair. */
  predicate Splits(units: seq<CodeUnit>, e: int) {
    0 < e < |units| && IsHigh(units[e - 1]) && IsLow(units[e])
  }

  /** The offsets of code points are exactly the offsets that split no pair. */
  lemma {:induction false} EdgesSplitNothing(text: seq<CodePoint>, e: int)
    requires WellFormed(text)
    ensures IsEdge(text, e) <==> 0 <= e <= Length(text) && !Splits(EncodeAll(text), e)
  {
    LengthIs(text);
    if text == [] {
      assert Edge(text, 0) == 0;
    } else {
      var front, c := text[..|text| - 1], text[|text| - 1];
      EdgesSplitNothing(front, e);
      LengthIs(front);
      EdgesOfLonger(text, e);
      assert EncodeAll(text) == EncodeAll(front) + Encode(c);
    }
  }

  lemma EdgesOfLonger(text: seq<CodePoint>, e: int)
    requires text != []
    ensures IsEdge(text, e) <==> IsEdge(text[..|text| - 1], e) || e == Length(text)
  {
    var front := text[..|text| - 1];
    forall k: nat | k <= |front| ensures Edge(text, k) == Edge(front, k) { EdgeOfPrefix(text, |front|, k); }
  }

  method Utf16Edges(text: seq<CodePoint>) returns (edges: set<int>)
    ensures forall e :: e in edges <==> IsEdge(text, e)
  {
    edges := {0};
    var offset := 0;
    assert Edge(text, 0) == 0;
    for k := 0 to |text|
      invariant offset == Edge(text, k)
      invariant forall e :: e in edges <==> exists j: nat :: j <= k && Edge(text, j) == e
    {
      offset := offset + if text[k] > 0xFFFF then 2 else 1;
      assert offset == Edge(text, k + 1);
      edges := edges + {offset};
    }
  }

  // ----- Offsets and word ranges ---------------------------------------------------------

  /** The code-unit offset of a code-point offset; nothing for an offset outside, or lone surrogates before it. */
  function Utf16Offset(text: seq<CodePoint>, offset: int): Option<nat> {
    if !(0 <= offset <= |text|) || !WellFormed(text[..offset]) then None else Some(Edge(text, offset))
  }

  /** A word range in code points as a native boundary; nothing where the program raises. */
  function BoundaryFromCodepoints(text: seq<CodePoint>, frame: int, position: int, length: int): Option<Boundary> {
    if length <= 0 || position + length > |text| then None
    else MakeBoundary(frame, Utf16Offset(text, position), Utf16Offset(text, position + length))
  }

  function MakeBoundary(frame: int, start: Option<nat>, end: Option<nat>): Option<Boundary> {
    if start.None? || end.None? then None
    else if !(0 <= frame <= UINT64_MAX) || start.value > UINT32_MAX then None
    else if !(0 < end.value - start.value <= UINT32_MAX) then None
    else Some(Boundary(frame, start.value, end.value - start.value))
  }

  lemma {:induction false} EdgesGrow(text: seq<CodePoint>, p: nat, q: nat)
    requires p <= q <= |text|
    ensures Edge(text, p) + (q - p) <= Edge(text, q)
  {
    if p < q { EdgesGrow(text, p, q - 1); }
  }

  /** What the native side needs of a word range. */
  ghost predicate IsWordRange(text: seq<CodePoint>, b: Boundary) {
    && FitsText(b, Length(text))
    && !Splits(EncodeAll(text), b.position) && !Splits(EncodeAll(text), b.position + b.length)
  }

  /** Between two code points lies a range that splits nothing and encodes what lies between. */
  lemma RangeOfWord(text: seq<CodePoint>, frame: nat, position: nat, end: nat)
    requires WellFormed(text) && position < end <= |text|
    ensures Edge(text, position) < Edge(text, end)
    ensures IsWordRange(text, Boundary(frame, Edge(text, position), Edge(text, end) - Edge(text, position)))
  {
    EdgesGrow(text, position, end);
    EdgesGrow(text, end, |text|);
    assert IsEdge(text, Edge(text, position)) && IsEdge(text, Edge(text, end));
    EdgesSplitNothing(text, Edge(text, position));
    EdgesSplitNothing(text, Edge(text, end));
  }

  lemma Middle(a: seq<CodeUnit>, b: seq<CodeUnit>, c: seq<CodeUnit>)
    ensures (a + b + c)[|a|..|a + b|] == b
  {
  }

  lemma ThreeParts(text: seq<CodePoint>, position: nat, end: nat)
    requires position <= end <= |text|
    ensures text[..end] == text[..position] + text[position..end]
    ensures text == text[..position] + text[position..end] + text[end..]
  {
  }

  lemma SliceOfWord(text: seq<CodePoint>, position: nat, end: nat)
    requires position <= end <= |text|
    ensures Edge(text, position) <= Edge(text, end) <= |EncodeAll(text)|
    ensures EncodeAll(text)[Edge(text, position)..Edge(text, end)] == EncodeAll(text[position..end])
  {
    var front, word, back := text[..position], text[position..end], text[end..];
    EdgeIsEncodedLength(text, position);
    EdgeIsEncodedLength(text, end);
    ThreeParts(text, position, end);
    EncodeConcat(front, word);
    EncodeConcat(front + word, back);
    Middle(EncodeAll(front), EncodeAll(word), EncodeAll(back));
  }

  /** The range is a word range whose code units encode `word`. */
  ghost predicate Names(text: seq<CodePoint>, b: Boundary, word: seq<CodePoint>) {
    && IsWordRange(text, b) && b.position + b.length <= |EncodeAll(text)|
    && EncodeAll(text)[b.position..b.position + b.length] == EncodeAll(word)
  }

  lemma WordIsNamed(text: seq<CodePoint>, frame: nat, position: nat, end: nat)
    requires WellFormed(text) && position < end <= |text|
    ensures Edge(text, position) < Edge(text, end)
    ensures Names(text, Boundary(frame, Edge(text, position), Edge(text, end) - Edge(text, position)), text[position..end])
  {
    RangeOfWord(text, frame, position, end);
    SliceOfWord(text, position, end);
  }

  /** The converted range covers exactly the encoding of the code points it was made from. */
  lemma BoundaryNamesTheWord(text: seq<CodePoint>, frame: nat, position: nat, length: nat)
    requires WellFormed(text) && Length(text) <= UINT32_MAX && frame <= UINT64_MAX
    requires 0 < length && position + length <= |text|
    ensures var b := BoundaryFromCodepoints(text, frame, position, length);
      b.Some? && b.value.frame == frame && Names(text, b.value, text[position..position + length])
  {
    BoundaryIs(text, frame, position, length);
    WordIsNamed(text, frame, position, position + length);
  }

  lemma OffsetIs(text: seq<CodePoint>, k: nat)
    requires WellFormed(text) && k <= |text|
    ensures Utf16Offset(text, k) == Some(Edge(text, k))
  {
  }

  lemma BoundaryIs(text: seq<CodePoint>, frame: nat, position: nat, length: nat)
    requires WellFormed(text) && Length(text) <= UINT32_MAX && frame <= UINT64_MAX
    requires 0 < length && position + length <= |text|
    ensures var start, end := Edge(text, position), Edge(text, position + length);
      start < end && BoundaryFromCodepoints(text, frame, position, length) == Some(Boundary(frame, start, end - start))
  {
    OffsetIs(text, position);
    OffsetIs(text, position + length);
    EdgesGrow(text, position, position + length);
    EdgesGrow(text, position + length, |text|);
    MakeBoundaryIs(frame, Edge(text, position), Edge(text, position + length));
  }

  lemma MakeBoundaryIs(frame: nat, start: nat, end: nat)
    requires frame <= UINT64_MAX && start < end <= UINT32_MAX
    ensures MakeBoundary(frame, Some(start), Some(end)) == Some(Boundary(frame, start, end - start))
  {
  }

  /** Exactly the non-empty ranges inside the text are converted. */
  lemma ConvertsExactlyRanges(text: seq<CodePoint>, frame: int, position: int, length: int)
    requires WellFormed(text) && Length(text) <= UINT32_MAX
    ensures BoundaryFromCodepoints(text, frame, position, length).Some?
        <==> 0 <= frame <= UINT64_MAX && 0 <= position && 0 < length && position + length <= |text|
  {
    if 0 <= frame <= UINT64_MAX && 0 <= position && 0 < length && position + length <= |text| {
      BoundaryIs(text, frame, position, length);
    }
  }

  // ----- Checking a submission -----------------------------------------------------------

  /** What a submission of `bytes` bytes must look like. */
  ghost predicate ValidSubmission(text: seq<CodePoint>, bytes: nat, bytesPerFrame: nat, bs: seq<Boundary>)
    requires bytesPerFrame > 0
  {
    && bytes <= UINT64_MAX && bytes % bytesPerFrame == 0 && |bs| <= UINT32_MAX
    && Checked(text, bytes / bytesPerFrame, bs)
  }

  /** The range lies in the text and splits no surrogate pair. */
  ghost predicate InText(text: seq<CodePoint>, b: Boundary) {
    && b.position + b.length <= Length(text)
    && !Splits(EncodeAll(text), b.position) && !Splits(EncodeAll(text), b.position + b.length)
  }

  lemma InTextByEdges(text: seq<CodePoint>, b: Boundary)
    requires WellFormed(text)
    ensures InText(text, b) <==> IsEdge(text, b.position) && IsEdge(text, b.position + b.length)
  {
    EdgesSplitNothing(text, b.position);
    EdgesSplitNothing(text, b.position + b.length);
  }

  /** The boundaries checked so far are in order and fit. */
  ghost predicate Checked(text: seq<CodePoint>, frames: nat, bs: seq<Boundary>) {
    Sorted(bs) && forall i :: 0 <= i < |bs| ==> bs[i].frame <= frames && InText(text, bs[i])
  }

  lemma CheckedGrows(text: seq<CodePoint>, frames: nat, bs: seq<Boundary>, i: nat)
    requires i < |bs| && Checked(text, frames, bs[..i])
    requires bs[i].frame <= frames && InText(text, bs[i]) && (i > 0 ==> bs[i - 1].frame <= bs[i].frame)
    ensures Checked(text, frames, bs[..i + 1])
  {
    var before, longer := bs[..i], bs[..i + 1];
    forall k, l | 0 <= k < l < |longer| ensures longer[k].frame <= longer[l].frame {
      if l < i { assert before[k].frame <= before[l].frame; }
      else if k < i - 1 { assert before[k].frame <= before[i - 1].frame; }
    }
    forall k | 0 <= k < |longer| ensures longer[k].frame <= frames && InText(text, longer[k]) {
      if k < i { assert longer[k] == before[k]; }
    }
  }

  /** One boundary that does not fit spoils the list. */
  lemma NotChecked(text: seq<CodePoint>, frames: nat, bs: seq<Boundary>, i: nat)
    requires i < |bs|
    requires bs[i].frame > frames || !InText(text, bs[i]) || (i > 0 && bs[i].frame < bs[i - 1].frame)
    ensures !Checked(text, frames, bs)
  {
  }

  /** The number of frames, or nothing for a submission that is refused. */
  method ValidateSubmission(text: seq<CodePoint>, bytes: nat, bytesPerFrame: nat, bs: seq<Boundary>, edges: set<int>)
    returns (frames: Option<nat>)
    requires WellFormed(text) && bytesPerFrame > 0 && forall e :: e in edges <==> IsEdge(text, e)
    ensures frames == if ValidSubmission(text, bytes, bytesPerFrame, bs) then Some(bytes / bytesPerFrame) else None
  {
    var textLength := Length(text);
    if bytes > UINT64_MAX || bytes % bytesPerFrame != 0 || |bs| > UINT32_MAX { return None; }
    var frameCount := bytes / bytesPerFrame;
    var previousFrame := 0;
    for i := 0 to |bs|
      invariant i > 0 ==> previousFrame == bs[i - 1].frame
      invariant Checked(text, frameCount, bs[..i])
    {
      var b := bs[i];
      InTextByEdges(text, b);
      var textEnd := b.position + b.length;
      if b.frame > frameCount || (i > 0 && b.frame < previousFrame)
         || textEnd > textLength || b.position !in edges || textEnd !in edges {
        NotChecked(text, frameCount, bs, i);
        return None;
      }
      CheckedGrows(text, frameCount, bs, i);
      previousFrame := b.frame;
    }
    assert bs[..|bs|] == bs;
    return Some(frameCount);
  }
}
