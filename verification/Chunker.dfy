/**
 * The adaptive chunker: a text is cut into speakable chunks of changing size. `Next` is one
 * call; `Chunks` is any sequence of calls, each with its own target and hard limit.
 */
module Chunker {
  import opened AudioTypes
  import opened Punctuation

  const MIN_STARTUP_CHUNK_CHARACTERS := 50

  /** A bullet sign and a space. */
  const BULLET: string := "\U{2022} "

  datatype Segment = Segment(text: string, offset: nat, pauseAfter: bool)

  /** What one call returns, and the cursor and first-chunk flag it leaves behind. */
  datatype Outcome = Outcome(segment: Option<Segment>, cursor: nat, first: bool)

  // ----- Lines and structure prefixes ----------------------------------------------------

  function SkipSpaces(text: string, i: nat): (r: nat)
    requires i <= |text|
    ensures i <= r <= |text| && (forall k :: i <= k < r ==> IsSpace(text[k]))
    ensures r < |text| ==> !IsSpace(text[r])
    decreases |text| - i
  {
    if i < |text| && IsSpace(text[i]) then SkipSpaces(text, i + 1) else i
  }

  predicate BulletAt(text: string, i: nat) {
    i + 2 <= |text| && text[i] == BULLET[0] && text[i + 1] == BULLET[1]
  }

  function SkipPrefix(text: string, i: nat): (r: nat)
    requires i <= |text|
    ensures i <= r <= |text|
  {
    var j := SkipSpaces(text, i);
    if BulletAt(text, j) then j + 2 else j
  }

  /** The next line break, or the end of the text. */
  function LineEnd(text: string, i: nat): (r: nat)
    requires i <= |text|
    ensures i <= r <= |text| && (forall k :: i <= k < r ==> text[k] != '\n')
    ensures r < |text| ==> text[r] == '\n'
    decreases |text| - i
  {
    if i < |text| && text[i] != '\n' then LineEnd(text, i + 1) else i
  }

  /** The end of `text[start..end]` without its trailing whitespace. */
  function TrimEnd(text: string, start: nat, end: nat): (r: nat)
    requires start <= end <= |text|
    ensures start <= r <= end && (forall k :: r <= k < end ==> IsSpace(text[k]))
    ensures r > start ==> !IsSpace(text[r - 1])
  {
    if end > start && IsSpace(text[end - 1]) then TrimEnd(text, start, end - 1) else end
  }

  // ----- Where to cut --------------------------------------------------------------------

  /** The part of a line a call may use: `start` to `end`, aiming for `target`, at most to `hard`. */
  datatype Window = Window(start: nat, end: nat, target: nat, hard: nat)

  function WindowAt(text: string, start: nat, target: int, hard: int): (w: Window)
    requires start <= |text|
    ensures w.start <= w.target <= w.end && w.start <= w.hard <= w.end <= |text|
  {
    var end := LineEnd(text, start);
    Window(start, end, Min(end, start + Max(1, target)), Min(end, start + Max(1, hard)))
  }

  predicate LongEnough(p: int, start: int, first: bool) {
    first ==> p - start >= MIN_STARTUP_CHUNK_CHARACTERS
  }

  function KeepLong(positions: seq<int>, start: int, first: bool): seq<int> {
    if positions == [] then []
    else
      var last := positions[|positions| - 1];
      KeepLong(positions[..|positions| - 1], start, first) + (if LongEnough(last, start, first) then [last] else [])
  }

  function Distance(p: int, target: int): nat { if p < target then target - p else p - target }

  /** The first of the positions closest to the target. */
  function Nearest(positions: seq<int>, target: int): int
    requires positions != []
  {
    var last := positions[|positions| - 1];
    if |positions| == 1 then last
    else
      var best := Nearest(positions[..|positions| - 1], target);
      if Distance(last, target) < Distance(best, target) then last else best
  }

  /** A run of whitespace inside `text[..limit]` ends at `p`. */
  predicate SpaceEndsAt(text: string, p: int, limit: nat) {
    && 0 < p <= limit <= |text| && IsSpace(text[p - 1])
    && (p == limit || !IsSpace(text[p]))
  }

  function SpaceEnds(text: string, start: nat, upto: nat, limit: nat): seq<int> {
    if upto <= start then []
    else SpaceEnds(text, start, upto - 1, limit) + (if SpaceEndsAt(text, upto, limit) then [upto] else [])
  }

  /** The first position that reaches the target, else the last one. */
  function FirstFrom(positions: seq<int>, target: int): int
    requires positions != []
  {
    if |positions| == 1 || positions[0] >= target then positions[0] else FirstFrom(positions[1..], target)
  }

  function WhitespaceBoundary(text: string, w: Window): int {
    var ends := SpaceEnds(text, w.start, w.hard, w.hard);
    if ends == [] then w.hard else FirstFrom(ends, w.target)
  }

  function Cut(text: string, map_: PunctuationMap, w: Window, first: bool): int {
    if !first && w.end <= w.target then w.end
    else
      var candidates := KeepLong(PositionsBetween(map_.boundaries, w.start, w.hard), w.start, first);
      if candidates != [] then Nearest(candidates, w.target)
      else if w.end <= w.hard then w.end
      else WhitespaceBoundary(text, w)
  }

  function Split(text: string, map_: PunctuationMap, w: Window, first: bool): int {
    Max(w.start + 1, Min(Cut(text, map_, w, first), w.hard))
  }

  function Spoken(text: string, map_: PunctuationMap, w: Window, end: nat): Segment
    requires w.start <= end <= |text|
  {
    Segment(text[w.start..end], w.start, end == w.end || end in map_.sentenceBoundaries)
  }

  function Next(text: string, map_: PunctuationMap, cursor: nat, first: bool, target: int, hard: int): (r: Outcome)
    requires cursor <= |text|
    ensures r.cursor <= |text|
    ensures r.segment.None? ==> r.cursor == |text|
    ensures cursor < |text| ==> r.cursor > cursor
    decreases |text| - cursor
  {
    var start := SkipPrefix(text, cursor);
    if start >= |text| then Outcome(None, start, first)
    else
      var w := WindowAt(text, start, target, hard);
      var split := Split(text, map_, w, first);
      var end := TrimEnd(text, start, split);
      if end == start then Next(text, map_, split, first, target, hard)
      else Outcome(Some(Spoken(text, map_, w, end)), split, false)
  }

  // ----- What a chunk looks like ---------------------------------------------------------

  /** Whitespace, or the sign of a bullet prefix. */
  predicate Droppable(text: string, k: nat)
    requires k < |text|
  {
    IsSpace(text[k]) || BulletAt(text, k)
  }

  ghost predicate Dropped(text: string, from: nat, to: nat) {
    && from <= to <= |text|
    && forall k :: from <= k < to ==> Droppable(text, k)
  }

  /** Only whitespace. */
  ghost predicate Blank(text: string, from: nat, to: nat) {
    from <= to <= |text| && forall k :: from <= k < to ==> IsSpace(text[k])
  }

  /**
   * What may be left out before a chunk: whitespace, then a bullet prefix, and behind it nothing
   * more unless whitespace follows, and then the same again. A second prefix directly behind the
   * first is spoken.
   */
  ghost predicate Gap(text: string, from: nat, to: nat)
    decreases to - from
  {
    && from <= to <= |text|
    && (|| Blank(text, from, to)
        || var j := SkipSpaces(text, from);
           && BulletAt(text, j) && j + 2 <= to
           && (j + 2 < to ==> IsSpace(text[j + 2]) && Gap(text, j + 2, to)))
  }

  /** A trimmed, unbroken slice of the text. */
  ghost predicate IsChunk(text: string, s: Segment) {
    && s.text != [] && s.offset + |s.text| <= |text|
    && s.text == text[s.offset..s.offset + |s.text|]
    && '\n' !in s.text && !IsSpace(s.text[|s.text| - 1])
  }

  lemma PrefixIsGap(text: string, i: nat)
    requires i <= |text|
    ensures Gap(text, i, SkipPrefix(text, i))
  {
  }

  lemma {:induction false} SkipSpacesFrom(text: string, from: nat, mid: nat)
    requires Blank(text, from, mid)
    ensures SkipSpaces(text, from) == SkipSpaces(text, mid)
    decreases mid - from
  {
    if from < mid { SkipSpacesFrom(text, from + 1, mid); }
  }

  lemma BlankThenGap(text: string, from: nat, mid: nat, to: nat)
    requires Blank(text, from, mid) && Gap(text, mid, to)
    ensures Gap(text, from, to)
  {
    SkipSpacesFrom(text, from, mid);
    assert Blank(text, mid, to) ==> Blank(text, from, to);
  }

  /** A gap that goes on with whitespace. */
  lemma {:induction false} GapThenGap(text: string, from: nat, mid: nat, to: nat)
    requires Gap(text, from, mid) && mid < to && Gap(text, mid, to) && IsSpace(text[mid])
    ensures Gap(text, from, to)
    decreases mid - from
  {
    if Blank(text, from, mid) {
      BlankThenGap(text, from, mid, to);
    } else {
      var next := SkipSpaces(text, from) + 2;
      if next < mid { GapThenGap(text, next, mid, to); }
    }
  }

  lemma {:induction false} GapIsDropped(text: string, from: nat, to: nat)
    requires Gap(text, from, to)
    ensures Dropped(text, from, to)
    decreases |text| - from
  {
    if !Blank(text, from, to) {
      var j := SkipSpaces(text, from);
      assert IsSpace(text[j + 1]) by { assert IsSpace(BULLET[1]); }
      if j + 2 < to { GapIsDropped(text, j + 2, to); }
    }
  }

  /** What a call returns is a bounded chunk, with a gap before it and whitespace behind it. */
  ghost predicate Lossless(text: string, cursor: nat, hard: int, s: Segment, after: nat) {
    && IsChunk(text, s) && |s.text| <= Max(1, hard)
    && Gap(text, cursor, s.offset) && Blank(text, s.offset + |s.text|, after)
  }

  lemma SpokenIsLossless(text: string, map_: PunctuationMap, cursor: nat, w: Window, split: nat, hard: int)
    requires cursor <= |text| && w.start == SkipPrefix(text, cursor) && w.start < split <= |text|
    requires w.hard <= w.end <= |text| && w.hard <= w.start + Max(1, hard) && w.end == LineEnd(text, w.start)
    requires split <= Max(w.start + 1, w.hard) && TrimEnd(text, w.start, split) > w.start
    ensures Lossless(text, cursor, hard, Spoken(text, map_, w, TrimEnd(text, w.start, split)), split)
  {
    PrefixIsGap(text, cursor);
    OneLine(text, w, split, TrimEnd(text, w.start, split));
  }

  /** One call: what it takes is a bounded chunk, what it leaves out is a gap. */
  lemma {:induction false} NextChunkIsLossless(text: string, map_: PunctuationMap, cursor: nat, first: bool, target: int, hard: int)
    requires cursor <= |text|
    ensures var r := Next(text, map_, cursor, first, target, hard);
      match r.segment
      case None => Gap(text, cursor, r.cursor) && r.first == first
      case Some(s) => Lossless(text, cursor, hard, s, r.cursor) && !r.first
    decreases |text| - cursor
  {
    PrefixIsGap(text, cursor);
    var start := SkipPrefix(text, cursor);
    if start < |text| {
      var w := WindowAt(text, start, target, hard);
      var split := Split(text, map_, w, first);
      if TrimEnd(text, start, split) == start {
        NextChunkIsLossless(text, map_, split, first, target, hard);
        var r := Next(text, map_, split, first, target, hard);
        BlankWindow(text, cursor, start, split, if r.segment.Some? then r.segment.value.offset else r.cursor);
      } else {
        SpokenIsLossless(text, map_, cursor, w, split, hard);
      }
    }
  }

  lemma BlankWindow(text: string, cursor: nat, start: nat, split: nat, to: nat)
    requires Gap(text, cursor, start) && start < split && Blank(text, start, split) && Gap(text, split, to)
    ensures Gap(text, cursor, to)
  {
    BlankThenGap(text, start, split, to);
    GapThenGap(text, cursor, start, to);
  }

  /** A chunk may start here: not at whitespace or a bullet prefix, unless one was left out just before. */
  predicate StartsWell(text: string, cursor: nat, at: nat) {
    && at < |text|
    && (IsSpace(text[at]) || BulletAt(text, at) ==> at >= cursor + 2 && BulletAt(text, at - 2))
  }

  lemma SkippedStartsWell(text: string, cursor: nat)
    requires cursor <= |text| && SkipPrefix(text, cursor) < |text|
    ensures StartsWell(text, cursor, SkipPrefix(text, cursor))
  {
  }

  lemma {:induction false} ChunkStartsWell(text: string, map_: PunctuationMap, cursor: nat, first: bool, target: int, hard: int)
    requires cursor <= |text|
    ensures var r := Next(text, map_, cursor, first, target, hard);
      r.segment.Some? ==> StartsWell(text, cursor, r.segment.value.offset)
    decreases |text| - cursor
  {
    var start := SkipPrefix(text, cursor);
    if start < |text| {
      SkippedStartsWell(text, cursor);
      var split := Split(text, map_, WindowAt(text, start, target, hard), first);
      if TrimEnd(text, start, split) == start {
        ChunkStartsWell(text, map_, split, first, target, hard);
        LaterStartsWell(text, cursor, split);
      }
    }
  }

  lemma LaterStartsWell(text: string, cursor: nat, later: nat)
    requires cursor <= later
    ensures forall at: nat :: StartsWell(text, later, at) ==> StartsWell(text, cursor, at)
  {
  }

  lemma OneLine(text: string, w: Window, split: nat, end: nat)
    requires w.start < end <= split <= |text| && w.hard <= w.end <= |text| && split <= Max(w.start + 1, w.hard)
    requires w.end == LineEnd(text, w.start) && !IsSpace(text[end - 1])
    ensures '\n' !in text[w.start..end]
  {
    assert IsSpace('\n');
    assert w.end > w.start;
  }

  // ----- Any sequence of calls -----------------------------------------------------------

  datatype Call = Call(target: int, hard: int)

  datatype Chunking = Chunking(segments: seq<Segment>, cursor: nat, first: bool)

  function Continue(text: string, map_: PunctuationMap, c: Chunking, call: Call): (r: Chunking)
    requires c.cursor <= |text|
    ensures r.cursor <= |text|
  {
    var o := Next(text, map_, c.cursor, c.first, call.target, call.hard);
    Chunking(c.segments + (if o.segment.Some? then [o.segment.value] else []), o.cursor, o.first)
  }

  function Chunks(text: string, map_: PunctuationMap, calls: seq<Call>): (r: Chunking)
    ensures r.cursor <= |text|
  {
    if calls == [] then Chunking([], 0, true)
    else Continue(text, map_, Chunks(text, map_, calls[..|calls| - 1]), calls[|calls| - 1])
  }

  /** Disjoint chunks in the order of the text, with only gaps before, between and behind them. */
  ghost predicate Tiles(text: string, segments: seq<Segment>, to: nat) {
    if segments == [] then Gap(text, 0, to)
    else
      var s := segments[|segments| - 1];
      && IsChunk(text, s) && Gap(text, s.offset + |s.text|, to)
      && Tiles(text, segments[..|segments| - 1], s.offset)
  }

  function EndOf(segments: seq<Segment>): nat {
    if segments == [] then 0 else segments[|segments| - 1].offset + |segments[|segments| - 1].text|
  }

  /** The cursor is at the end, or only whitespace lies between the last chunk and it. */
  ghost predicate Follows(text: string, segments: seq<Segment>, cursor: nat) {
    cursor == |text| || Blank(text, EndOf(segments), cursor)
  }

  lemma TilesExtend(text: string, segments: seq<Segment>, from: nat, to: nat)
    requires Tiles(text, segments, from) && Blank(text, EndOf(segments), from) && Gap(text, from, to)
    ensures Tiles(text, segments, to)
  {
    BlankThenGap(text, EndOf(segments), from, to);
  }

  /** What a call adds to the chunks so far. */
  ghost predicate Extends(text: string, c: Chunking, d: Chunking, hard: int) {
    || (d.segments == c.segments && Gap(text, c.cursor, d.cursor) && d.cursor == |text|)
    || (&& |d.segments| == |c.segments| + 1 && d.segments[..|c.segments|] == c.segments
        && var s := d.segments[|c.segments|];
           Lossless(text, c.cursor, hard, s, d.cursor))
  }

  lemma ContinueExtends(text: string, map_: PunctuationMap, c: Chunking, call: Call)
    requires c.cursor <= |text|
    ensures var d := Continue(text, map_, c, call);
      Extends(text, c, d, call.hard) && (c.cursor < |text| ==> d.cursor > c.cursor)
      && (c.cursor == |text| ==> d.segments == c.segments)
  {
    NextChunkIsLossless(text, map_, c.cursor, c.first, call.target, call.hard);
    if c.cursor == |text| { ExhaustedStays(text, map_, c.first, call.target, call.hard); }
  }

  lemma ExtendingTiles(text: string, c: Chunking, d: Chunking, hard: int)
    requires Tiles(text, c.segments, c.cursor) && Follows(text, c.segments, c.cursor) && Extends(text, c, d, hard)
    requires c.cursor == |text| ==> d.segments == c.segments
    ensures Tiles(text, d.segments, d.cursor) && Follows(text, d.segments, d.cursor)
  {
    if d.segments == c.segments {
      TilesToTheEnd(text, c.segments, c.cursor);
    } else {
      LastIsAdded(text, c, d, hard);
      TilesAdd(text, c.segments, c.cursor, d.segments[|c.segments|], d.cursor, hard);
    }
  }

  lemma LastIsAdded(text: string, c: Chunking, d: Chunking, hard: int)
    requires Extends(text, c, d, hard) && d.segments != c.segments
    ensures |d.segments| > |c.segments| && d.segments == c.segments + [d.segments[|c.segments|]]
    ensures Lossless(text, c.cursor, hard, d.segments[|c.segments|], d.cursor)
  {
  }

  lemma TilesToTheEnd(text: string, segments: seq<Segment>, cursor: nat)
    requires Tiles(text, segments, cursor) && Follows(text, segments, cursor) && Gap(text, cursor, |text|)
    ensures Tiles(text, segments, |text|)
  {
    if cursor < |text| { TilesExtend(text, segments, cursor, |text|); }
  }

  lemma TilesAdd(text: string, segments: seq<Segment>, cursor: nat, s: Segment, after: nat, hard: int)
    requires Tiles(text, segments, cursor) && Blank(text, EndOf(segments), cursor)
    requires Lossless(text, cursor, hard, s, after)
    ensures Tiles(text, segments + [s], after) && Follows(text, segments + [s], after)
  {
    TilesExtend(text, segments, cursor, s.offset);
    ChunkAfterTiles(text, segments, s, after);
  }

  lemma ChunkAfterTiles(text: string, segments: seq<Segment>, s: Segment, after: nat)
    requires Tiles(text, segments, s.offset) && IsChunk(text, s) && Blank(text, s.offset + |s.text|, after)
    ensures Tiles(text, segments + [s], after) && Follows(text, segments + [s], after)
  {
    var all := segments + [s];
    assert all[..|all| - 1] == segments && all[|all| - 1] == s;
  }

  /** The chunker loses nothing, whatever sizes it is asked for. */
  lemma {:induction false} ChunksTile(text: string, map_: PunctuationMap, calls: seq<Call>)
    ensures var r := Chunks(text, map_, calls);
      Tiles(text, r.segments, r.cursor) && Follows(text, r.segments, r.cursor)
  {
    if calls != [] {
      var before, call := Chunks(text, map_, calls[..|calls| - 1]), calls[|calls| - 1];
      ChunksTile(text, map_, calls[..|calls| - 1]);
      ContinueExtends(text, map_, before, call);
      ExtendingTiles(text, before, Continue(text, map_, before, call), call.hard);
    }
  }

  ghost predicate Bounded(segments: seq<Segment>, calls: seq<Call>) {
    && |segments| <= |calls|
    && forall i :: 0 <= i < |segments| ==> |segments[i].text| <= Max(1, calls[i].hard)
  }

  /**
   * Chunk number i comes from call number i and obeys its limit; a call returns nothing only
   * when the text is exhausted, and after as many calls as there are characters it is.
   */
  lemma {:induction false} ChunksAreBoundedAndEnd(text: string, map_: PunctuationMap, calls: seq<Call>)
    ensures var r := Chunks(text, map_, calls);
      && Bounded(r.segments, calls) && r.cursor >= Min(|text|, |calls|)
      && (|r.segments| < |calls| ==> r.cursor == |text|)
  {
    if calls != [] {
      var before, call := Chunks(text, map_, calls[..|calls| - 1]), calls[|calls| - 1];
      ChunksAreBoundedAndEnd(text, map_, calls[..|calls| - 1]);
      ContinueExtends(text, map_, before, call);
      ExtendingIsBounded(text, before, Continue(text, map_, before, call), calls);
    }
  }

  lemma ExtendingIsBounded(text: string, c: Chunking, d: Chunking, calls: seq<Call>)
    requires |calls| > 0 && Bounded(c.segments, calls[..|calls| - 1])
    requires |c.segments| < |calls| - 1 ==> d.segments == c.segments
    requires Extends(text, c, d, calls[|calls| - 1].hard)
    ensures Bounded(d.segments, calls)
  {
    if |d.segments| > |c.segments| {
      assert forall i :: 0 <= i < |c.segments| ==> d.segments[i] == d.segments[..|c.segments|][i];
    }
  }

  lemma ExhaustedStays(text: string, map_: PunctuationMap, first: bool, target: int, hard: int)
    ensures Next(text, map_, |text|, first, target, hard) == Outcome(None, |text|, first)
  {
  }

  /** The characters of `text[from..to]` that are not droppable, in order. */
  function Essential(text: string, from: nat, to: nat): string
    requires from <= to <= |text|
  {
    if from == to then []
    else Essential(text, from, to - 1) + (if Droppable(text, to - 1) then [] else [text[to - 1]])
  }

  lemma {:induction false} EssentialSplits(text: string, from: nat, mid: nat, to: nat)
    requires from <= mid <= to <= |text|
    ensures Essential(text, from, to) == Essential(text, from, mid) + Essential(text, mid, to)
  {
    if mid < to { EssentialSplits(text, from, mid, to - 1); }
  }

  lemma {:induction false} DroppedHasNone(text: string, from: nat, to: nat)
    requires Dropped(text, from, to)
    ensures Essential(text, from, to) == []
  {
    if from < to { DroppedHasNone(text, from, to - 1); }
  }

  /** The essential characters of the chunks, one chunk after the other. */
  function EssentialOf(text: string, segments: seq<Segment>): string {
    if segments == [] then []
    else
      var s := segments[|segments| - 1];
      EssentialOf(text, segments[..|segments| - 1])
      + (if s.offset + |s.text| <= |text| then Essential(text, s.offset, s.offset + |s.text|) else [])
  }

  lemma {:induction false} TilesKeepEssentials(text: string, segments: seq<Segment>, to: nat)
    requires Tiles(text, segments, to) && to <= |text|
    ensures EssentialOf(text, segments) == Essential(text, 0, to)
  {
    if segments == [] {
      GapIsDropped(text, 0, to);
      DroppedHasNone(text, 0, to);
    } else {
      var s := segments[|segments| - 1];
      LastTile(text, segments, to);
      TilesKeepEssentials(text, segments[..|segments| - 1], s.offset);
      EssentialOfLast(text, segments);
      ChunkThenGap(text, s.offset, s.offset + |s.text|, to);
    }
  }

  lemma EssentialOfLast(text: string, segments: seq<Segment>)
    requires segments != [] && segments[|segments| - 1].offset + |segments[|segments| - 1].text| <= |text|
    ensures var s := segments[|segments| - 1];
      EssentialOf(text, segments)
      == EssentialOf(text, segments[..|segments| - 1]) + Essential(text, s.offset, s.offset + |s.text|)
  {
  }

  lemma LastTile(text: string, segments: seq<Segment>, to: nat)
    requires Tiles(text, segments, to) && segments != []
    ensures var s := segments[|segments| - 1];
      s.offset + |s.text| <= |text| && Gap(text, s.offset + |s.text|, to)
      && Tiles(text, segments[..|segments| - 1], s.offset)
  {
  }

  lemma ChunkThenGap(text: string, start: nat, end: nat, to: nat)
    requires start <= end && Gap(text, end, to)
    ensures Essential(text, 0, to) == Essential(text, 0, start) + Essential(text, start, end)
  {
    EssentialSplits(text, 0, start, end);
    EssentialSplits(text, 0, end, to);
    GapIsDropped(text, end, to);
    DroppedHasNone(text, end, to);
  }

  /** Once a call has returned nothing, every essential character was spoken once, in order. */
  lemma NothingIsLost(text: string, map_: PunctuationMap, calls: seq<Call>)
    ensures var r := Chunks(text, map_, calls);
      |r.segments| < |calls| ==> EssentialOf(text, r.segments) == Essential(text, 0, |text|)
  {
    var r := Chunks(text, map_, calls);
    ChunksTile(text, map_, calls);
    ChunksAreBoundedAndEnd(text, map_, calls);
    TilesKeepEssentials(text, r.segments, r.cursor);
  }

  // ----- Where a chunk ends --------------------------------------------------------------

  /** A punctuation boundary the call may cut at. */
  predicate Allowed(text: string, w: Window, first: bool, p: int) {
    IsBoundary(text, p) && w.start < p <= w.hard && (first ==> p - w.start >= 50)
  }

  /** `c` comes before `d` in the order of preference: closer to the target, then earlier. */
  predicate Preferred(c: int, d: int, target: int) {
    var near, far := if c < target then target - c else c - target, if d < target then target - d else d - target;
    near < far || (near == far && c <= d)
  }

  ghost predicate BestBoundary(text: string, w: Window, first: bool, c: int) {
    Allowed(text, w, first, c) && forall p :: Allowed(text, w, first, p) ==> Preferred(c, p, w.target)
  }

  /** Whitespace that ends in the window and where a cut may fall back to. */
  predicate SpaceCut(text: string, w: Window, p: int) { w.start < p && SpaceEndsAt(text, p, w.hard) }

  /** The first whitespace that reaches the target, or the last one if none does. */
  ghost predicate BestSpace(text: string, w: Window, c: int) {
    && SpaceCut(text, w, c)
    && forall p :: SpaceCut(text, w, p) ==> if c >= w.target then p < w.target || c <= p else p <= c
  }

  /** The rule for cutting, without the index, the bisection or the lists of candidates. */
  ghost predicate WellCut(text: string, w: Window, first: bool, c: int) {
    if !first && w.end <= w.target then c == w.end
    else if exists p :: Allowed(text, w, first, p) then BestBoundary(text, w, first, c)
    else if w.end <= w.hard then c == w.end
    else if exists p :: SpaceCut(text, w, p) then BestSpace(text, w, c)
    else c == w.hard
  }

  lemma {:induction false} InKeepLong(positions: seq<int>, start: int, first: bool)
    ensures forall p :: p in KeepLong(positions, start, first) <==> p in positions && LongEnough(p, start, first)
  {
    if positions != [] {
      var front, last := positions[..|positions| - 1], positions[|positions| - 1];
      InKeepLong(front, start, first);
      assert positions == front + [last];
    }
  }

  lemma {:induction false} KeepLongKeepsOrder(positions: seq<int>, start: int, first: bool, bound: int)
    requires Increasing(positions) && AllBelow(positions, bound)
    ensures Increasing(KeepLong(positions, start, first)) && AllBelow(KeepLong(positions, start, first), bound)
  {
    if positions != [] {
      var front, last := positions[..|positions| - 1], positions[|positions| - 1];
      FrontBelowLast(positions);
      KeepLongKeepsOrder(front, start, first, last);
      AppendIncreases(KeepLong(front, start, first), last);
      BelowMore(KeepLong(front, start, first), last, bound);
      BelowMore(KeepLong(front, start, first) + [last], last + 1, bound);
    }
  }

  lemma {:induction false} NearestIsPreferred(positions: seq<int>, target: int)
    requires positions != [] && Increasing(positions)
    ensures Nearest(positions, target) in positions
    ensures forall p :: p in positions ==> Preferred(Nearest(positions, target), p, target)
  {
    var front, last := positions[..|positions| - 1], positions[|positions| - 1];
    assert positions == front + [last];
    if front != [] {
      FrontBelowLast(positions);
      NearestIsPreferred(front, target);
      MemberBelow(front, last, Nearest(front, target));
    }
  }

  lemma {:induction false} InSpaceEnds(text: string, start: nat, upto: nat, limit: nat)
    ensures forall p :: p in SpaceEnds(text, start, upto, limit) <==> start < p <= upto && SpaceEndsAt(text, p, limit)
  {
    if upto > start { InSpaceEnds(text, start, upto - 1, limit); }
  }

  lemma {:induction false} SpaceEndsIncrease(text: string, start: nat, upto: nat, limit: nat)
    ensures var r := SpaceEnds(text, start, upto, limit); Increasing(r) && AllBelow(r, upto + 1)
  {
    if upto > start {
      SpaceEndsIncrease(text, start, upto - 1, limit);
      AppendIncreases(SpaceEnds(text, start, upto - 1, limit), upto);
      BelowMore(SpaceEnds(text, start, upto - 1, limit), upto, upto + 1);
    }
  }

  lemma {:induction false} FirstFromIsBest(positions: seq<int>, target: int)
    requires positions != [] && Increasing(positions)
    ensures var c := FirstFrom(positions, target);
      && c in positions
      && forall p :: p in positions ==> if c >= target then p < target || c <= p else p <= c
  {
    var rest := positions[1..];
    assert positions == [positions[0]] + rest;
    assert forall p :: p in rest ==> positions[0] < p;
    if |positions| > 1 && positions[0] < target { FirstFromIsBest(rest, target); }
  }

  /** The indexed choice follows the rule. */
  lemma CutIsWell(text: string, map_: PunctuationMap, w: Window, first: bool)
    requires Indexes(map_, text)
    ensures WellCut(text, w, first, Cut(text, map_, w, first))
  {
    if first || w.end > w.target {
      BoundaryCut(text, map_, w, first);
      SpacesCut(text, w);
    }
  }

  lemma BoundaryCut(text: string, map_: PunctuationMap, w: Window, first: bool)
    requires Indexes(map_, text)
    ensures var candidates := KeepLong(PositionsBetween(map_.boundaries, w.start, w.hard), w.start, first);
      if candidates == [] then !exists p :: Allowed(text, w, first, p)
      else BestBoundary(text, w, first, Nearest(candidates, w.target))
  {
    var between := PositionsBetween(map_.boundaries, w.start, w.hard);
    var candidates := KeepLong(between, w.start, first);
    BetweenIsFilter(map_.boundaries, w.start, w.hard);
    InFilter(map_.boundaries, w.start, w.hard);
    InKeepLong(between, w.start, first);
    assert forall p :: p in candidates <==> Allowed(text, w, first, p);
    if candidates != [] {
      CandidatesIncrease(map_.boundaries, w, first);
      NearestIsPreferred(candidates, w.target);
    }
  }

  lemma CandidatesIncrease(boundaries: seq<int>, w: Window, first: bool)
    requires Increasing(boundaries)
    ensures Increasing(KeepLong(Filter(boundaries, w.start, w.hard), w.start, first))
  {
    if boundaries != [] {
      var bound := boundaries[|boundaries| - 1] + 1;
      FilterKeepsOrder(boundaries, w.start, w.hard, bound);
      KeepLongKeepsOrder(Filter(boundaries, w.start, w.hard), w.start, first, bound);
    }
  }

  lemma SpacesCut(text: string, w: Window)
    ensures if exists p :: SpaceCut(text, w, p) then BestSpace(text, w, WhitespaceBoundary(text, w))
            else WhitespaceBoundary(text, w) == w.hard
  {
    var ends := SpaceEnds(text, w.start, w.hard, w.hard);
    InSpaceEnds(text, w.start, w.hard, w.hard);
    SpaceEndsIncrease(text, w.start, w.hard, w.hard);
    assert forall p :: p in ends <==> SpaceCut(text, w, p);
    if ends != [] {
      assert ends[0] in ends;
      FirstFromIsBest(ends, w.target);
    }
  }

  /** The rule leaves no choice. */
  lemma WellCutIsUnique(text: string, w: Window, first: bool, c: int, d: int)
    requires WellCut(text, w, first, c) && WellCut(text, w, first, d)
    ensures c == d
  {
    if (first || w.end > w.target) && exists p :: Allowed(text, w, first, p) {
      assert Preferred(c, d, w.target) && Preferred(d, c, w.target);
    }
  }

  /** `end` is where the chunk that starts at `w.start` must end. */
  ghost predicate EndsWell(text: string, w: Window, first: bool, end: nat) {
    && w.start < |text| && w.hard <= |text|
    && exists c :: WellCut(text, w, first, c) && end == TrimEnd(text, w.start, Max(w.start + 1, Min(c, w.hard)))
  }

  ghost predicate PausesWell(text: string, s: Segment, lineEnd: nat) {
    s.pauseAfter <==> s.offset + |s.text| == lineEnd || IsSentenceBoundary(text, s.offset + |s.text|)
  }

  ghost predicate IsWellChosen(text: string, s: Segment, first: bool, target: int, hard: int) {
    && s.offset <= |text|
    && var w := WindowAt(text, s.offset, target, hard);
    && EndsWell(text, w, first, s.offset + |s.text|) && PausesWell(text, s, w.end)
  }

  lemma CutEndsWell(text: string, map_: PunctuationMap, w: Window, first: bool)
    requires Indexes(map_, text) && w.start < |text| && w.start <= w.hard <= |text|
    ensures EndsWell(text, w, first, TrimEnd(text, w.start, Split(text, map_, w, first)))
  {
    CutIsWell(text, map_, w, first);
  }

  lemma SpokenIsWell(text: string, map_: PunctuationMap, w: Window, first: bool, end: nat, target: int, hard: int)
    requires w.start <= |text| && w == WindowAt(text, w.start, target, hard)
    requires w.start <= end <= |text| && Indexes(map_, text) && EndsWell(text, w, first, end)
    ensures IsWellChosen(text, Spoken(text, map_, w, end), first, target, hard)
  {
    var s := Spoken(text, map_, w, end);
    assert s.offset + |s.text| == end;
  }

  /** Every chunk ends where the rule says, and asks for a pause exactly at line and sentence ends. */
  lemma {:induction false} ChunkEndsWell(text: string, map_: PunctuationMap, cursor: nat, first: bool, target: int, hard: int)
    requires cursor <= |text| && Indexes(map_, text)
    ensures var r := Next(text, map_, cursor, first, target, hard);
      r.segment.Some? ==> IsWellChosen(text, r.segment.value, first, target, hard)
    decreases |text| - cursor
  {
    var start := SkipPrefix(text, cursor);
    if start < |text| {
      var w := WindowAt(text, start, target, hard);
      var split := Split(text, map_, w, first);
      var end := TrimEnd(text, start, split);
      if end == start {
        ChunkEndsWell(text, map_, split, first, target, hard);
      } else {
        CutEndsWell(text, map_, w, first);
        SpokenIsWell(text, map_, w, first, end, target, hard);
      }
    }
  }

  /** A call leaves the cursor at the cut, with the whitespace before it. */
  ghost predicate LeftAtCut(text: string, w: Window, first: bool, cursor: nat) {
    exists c :: WellCut(text, w, first, c) && cursor == Max(w.start + 1, Min(c, w.hard))
  }

  lemma {:induction false} CursorIsAtCut(text: string, map_: PunctuationMap, cursor: nat, first: bool, target: int, hard: int)
    requires cursor <= |text| && Indexes(map_, text)
    ensures var r := Next(text, map_, cursor, first, target, hard);
      r.segment.Some? ==>
        && r.segment.value.offset <= |text| && !r.first
        && LeftAtCut(text, WindowAt(text, r.segment.value.offset, target, hard), first, r.cursor)
    decreases |text| - cursor
  {
    var start := SkipPrefix(text, cursor);
    if start < |text| {
      var w := WindowAt(text, start, target, hard);
      var split := Split(text, map_, w, first);
      if TrimEnd(text, start, split) == start {
        CursorIsAtCut(text, map_, split, first, target, hard);
      } else {
        SplitIsCut(text, map_, w, first);
      }
    }
  }

  lemma SplitIsCut(text: string, map_: PunctuationMap, w: Window, first: bool)
    requires Indexes(map_, text)
    ensures LeftAtCut(text, w, first, Split(text, map_, w, first))
  {
    CutIsWell(text, map_, w, first);
  }

  /** The end of a chunk that may not take its whole line, if its window allows a boundary. */
  ghost predicate EndsAtBest(text: string, w: Window, first: bool, end: nat) {
    ((first || w.end > w.target) && exists p :: Allowed(text, w, first, p)) ==> BestBoundary(text, w, first, end)
  }

  /** A chunk cut at punctuation ends exactly there: at the allowed boundary nearest the target. */
  lemma EndsAtBestBoundary(text: string, w: Window, first: bool, end: nat)
    requires EndsWell(text, w, first, end)
    ensures EndsAtBest(text, w, first, end)
  {
    if (first || w.end > w.target) && exists p :: Allowed(text, w, first, p) {
      var c :| WellCut(text, w, first, c) && end == TrimEnd(text, w.start, Max(w.start + 1, Min(c, w.hard)));
      BoundaryIsKept(text, w, first, c);
    }
  }

  /** Neither the limits nor the trimming move a cut at punctuation. */
  lemma BoundaryIsKept(text: string, w: Window, first: bool, c: int)
    requires w.start < |text| && w.hard <= |text| && Allowed(text, w, first, c)
    ensures Max(w.start + 1, Min(c, w.hard)) == c && TrimEnd(text, w.start, c) == c
  {
    assert IsMark(text[c - 1]) || IsCloser(text[c - 1]);
  }

  /** Either the chunk takes the rest of its line, or it ends at the best boundary there is. */
  ghost predicate WellPlaced(text: string, s: Segment, first: bool, call: Call) {
    && s.offset <= |text|
    && EndIsPlaced(text, WindowAt(text, s.offset, call.target, call.hard), first, s.offset + |s.text|)
  }

  ghost predicate EndIsPlaced(text: string, w: Window, first: bool, end: nat)
    requires w.start <= w.end <= |text|
  {
    EndsAtBest(text, w, first, end) && (!first && w.end <= w.target ==> end == TrimEnd(text, w.start, w.end))
  }

  /** A window ends with its line; target and limit are counted from its start and stay in the line. */
  lemma WindowIsExact(text: string, start: nat, call: Call)
    requires start <= |text|
    ensures var w := WindowAt(text, start, call.target, call.hard);
      && w.start == start && w.start <= w.end == LineEnd(text, start) <= |text|
      && '\n' !in text[w.start..w.end] && (w.end < |text| ==> text[w.end] == '\n')
      && w.target == Min(w.end, start + Max(1, call.target)) && w.hard == Min(w.end, start + Max(1, call.hard))
  {
  }

  /** The chunk ends in a character that is not whitespace. */
  predicate EndsInText(text: string, s: Segment) {
    0 < |s.text| && s.offset + |s.text| <= |text| && !IsSpace(text[s.offset + |s.text| - 1])
  }

  lemma ChunkEndsInText(text: string, s: Segment)
    requires IsChunk(text, s)
    ensures EndsInText(text, s)
  {
  }

  /** The rest of the line may be taken and ends within the hard limit, or need not be taken. */
  predicate FitsLimit(text: string, w: Window, first: bool)
    requires w.start <= w.end <= |text|
  {
    first || w.end > w.target || TrimEnd(text, w.start, w.end) <= Max(w.start + 1, w.hard)
  }

  /**
   * Exactly when a chunk is well placed: a later chunk whose target reaches the end of its line
   * must have room for that line within the hard limit. Otherwise it is cut at the limit.
   */
  lemma WellPlacedExactly(text: string, s: Segment, first: bool, call: Call)
    requires IsWellChosen(text, s, first, call.target, call.hard) && EndsInText(text, s)
    ensures WellPlaced(text, s, first, call)
       <==> FitsLimit(text, WindowAt(text, s.offset, call.target, call.hard), first)
  {
    var w := WindowAt(text, s.offset, call.target, call.hard);
    WindowIsExact(text, s.offset, call);
    ChosenEndsWell(text, s, w, first, call);
    PlacedExactly(text, s, w, first);
    PlacedMeans(text, s, first, call);
  }

  lemma PlacedMeans(text: string, s: Segment, first: bool, call: Call)
    requires s.offset <= |text|
    ensures WellPlaced(text, s, first, call)
       <==> EndIsPlaced(text, WindowAt(text, s.offset, call.target, call.hard), first, s.offset + |s.text|)
  {
  }

  lemma ChosenEndsWell(text: string, s: Segment, w: Window, first: bool, call: Call)
    requires IsWellChosen(text, s, first, call.target, call.hard)
    requires w == WindowAt(text, s.offset, call.target, call.hard)
    ensures EndsWell(text, w, first, s.offset + |s.text|)
  {
  }

  lemma PlacedExactly(text: string, s: Segment, w: Window, first: bool)
    requires EndsInText(text, s) && w.start == s.offset && EndsWell(text, w, first, s.offset + |s.text|)
    requires w.start <= w.hard <= w.end && w.target <= w.end && w.end == LineEnd(text, w.start)
    ensures EndIsPlaced(text, w, first, s.offset + |s.text|) <==> FitsLimit(text, w, first)
  {
    var end := s.offset + |s.text|;
    if first || w.end > w.target {
      EndsAtBestBoundary(text, w, first, end);
      PlacedByBoundary(text, w, first, end);
    } else {
      TakesItsLine(text, w, end);
      PlacedByLine(text, w, end);
    }
  }

  lemma PlacedByBoundary(text: string, w: Window, first: bool, end: nat)
    requires w.start <= w.end <= |text| && (first || w.end > w.target) && EndsAtBest(text, w, first, end)
    ensures EndIsPlaced(text, w, first, end) && FitsLimit(text, w, first)
  {
  }

  lemma PlacedByLine(text: string, w: Window, end: nat)
    requires w.start <= w.end <= |text| && w.end <= w.target
    requires end == TrimEnd(text, w.start, w.end) <==> TrimEnd(text, w.start, w.end) <= Max(w.start + 1, w.hard)
    ensures EndIsPlaced(text, w, false, end) <==> FitsLimit(text, w, false)
  {
  }

  /** The chunk that may take its line takes it exactly when the line ends within the limit. */
  lemma TakesItsLine(text: string, w: Window, end: nat)
    requires EndsWell(text, w, false, end) && w.start < end && !IsSpace(text[end - 1])
    requires w.start <= w.hard <= w.end <= w.target && w.end == LineEnd(text, w.start)
    ensures end == TrimEnd(text, w.start, w.end) <==> TrimEnd(text, w.start, w.end) <= Max(w.start + 1, w.hard)
  {
    assert IsSpace('\n');
    assert w.end > w.start;
    TrimmedWithin(text, w.start, Max(w.start + 1, w.hard), w.end);
  }

  /** Trimming less text ends at the same place exactly if that place is not beyond it. */
  lemma {:induction false} TrimmedWithin(text: string, start: nat, mid: nat, end: nat)
    requires start <= mid <= end <= |text|
    ensures TrimEnd(text, start, mid) == TrimEnd(text, start, end) <==> TrimEnd(text, start, end) <= mid
  {
    if mid < end && IsSpace(text[end - 1]) { TrimmedWithin(text, start, mid, end - 1); }
  }

  /** A target within the limit is enough. */
  lemma PunctuationRules(text: string, s: Segment, first: bool, call: Call)
    requires IsWellChosen(text, s, first, call.target, call.hard) && EndsInText(text, s)
    requires Max(1, call.target) <= Max(1, call.hard)
    ensures WellPlaced(text, s, first, call)
  {
    WellPlacedExactly(text, s, first, call);
  }

  // ----- A target beyond the limit -------------------------------------------------------

  /** A text of two lines, and two calls: the second aims at the line's end, beyond its limit. */
  const TWO_LINES: string := "q\na. bc"

  const BEYOND: seq<Call> := [Call(100, 200), Call(5, 4)]

  /** The first call takes the first line, whatever boundaries lie further on. */
  lemma FirstLineTaken(map_: PunctuationMap)
    requires Indexes(map_, TWO_LINES)
    ensures var o := Next(TWO_LINES, map_, 0, true, 100, 200);
      o.segment.Some? && o.segment.value.text == "q" && o.segment.value.offset == 0 && o.cursor == 1 && !o.first
  {
    var text := TWO_LINES;
    assert |text| == 7 && text[0] == 'q' && text[1] == '\n';
    assert SkipPrefix(text, 0) == 0;
    assert LineEnd(text, 0) == 1;
    var w := WindowAt(text, 0, 100, 200);
    assert w == Window(0, 1, 1, 1);
    NoStartupBoundary(text, map_, w);
    assert Cut(text, map_, w, true) == 1;
    assert TrimEnd(text, 0, 1) == 1;
  }

  /** A window shorter than a startup chunk has no boundary for the first chunk. */
  lemma NoStartupBoundary(text: string, map_: PunctuationMap, w: Window)
    requires Indexes(map_, text) && w.hard < w.start + MIN_STARTUP_CHUNK_CHARACTERS
    ensures KeepLong(PositionsBetween(map_.boundaries, w.start, w.hard), w.start, true) == []
  {
    var between := PositionsBetween(map_.boundaries, w.start, w.hard);
    BetweenIsFilter(map_.boundaries, w.start, w.hard);
    InFilter(map_.boundaries, w.start, w.hard);
    InKeepLong(between, w.start, true);
    var kept := KeepLong(between, w.start, true);
    assert kept != [] ==> kept[0] in kept;
    assert forall p :: p in kept ==> p in between && p <= w.hard && LongEnough(p, w.start, true);
    assert forall p :: p !in kept;
  }

  /** The second call ends inside a word. */
  lemma SecondLineSplit(map_: PunctuationMap)
    ensures var o := Next(TWO_LINES, map_, 1, false, 5, 4);
      o.segment.Some? && o.segment.value.text == "a. b" && o.segment.value.offset == 2
  {
    var text := TWO_LINES;
    assert |text| == 7 && text[1] == '\n' && text[2] == 'a' && text[5] == 'b';
    assert SkipSpaces(text, 2) == 2;
    assert SkipSpaces(text, 1) == 2;
    assert !BulletAt(text, 2);
    assert SkipPrefix(text, 1) == 2;
    var w := WindowAt(text, 2, 5, 4);
    assert w == Window(2, 7, 7, 6);
    assert TrimEnd(text, 2, 6) == 6;
    assert text[2..6] == "a. b";
  }

  lemma BothChunks(map_: PunctuationMap)
    requires Indexes(map_, TWO_LINES)
    ensures var segments := Chunks(TWO_LINES, map_, BEYOND).segments;
      |segments| == 2 && segments[1].text == "a. b" && segments[1].offset == 2
  {
    var one := [Call(100, 200)];
    FirstLineTaken(map_);
    assert one[..0] == [] && BEYOND[..1] == one;
    assert Chunks(TWO_LINES, map_, []) == Chunking([], 0, true);
    var first := Chunks(TWO_LINES, map_, one);
    assert |first.segments| == 1 && first.cursor == 1 && !first.first;
    SecondLineSplit(map_);
    assert Chunks(TWO_LINES, map_, BEYOND) == Continue(TWO_LINES, map_, first, Call(5, 4));
  }

  lemma SplitIsMisplaced(s: Segment)
    requires s.offset == 2 && |s.text| == 4
    ensures Allowed(TWO_LINES, WindowAt(TWO_LINES, 2, 5, 4), false, 4) && !WellPlaced(TWO_LINES, s, false, BEYOND[1])
  {
    var text := TWO_LINES;
    assert |text| == 7 && text[3] == '.' && text[4] == ' ' && ClosersStart(text, 4) == 4;
    assert WindowAt(text, 2, 5, 4) == Window(2, 7, 7, 6);
    assert TrimEnd(text, 2, 7) == 7;
  }

  /**
   * In a run of the chunker, a target beyond the limit ends a chunk inside a word although a
   * boundary was allowed.
   */
  lemma TargetBeyondLimit(map_: PunctuationMap)
    requires Indexes(map_, TWO_LINES)
    ensures var segments := Chunks(TWO_LINES, map_, BEYOND).segments;
      && |segments| == 2 && segments[1].text == "a. b" && segments[1].offset == 2
      && Allowed(TWO_LINES, WindowAt(TWO_LINES, 2, 5, 4), false, 4)
      && !WellPlaced(TWO_LINES, segments[1], false, BEYOND[1])
  {
    BothChunks(map_);
    SplitIsMisplaced(Chunks(TWO_LINES, map_, BEYOND).segments[1]);
  }

  // ----- The chunker object --------------------------------------------------------------

  class AdaptiveSpeechChunker {
    const text: string
    const punctuation: PunctuationMap
    var cursor: nat
    var first: bool

    ghost predicate Valid()
      reads this
    {
      cursor <= |text| && Indexes(punctuation, text)
    }

    constructor (text: string)
      ensures Valid() && this.text == text && cursor == 0 && first
    {
      var index := FromText(text);
      this.text, punctuation, cursor, first := text, index, 0, true;
    }

    method NextChunk(target: int := 100, hard: int := 200) returns (segment: Option<Segment>)
      requires Valid()
      modifies this
      ensures Valid()
      ensures Outcome(segment, cursor, first) == Next(text, punctuation, old(cursor), old(first), target, hard)
      decreases |text| - cursor
    {
      SkipStructurePrefix();
      if cursor >= |text| { return None; }
      var w := WindowAt(text, cursor, target, hard);
      var split := Split(text, punctuation, w, first);
      var trailingEnd := TrimEnd(text, w.start, split);
      cursor := split;
      if trailingEnd == w.start {
        segment := NextChunk(target, hard);
      } else {
        segment := Some(Spoken(text, punctuation, w, trailingEnd));
        first := false;
      }
    }

    method SkipStructurePrefix()
      requires Valid()
      modifies `cursor
      ensures Valid() && cursor == SkipPrefix(text, old(cursor))
    {
      while cursor < |text| && IsSpace(text[cursor])
        invariant cursor <= |text| && SkipSpaces(text, old(cursor)) == SkipSpaces(text, cursor)
        decreases |text| - cursor
      {
        cursor := cursor + 1;
      }
      if BulletAt(text, cursor) { cursor := cursor + |BULLET|; }
    }
  }
}
