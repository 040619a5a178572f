/**
 * The player shows a text as paragraphs, so line breaks disappear from it. The table of line
 * starts maps an offset of the spoken text to the place where the player shows that character.
 */
module HighlightMap {
  import opened AudioTypes
  import opened Utf16

  /** Where a line starts in the text, and where it starts in what is shown. */
  datatype LineStart = LineStart(backend: nat, rendered: nat)

  /** A painted range of the shown characters. */
  datatype Range = Range(start: int, length: int)

  predicate IsWhiteSpace(c: CodeUnit) {
    || 0x09 <= c <= 0x0D || c == 0x20 || c == 0x85 || c == 0xA0 || c == 0x1680
    || 0x2000 <= c <= 0x200A || c == 0x2028 || c == 0x2029 || c == 0x202F || c == 0x205F || c == 0x3000
  }

  predicate IsBlank(text: seq<CodeUnit>) { forall i :: 0 <= i < |text| ==> IsWhiteSpace(text[i]) }

  /** The shown characters: the text without its line breaks. */
  function Visible(text: seq<CodeUnit>): seq<CodeUnit> {
    if text == [] then []
    else
      var last := text[|text| - 1];
      Visible(text[..|text| - 1]) + (if last == LINE_FEED then [] else [last])
  }

  /** The next line break from `i` on, or the end of the text. */
  function LineEnd(text: seq<CodeUnit>, i: nat): (r: nat)
    requires i <= |text|
    ensures i <= r <= |text| && (forall k :: i <= k < r ==> text[k] != LINE_FEED)
    ensures r < |text| ==> text[r] == LINE_FEED
    decreases |text| - i
  {
    if i < |text| && text[i] != LINE_FEED then LineEnd(text, i + 1) else i
  }

  /** The lines from `from` on; a break at the end of the text starts an empty last line. */
  function Split(text: seq<CodeUnit>, from: nat): seq<seq<CodeUnit>>
    requires from <= |text|
    decreases |text| - from
  {
    var end := LineEnd(text, from);
    [text[from..end]] + if end < |text| then Split(text, end + 1) else []
  }

  /** How many of `text[from..to]` are shown. */
  function Shown(text: seq<CodeUnit>, from: nat, to: nat): nat
    requires from <= to <= |text|
  {
    if from == to then 0 else Shown(text, from, to - 1) + (if text[to - 1] == LINE_FEED then 0 else 1)
  }

  /** The place an offset is mapped to: behind as many characters as are shown before it. */
  function ToRendered(text: seq<CodeUnit>, position: nat): nat
    requires position <= |text|
  {
    if IsBlank(text) then position else Shown(text, 0, position)
  }

  function ShownLength(text: seq<CodeUnit>): nat { if IsBlank(text) then 0 else |Visible(text)| }

  function Highlight(text: seq<CodeUnit>, position: int, length: int): Option<Range> {
    if length <= 0 || position < 0 || position >= |text| then None
    else
      var start := ToRendered(text, position);
      var available := ShownLength(text) - start;
      if available <= 0 then None else Some(Range(start, Min(length, available)))
  }

  // ----- What the table means ------------------------------------------------------------

  lemma {:induction false} VisibleConcat(a: seq<CodeUnit>, b: seq<CodeUnit>)
    ensures Visible(a + b) == Visible(a) + Visible(b)
  {
    if b == [] {
      assert a + b == a;
    } else {
      assert (a + b)[..|a + b| - 1] == a + b[..|b| - 1];
      VisibleConcat(a, b[..|b| - 1]);
    }
  }

  lemma {:induction false} VisibleLength(text: seq<CodeUnit>)
    ensures |Visible(text)| <= |text|
    ensures |Visible(text)| == |text| <==> LINE_FEED !in text
    ensures LINE_FEED !in text ==> Visible(text) == text
  {
    if text != [] {
      VisibleLength(text[..|text| - 1]);
      assert text == text[..|text| - 1] + [text[|text| - 1]];
    }
  }

  lemma {:induction false} ShownIsVisible(text: seq<CodeUnit>, to: nat)
    requires to <= |text|
    ensures Shown(text, 0, to) == |Visible(text[..to])|
  {
    if to > 0 {
      ShownIsVisible(text, to - 1);
      assert text[..to][..to - 1] == text[..to - 1];
    }
  }

  lemma {:induction false} ShownSplits(text: seq<CodeUnit>, from: nat, mid: nat, to: nat)
    requires from <= mid <= to <= |text|
    ensures Shown(text, from, to) == Shown(text, from, mid) + Shown(text, mid, to)
  {
    if mid < to { ShownSplits(text, from, mid, to - 1); }
  }

  lemma {:induction false} ShownOnLine(text: seq<CodeUnit>, from: nat, to: nat)
    requires from <= to <= |text| && forall k :: from <= k < to ==> text[k] != LINE_FEED
    ensures Shown(text, from, to) == to - from
  {
    if from < to { ShownOnLine(text, from, to - 1); }
  }

  /** An offset is shown behind as many characters as precede it, line breaks not counted. */
  lemma ToRenderedCounts(text: seq<CodeUnit>, position: nat)
    requires !IsBlank(text) && position <= |text|
    ensures ToRendered(text, position) == |Visible(text[..position])|
  {
    ShownIsVisible(text, position);
  }

  lemma ToRenderedIsMonotone(text: seq<CodeUnit>, p: nat, q: nat)
    requires !IsBlank(text) && p <= q <= |text|
    ensures ToRendered(text, p) <= ToRendered(text, q) <= ToRendered(text, p) + (q - p)
    ensures ToRendered(text, |text|) == ShownLength(text)
  {
    ToRenderedCounts(text, p);
    ToRenderedCounts(text, q);
    ToRenderedCounts(text, |text|);
    assert text[..|text|] == text && text[..q] == text[..p] + text[p..q];
    VisibleConcat(text[..p], text[p..q]);
    VisibleLength(text[p..q]);
  }

  /** The characters a word of the text is shown as start where its offset is mapped to. */
  lemma WordIsShown(text: seq<CodeUnit>, position: nat, length: nat)
    requires !IsBlank(text) && position + length <= |text|
    ensures var word, start := Visible(text[position..position + length]), ToRendered(text, position);
      && 0 <= start && start + |word| <= |Visible(text)| && Visible(text)[start..start + |word|] == word
  {
    var front, word, back := text[..position], text[position..position + length], text[position + length..];
    assert text == front + word + back;
    VisibleConcat(front + word, back);
    VisibleConcat(front, word);
    ToRenderedCounts(text, position);
    Middle(Visible(front), Visible(word), Visible(back));
  }

  /** Whatever is asked for, nothing outside the shown characters is painted, and never nothing. */
  lemma PaintedIsInside(text: seq<CodeUnit>, position: int, length: int)
    ensures var r := Highlight(text, position, length);
      r.Some? ==> 0 <= r.value.start && 0 < r.value.length && r.value.start + r.value.length <= ShownLength(text)
  {
    if 0 <= position < |text| && !IsBlank(text) { ToRenderedCounts(text, position); }
  }

  /** Something is painted unless nothing of the text is shown from there on. */
  lemma PaintedUnlessHidden(text: seq<CodeUnit>, position: nat, length: nat)
    requires length > 0 && position + length <= |text|
    ensures Highlight(text, position, length).Some? <==> !IsBlank(text) && Visible(text[position..]) != []
  {
    if IsBlank(text) {
      assert ToRendered(text, position) == position;
    } else {
      ToRenderedCounts(text, position);
      assert text == text[..position] + text[position..];
      VisibleConcat(text[..position], text[position..]);
    }
  }

  /** The painting starts with the word, where the word is shown. */
  lemma WordIsPainted(text: seq<CodeUnit>, position: nat, length: nat)
    requires length > 0 && position + length <= |text| && Highlight(text, position, length).Some?
    ensures var r, word := Highlight(text, position, length).value, Visible(text[position..position + length]);
      && 0 <= r.start == ToRendered(text, position) && |word| <= r.length && r.start + |word| <= |Visible(text)|
      && Visible(text)[r.start..r.start + |word|] == word
  {
    PaintedUnlessHidden(text, position, length);
    WordIsShown(text, position, length);
    VisibleLength(text[position..position + length]);
  }

  /** What is shown is what precedes a word, the word and what follows it. */
  lemma ShownAround(text: seq<CodeUnit>, position: nat, length: nat)
    requires !IsBlank(text) && position + length <= |text|
    ensures |Visible(text)| == ToRendered(text, position) + |Visible(text[position..position + length])|
                               + |Visible(text[position + length..])|
  {
    var front, word, back := text[..position], text[position..position + length], text[position + length..];
    assert text == front + word + back;
    VisibleConcat(front + word, back);
    VisibleConcat(front, word);
    ToRenderedCounts(text, position);
  }

  /**
   * Exactly the word is painted when no line break lies in it; with one inside, exactly when
   * nothing is shown behind the word, since the painting is then clamped.
   */
  lemma PaintsExactlyTheWord(text: seq<CodeUnit>, position: nat, length: nat)
    requires length > 0 && position + length <= |text| && Highlight(text, position, length).Some?
    ensures var r, word := Highlight(text, position, length).value, text[position..position + length];
      && (r.length == |Visible(word)| <==> LINE_FEED !in word || Visible(text[position + length..]) == [])
      && (LINE_FEED !in word ==> r.length == length && 0 <= r.start && r.start + length <= |Visible(text)|
                                 && Visible(text)[r.start..r.start + length] == word)
  {
    WordIsPainted(text, position, length);
    PaintedUnlessHidden(text, position, length);
    ShownAround(text, position, length);
    VisibleLength(text[position..position + length]);
  }

  /** The word "a", a line break and "b" in a text that goes on with "c". */
  const OVER_BREAK: seq<CodeUnit> := [0x61, LINE_FEED, 0x62, 0x63]

  /** A word over a line break is painted together with the character behind it. */
  lemma BreakIsPaintedOver()
    ensures Highlight(OVER_BREAK, 0, 3) == Some(Range(0, 3))
    ensures Visible(OVER_BREAK[0..3]) == [0x61, 0x62] && Visible(OVER_BREAK)[0..3] == [0x61, 0x62, 0x63]
  {
    assert !IsWhiteSpace(OVER_BREAK[0]);
    VisibleOfThree();
    assert OVER_BREAK[..3] == OVER_BREAK[0..3] && OVER_BREAK[..|OVER_BREAK| - 1] == OVER_BREAK[0..3];
    assert Visible(OVER_BREAK) == [0x61, 0x62] + [0x63];
    assert Shown(OVER_BREAK, 0, 0) == 0;
  }

  lemma VisibleOfThree()
    ensures Visible(OVER_BREAK[0..3]) == [0x61, 0x62]
  {
    var word := OVER_BREAK[0..3];
    assert word == [0x61, LINE_FEED, 0x62];
    assert word[..2] == [0x61, LINE_FEED] && word[..2][..1] == [0x61] && word[..2][..1][..0] == [];
    assert Visible([0x61]) == [0x61];
  }

  // ----- The table of line starts --------------------------------------------------------

  /** The entry of the line that starts at its backend offset. */
  ghost predicate IsEntry(text: seq<CodeUnit>, s: LineStart) {
    s.backend <= |text| && s.rendered == Shown(text, 0, s.backend)
  }

  /** Entries of consecutive lines from the first line on; the next line starts at `next`. */
  ghost predicate IsTable(text: seq<CodeUnit>, starts: seq<LineStart>, next: nat) {
    && (forall i :: 0 <= i < |starts| ==> IsEntry(text, starts[i]))
    && (forall i :: 0 < i < |starts| ==> starts[i].backend == LineEnd(text, starts[i - 1].backend) + 1)
    && next == (if starts == [] then 0 else LineEnd(text, starts[|starts| - 1].backend) + 1)
    && (starts != [] ==> starts[0].backend == 0)
  }

  /** The offsets of a line are shown behind its start. */
  lemma ShownInLine(text: seq<CodeUnit>, s: LineStart, position: nat)
    requires IsEntry(text, s) && s.backend <= position <= LineEnd(text, s.backend)
    ensures Shown(text, 0, position) == s.rendered + (position - s.backend)
  {
    ShownOnLine(text, s.backend, position);
    ShownSplits(text, 0, s.backend, position);
  }

  /** One more line. */
  lemma TableGrows(text: seq<CodeUnit>, starts: seq<LineStart>, next: nat, rendered: nat)
    requires IsTable(text, starts, next) && IsEntry(text, LineStart(next, rendered))
    ensures IsTable(text, starts + [LineStart(next, rendered)], LineEnd(text, next) + 1)
  {
  }

  /** The lines still to come. */
  function LinesFrom(text: seq<CodeUnit>, next: nat): seq<seq<CodeUnit>> {
    if next <= |text| then Split(text, next) else []
  }

  lemma SplitFirst(text: seq<CodeUnit>, next: nat)
    requires LinesFrom(text, next) != []
    ensures next <= |text|
    ensures var r, end := LinesFrom(text, next), LineEnd(text, next);
      r[0] == text[next..end] && r[1..] == LinesFrom(text, end + 1)
  {
    var end := LineEnd(text, next);
    HeadAndTail(text[next..end], LinesFrom(text, end + 1));
  }

  lemma HeadAndTail(line: seq<CodeUnit>, lines: seq<seq<CodeUnit>>)
    ensures ([line] + lines)[0] == line && ([line] + lines)[1..] == lines
  {
  }

  /** What is shown before the line that starts at `next`, or in all, if there is none. */
  function ShownBefore(text: seq<CodeUnit>, next: nat): nat {
    Shown(text, 0, if next <= |text| then next else |text|)
  }

  lemma ShownBeforeNext(text: seq<CodeUnit>, next: nat)
    requires next <= |text|
    ensures var end := LineEnd(text, next); ShownBefore(text, end + 1) == ShownBefore(text, next) + (end - next)
  {
    var end := LineEnd(text, next);
    ShownOnLine(text, next, end);
    ShownSplits(text, 0, next, end);
  }

  // ----- Laying out the lines ------------------------------------------------------------

  /** The table and the paragraphs so far, and where the next line starts in both texts. */
  datatype Layout = Layout(starts: seq<LineStart>, paragraphs: seq<seq<CodeUnit>>, next: nat, rendered: nat)

  /** Every line gets an entry; only a line that is not empty becomes a paragraph. */
  function AddLine(l: Layout, line: seq<CodeUnit>): Layout {
    Layout(l.starts + [LineStart(l.next, l.rendered)],
           if line == [] then l.paragraphs else l.paragraphs + [line],
           l.next + |line| + 1, l.rendered + |line|)
  }

  function LayOut(lines: seq<seq<CodeUnit>>): Layout {
    if lines == [] then Layout([], [], 0, 0) else AddLine(LayOut(lines[..|lines| - 1]), lines[|lines| - 1])
  }

  function Concat(paragraphs: seq<seq<CodeUnit>>): seq<CodeUnit> {
    if paragraphs == [] then [] else Concat(paragraphs[..|paragraphs| - 1]) + paragraphs[|paragraphs| - 1]
  }

  // ----- The paragraphs ------------------------------------------------------------------

  lemma ConcatGrows(paragraphs: seq<seq<CodeUnit>>, line: seq<CodeUnit>)
    ensures Concat(paragraphs + [line]) == Concat(paragraphs) + line
  {
    assert (paragraphs + [line])[..|paragraphs|] == paragraphs;
  }

  lemma {:induction false} ConcatFront(line: seq<CodeUnit>, lines: seq<seq<CodeUnit>>)
    ensures Concat([line] + lines) == line + Concat(lines)
  {
    var all := [line] + lines;
    if lines == [] {
      assert all[..|all| - 1] == [];
    } else {
      assert all[..|all| - 1] == [line] + lines[..|lines| - 1];
      ConcatFront(line, lines[..|lines| - 1]);
    }
  }

  /** Leaving out the empty lines changes nothing. */
  lemma {:induction false} LayoutConcatsAll(lines: seq<seq<CodeUnit>>)
    ensures Concat(LayOut(lines).paragraphs) == Concat(lines) && [] !in LayOut(lines).paragraphs
  {
    if lines != [] {
      LayoutConcatsAll(lines[..|lines| - 1]);
      ConcatGrows(LayOut(lines[..|lines| - 1]).paragraphs, lines[|lines| - 1]);
    }
  }

  /** A line is visible as it is, its break is not. */
  lemma LineIsVisible(line: seq<CodeUnit>, rest: seq<CodeUnit>)
    requires LINE_FEED !in line
    ensures Visible(line + ([LINE_FEED] + rest)) == line + Visible(rest)
  {
    VisibleConcat(line, [LINE_FEED] + rest);
    BreakIsHidden(rest);
    VisibleLength(line);
  }

  lemma BreakIsHidden(rest: seq<CodeUnit>)
    ensures Visible([LINE_FEED] + rest) == Visible(rest)
  {
    VisibleConcat([LINE_FEED], rest);
    assert Visible([LINE_FEED]) == [];
    assert [] + Visible(rest) == Visible(rest);
  }

  /** The text from one line on is the line, its break and the rest. */
  lemma CutAtBreak(text: seq<CodeUnit>, from: nat)
    requires from <= |text|
    ensures var end := LineEnd(text, from);
      && LINE_FEED !in text[from..end]
      && text[from..] == if end < |text| then text[from..end] + ([LINE_FEED] + text[end + 1..]) else text[from..end]
  {
  }

  /** The visible part of the text from one line on. */
  lemma VisibleFromLine(text: seq<CodeUnit>, from: nat)
    requires from <= |text|
    ensures var end := LineEnd(text, from);
      Visible(text[from..]) == text[from..end] + (if end < |text| then Visible(text[end + 1..]) else [])
  {
    var end := LineEnd(text, from);
    CutAtBreak(text, from);
    if end < |text| { LineIsVisible(text[from..end], text[end + 1..]); } else { VisibleLength(text[from..end]); }
  }

  /** The lines, joined without their breaks, are the visible characters. */
  lemma {:induction false} LinesShowTheText(text: seq<CodeUnit>, from: nat)
    requires from <= |text|
    ensures Concat(Split(text, from)) == Visible(text[from..])
    decreases |text| - from
  {
    var end := LineEnd(text, from);
    VisibleFromLine(text, from);
    if end < |text| {
      LinesShowTheText(text, end + 1);
      ConcatFront(text[from..end], Split(text, end + 1));
    } else {
      ConcatFront(text[from..end], []);
      assert [text[from..end]] + [] == [text[from..end]];
    }
  }

  /** The paragraphs of a text show exactly its visible characters, and none is empty. */
  lemma ParagraphsShowTheText(text: seq<CodeUnit>)
    ensures Concat(LayOut(Split(text, 0)).paragraphs) == Visible(text)
    ensures [] !in LayOut(Split(text, 0)).paragraphs
  {
    LayoutConcatsAll(Split(text, 0));
    LinesShowTheText(text, 0);
    assert text[0..] == text;
  }

  // ----- The table -----------------------------------------------------------------------

  /** The table covers the lines before the next one, and `rest` are the lines still to come. */
  ghost predicate LaidOut(text: seq<CodeUnit>, l: Layout, rest: seq<seq<CodeUnit>>) {
    && l.next <= |text| + 1 && IsTable(text, l.starts, l.next) && l.rendered == ShownBefore(text, l.next)
    && rest == LinesFrom(text, l.next)
  }

  lemma LineIsLaidOut(text: seq<CodeUnit>, l: Layout, rest: seq<seq<CodeUnit>>)
    requires LaidOut(text, l, rest) && rest != []
    ensures LaidOut(text, AddLine(l, rest[0]), rest[1..])
  {
    SplitFirst(text, l.next);
    TableGrows(text, l.starts, l.next, l.rendered);
    ShownBeforeNext(text, l.next);
  }

  lemma NothingLaidOut(text: seq<CodeUnit>)
    ensures LaidOut(text, LayOut([]), Split(text, 0))
  {
  }

  lemma {:induction false} LinesAreLaidOut(text: seq<CodeUnit>, lines: seq<seq<CodeUnit>>, n: nat)
    requires lines == Split(text, 0) && n <= |lines|
    ensures LaidOut(text, LayOut(lines[..n]), lines[n..])
  {
    if n == 0 {
      NothingLaidOut(text);
      assert lines[..0] == [] && lines[0..] == lines;
    } else {
      LinesAreLaidOut(text, lines, n - 1);
      LineIsLaidOut(text, LayOut(lines[..n - 1]), lines[n - 1..]);
      LayOutOneMore(lines, n - 1);
    }
  }

  lemma LayOutOneMore(lines: seq<seq<CodeUnit>>, n: nat)
    requires n < |lines|
    ensures LayOut(lines[..n + 1]) == AddLine(LayOut(lines[..n]), lines[n])
    ensures lines[n..][0] == lines[n] && lines[n..][1..] == lines[n + 1..]
  {
    assert lines[..n + 1][..n] == lines[..n];
  }

  /** The whole text: a complete table of its lines and the number of visible characters. */
  lemma TextIsLaidOut(text: seq<CodeUnit>)
    ensures var l := LayOut(Split(text, 0));
      l.starts != [] && IsTable(text, l.starts, |text| + 1) && l.rendered == |Visible(text)|
  {
    var lines := Split(text, 0);
    LinesAreLaidOut(text, lines, |lines|);
    assert lines[..|lines|] == lines && lines[|lines|..] == [];
    LayoutIsComplete(text, LayOut(lines));
  }

  lemma LayoutIsComplete(text: seq<CodeUnit>, l: Layout)
    requires LaidOut(text, l, [])
    ensures l.starts != [] && IsTable(text, l.starts, |text| + 1) && l.rendered == |Visible(text)|
  {
    ShownIsVisible(text, |text|);
    assert text[..|text|] == text;
  }

  // ----- The player ----------------------------------------------------------------------

  /** What the reader holds: the resting prompt, or one paragraph for every line that is not empty. */
  datatype Blocks = Placeholder | Paragraphs(texts: seq<seq<CodeUnit>>)

  class PlayerText {
    var text: seq<CodeUnit>
    var blocks: Blocks
    var lineStarts: seq<LineStart>
    var renderedLength: nat

    ghost predicate Valid()
      reads this
    {
      && renderedLength == ShownLength(text)
      && (if IsBlank(text) then blocks == Placeholder && lineStarts == []
          else
            && blocks.Paragraphs? && Concat(blocks.texts) == Visible(text) && [] !in blocks.texts
            && lineStarts != [] && IsTable(text, lineStarts, |text| + 1))
    }

    constructor ()
      ensures Valid() && text == []
    {
      text, blocks, lineStarts, renderedLength := [], Placeholder, [], 0;
    }

    method SetText(newText: seq<CodeUnit>)
      modifies this
      ensures Valid() && text == newText
    {
      text, blocks, lineStarts := newText, Placeholder, [];
      if IsBlank(text) {
        renderedLength := 0;
        return;
      }
      var layout := LayOutLines(Split(text, 0));
      TextIsLaidOut(text);
      ParagraphsShowTheText(text);
      blocks, lineStarts, renderedLength := Paragraphs(layout.paragraphs), layout.starts, layout.rendered;
    }

    /** The loop over the lines, with its running offsets in the text and in what is shown. */
    static method LayOutLines(lines: seq<seq<CodeUnit>>) returns (layout: Layout)
      ensures layout == LayOut(lines)
    {
      var starts: seq<LineStart>, paragraphs: seq<seq<CodeUnit>> := [], [];
      var backendStart: nat, renderedStart: nat := 0, 0;
      for i := 0 to |lines|
        invariant Layout(starts, paragraphs, backendStart, renderedStart) == LayOut(lines[..i])
      {
        var line := lines[i];
        LayOutOneMore(lines, i);
        starts := starts + [LineStart(backendStart, renderedStart)];
        backendStart := backendStart + |line| + 1;
        if line == [] { continue; }
        paragraphs := paragraphs + [line];
        renderedStart := renderedStart + |line|;
      }
      assert lines[..|lines|] == lines;
      layout := Layout(starts, paragraphs, backendStart, renderedStart);
    }

    method HighlightWord(position: int, length: int) returns (painted: Option<Range>)
      requires Valid()
      ensures painted == Highlight(text, position, length)
    {
      if length <= 0 || position < 0 || position >= |text| { return None; }
      var start := ToRenderedIndex(position);
      var available := renderedLength - start;
      if available <= 0 { return None; }
      painted := Some(Range(start, Min(length, available)));
    }

    /** The last line that does not start behind the position decides. */
    method ToRenderedIndex(position: nat) returns (rendered: int)
      requires Valid() && position <= |text|
      ensures rendered == ToRendered(text, position)
    {
      rendered := position;
      var i := 0;
      while i < |lineStarts|
        invariant 0 <= i <= |lineStarts|
        invariant i == 0 ==> rendered == position
        invariant i > 0 ==>
          var s := lineStarts[i - 1]; s.backend <= position && rendered == s.rendered + (position - s.backend)
      {
        var entry := lineStarts[i];
        if entry.backend > position { break; }
        rendered := entry.rendered + (position - entry.backend);
        i := i + 1;
      }
      if i > 0 { ShownInLine(text, lineStarts[i - 1], position); }
    }
  }
}
