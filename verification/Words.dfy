/**
 * The words of a spoken text: maximal runs of word characters, which an apostrophe or a hyphen
 * between two word characters does not end. Which characters are word characters is a parameter.
 */
module Words {
  import opened Utf16

  datatype Word = Word(start: nat, end: nat)

  predicate IsJoiner(c: CodePoint) { c == 0x2019 || c == 0x27 || c == 0x2D }

  /** A joiner between two word characters. */
  predicate JoinsAt(text: seq<CodePoint>, isWord: CodePoint -> bool, i: int) {
    0 < i && i + 1 < |text| && IsJoiner(text[i]) && isWord(text[i - 1]) && isWord(text[i + 1])
  }

  /** The character belongs to some word: a word character, or an apostrophe or hyphen between two. */
  predicate InWord(text: seq<CodePoint>, isWord: CodePoint -> bool, i: int) {
    && 0 <= i < |text|
    && (|| isWord(text[i])
        || (text[i] in {0x2019, 0x27, 0x2D} && 0 < i < |text| - 1 && isWord(text[i - 1]) && isWord(text[i + 1])))
  }

  /** The end of the word that reaches `i`: what matching the pattern greedily consumes. */
  function WordEnd(text: seq<CodePoint>, isWord: CodePoint -> bool, i: nat): (r: nat)
    requires i <= |text|
    ensures i <= r <= |text|
    decreases |text| - i
  {
    if i < |text| && isWord(text[i]) then WordEnd(text, isWord, i + 1)
    else if JoinsAt(text, isWord, i) then WordEnd(text, isWord, i + 2)
    else i
  }

  /** The matches from `i` on. */
  function Matches(text: seq<CodePoint>, isWord: CodePoint -> bool, i: nat): seq<Word>
    requires i <= |text|
    decreases |text| - i
  {
    if i == |text| then []
    else if isWord(text[i]) then
      var end := WordEnd(text, isWord, i + 1);
      [Word(i, end)] + Matches(text, isWord, end)
    else Matches(text, isWord, i + 1)
  }

  /** A longest stretch of characters that belong to words. */
  ghost predicate IsMatch(text: seq<CodePoint>, isWord: CodePoint -> bool, w: Word) {
    && w.start < w.end <= |text| && isWord(text[w.start]) && isWord(text[w.end - 1])
    && (forall k :: w.start <= k < w.end ==> InWord(text, isWord, k))
    && !InWord(text, isWord, w.start - 1) && !InWord(text, isWord, w.end)
  }

  /** No word reaches over `i`. */
  predicate AtEdge(text: seq<CodePoint>, isWord: CodePoint -> bool, i: int) {
    !InWord(text, isWord, i - 1) || !InWord(text, isWord, i)
  }

  /** Non-empty, disjoint and in order, inside the text from `from` on. */
  ghost predicate InOrder(words: seq<Word>, from: nat, length: nat) {
    && (forall i :: 0 <= i < |words| ==> from <= words[i].start < words[i].end <= length)
    && (forall i, j :: 0 <= i < j < |words| ==> words[i].end <= words[j].start)
  }

  lemma {:induction false} WordEndIs(text: seq<CodePoint>, isWord: CodePoint -> bool, i: nat)
    requires 0 < i <= |text| && isWord(text[i - 1])
    ensures var end := WordEnd(text, isWord, i);
      && isWord(text[end - 1]) && !InWord(text, isWord, end)
      && forall k :: i <= k < end ==> InWord(text, isWord, k)
    decreases |text| - i
  {
    if i < |text| && isWord(text[i]) {
      WordEndIs(text, isWord, i + 1);
    } else if JoinsAt(text, isWord, i) {
      WordEndIs(text, isWord, i + 2);
    }
  }

  lemma {:induction false} MatchesAreInOrder(text: seq<CodePoint>, isWord: CodePoint -> bool, i: nat)
    requires i <= |text|
    ensures InOrder(Matches(text, isWord, i), i, |text|)
    decreases |text| - i
  {
    if i < |text| {
      MatchesAreInOrder(text, isWord, if isWord(text[i]) then WordEnd(text, isWord, i + 1) else i + 1);
    }
  }

  lemma {:induction false} MatchesFromEdge(text: seq<CodePoint>, isWord: CodePoint -> bool, i: nat)
    requires i <= |text| && AtEdge(text, isWord, i)
    ensures forall n :: 0 <= n < |Matches(text, isWord, i)| ==> IsMatch(text, isWord, Matches(text, isWord, i)[n])
    decreases |text| - i
  {
    if i < |text| {
      if isWord(text[i]) {
        WordEndIs(text, isWord, i + 1);
        MatchesFromEdge(text, isWord, WordEnd(text, isWord, i + 1));
      } else {
        MatchesFromEdge(text, isWord, i + 1);
      }
    }
  }

  /** Every match is a whole word. */
  lemma MatchesAreWords(text: seq<CodePoint>, isWord: CodePoint -> bool)
    ensures forall n :: 0 <= n < |Matches(text, isWord, 0)| ==> IsMatch(text, isWord, Matches(text, isWord, 0)[n])
  {
    MatchesFromEdge(text, isWord, 0);
  }

  /** The character lies in one of the words. */
  ghost predicate Covered(words: seq<Word>, k: int) {
    exists n :: 0 <= n < |words| && words[n].start <= k < words[n].end
  }

  lemma CoveredLater(w: Word, words: seq<Word>, k: int)
    requires Covered(words, k) || w.start <= k < w.end
    ensures Covered([w] + words, k)
  {
    if w.start <= k < w.end {
      assert ([w] + words)[0] == w;
    } else {
      var n :| 0 <= n < |words| && words[n].start <= k < words[n].end;
      assert ([w] + words)[n + 1] == words[n];
    }
  }

  /** Every word character lies in a match. */
  lemma {:induction false} MatchesCover(text: seq<CodePoint>, isWord: CodePoint -> bool, i: nat, k: nat)
    requires i <= k < |text| && isWord(text[k])
    ensures Covered(Matches(text, isWord, i), k)
    decreases |text| - i
  {
    if isWord(text[i]) {
      var end := WordEnd(text, isWord, i + 1);
      if end <= k { MatchesCover(text, isWord, end, k); }
      CoveredLater(Word(i, end), Matches(text, isWord, end), k);
    } else {
      MatchesCover(text, isWord, i + 1, k);
    }
  }
}
