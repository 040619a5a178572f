/**
 * The right margin around every recognised line: a window over the lines in the order of their
 * left edges, with a multiset of right edges, gives the answer of comparing all pairs.
 */
module OcrWindow {

  datatype Line = Line(left: real, width: real) {
    function Right(): real { left + width }
  }

  /** The left edges of the two lines differ by no more than the tolerance. */
  predicate Near(a: Line, b: Line, tolerance: real) {
    a.left - tolerance <= b.left <= a.left + tolerance
  }

  /** The largest right edge among the line itself and all lines near it. */
  ghost predicate IsLocalRight(lines: seq<Line>, tolerance: real, i: nat, right: real)
    requires i < |lines|
  {
    && lines[i].left + lines[i].width <= right
    && (forall b :: b in lines && Near(lines[i], b, tolerance) ==> b.left + b.width <= right)
    && (right == lines[i].left + lines[i].width
        || exists b :: b in lines && Near(lines[i], b, tolerance) && b.left + b.width == right)
  }

  /** There is only one such edge. */
  lemma LocalRightIsUnique(lines: seq<Line>, tolerance: real, i: nat, r: real, s: real)
    requires i < |lines| && IsLocalRight(lines, tolerance, i, r) && IsLocalRight(lines, tolerance, i, s)
    ensures r == s
  {
  }

  // ----- Sorting -------------------------------------------------------------------------

  /** All line numbers, by left edge; lines with equal left edges may come in any order. */
  ghost predicate IsOrder(lines: seq<Line>, order: seq<nat>) {
    && (forall p :: 0 <= p < |order| ==> order[p] < |lines|)
    && (forall i: nat :: i < |lines| ==> i in order)
    && (forall p, q :: 0 <= p < q < |order| ==> lines[order[p]].left <= lines[order[q]].left)
  }

  ghost predicate SortedPrefix(lines: seq<Line>, order: seq<nat>, n: nat)
    requires n <= |lines|
  {
    && (forall p :: 0 <= p < |order| ==> order[p] < n)
    && (forall i: nat :: i < n ==> i in order)
    && (forall p, q :: 0 <= p < q < |order| ==> lines[order[p]].left <= lines[order[q]].left)
  }

  method SortByLeft(lines: seq<Line>) returns (order: seq<nat>)
    ensures |order| == |lines| && IsOrder(lines, order)
  {
    order := [];
    for n := 0 to |lines|
      invariant |order| == n && SortedPrefix(lines, order, n)
    {
      var at := 0;
      while at < n && lines[order[at]].left <= lines[n].left
        invariant 0 <= at <= n
        invariant forall p :: 0 <= p < at ==> lines[order[p]].left <= lines[n].left
      {
        at := at + 1;
      }
      InsertKeepsOrder(lines, order, n, at);
      order := order[..at] + [n] + order[at..];
    }
  }

  lemma InsertKeepsOrder(lines: seq<Line>, order: seq<nat>, n: nat, at: nat)
    requires n < |lines| && at <= |order| && SortedPrefix(lines, order, n)
    requires forall p :: 0 <= p < at ==> lines[order[p]].left <= lines[n].left
    requires at < |order| ==> lines[n].left < lines[order[at]].left
    ensures SortedPrefix(lines, order[..at] + [n] + order[at..], n + 1)
  {
    var longer := order[..at] + [n] + order[at..];
    assert forall p :: at <= p < |order| ==> lines[n].left <= lines[order[p]].left;
    forall i: nat | i < n + 1 ensures i in longer {
      if i < n {
        assert i in order;
        var p :| 0 <= p < |order| && order[p] == i;
        assert longer[if p < at then p else p + 1] == i;
      } else {
        assert longer[at] == n;
      }
    }
  }

  // ----- The window ----------------------------------------------------------------------

  /** The right edges of the lines at positions `first` to `last` of the order. */
  function Rights(lines: seq<Line>, order: seq<nat>, first: nat, last: nat): multiset<real>
    requires first <= last <= |order| && forall p :: 0 <= p < |order| ==> order[p] < |lines|
  {
    if first == last then multiset{}
    else Rights(lines, order, first, last - 1) + multiset{lines[order[last - 1]].Right()}
  }

  lemma {:induction false} DropFirst(lines: seq<Line>, order: seq<nat>, first: nat, last: nat)
    requires first < last <= |order| && forall p :: 0 <= p < |order| ==> order[p] < |lines|
    ensures Rights(lines, order, first, last)
         == Rights(lines, order, first + 1, last) + multiset{lines[order[first]].Right()}
  {
    if first + 1 < last { DropFirst(lines, order, first, last - 1); }
  }

  lemma {:induction false} InRights(lines: seq<Line>, order: seq<nat>, first: nat, last: nat)
    requires first <= last <= |order| && forall p :: 0 <= p < |order| ==> order[p] < |lines|
    ensures forall x :: x in Rights(lines, order, first, last)
                        <==> exists p :: first <= p < last && lines[order[p]].Right() == x
  {
    if first < last {
      InRights(lines, order, first, last - 1);
      assert lines[order[last - 1]].Right() in Rights(lines, order, first, last);
    }
  }

  predicate IsTop(m: multiset<real>, x: real) { x in m && forall y :: y in m ==> y <= x }

  lemma {:induction false} RightsHaveTop(lines: seq<Line>, order: seq<nat>, first: nat, last: nat)
    requires first < last <= |order| && forall p :: 0 <= p < |order| ==> order[p] < |lines|
    ensures exists x :: IsTop(Rights(lines, order, first, last), x)
  {
    var right := lines[order[last - 1]].Right();
    if first + 1 == last {
      assert IsTop(Rights(lines, order, first, last), right);
    } else {
      RightsHaveTop(lines, order, first, last - 1);
      var top :| IsTop(Rights(lines, order, first, last - 1), top);
      assert IsTop(Rights(lines, order, first, last), if top < right then right else top);
    }
  }

  /** Where the window stands for a line with left edge `center`. */
  ghost predicate Window(lines: seq<Line>, order: seq<nat>, first: nat, last: nat, center: real, tolerance: real)
    requires forall p :: 0 <= p < |order| ==> order[p] < |lines|
  {
    && first <= last <= |order|
    && (forall p :: 0 <= p < first ==> lines[order[p]].left < center - tolerance)
    && (forall p :: 0 <= p < last ==> lines[order[p]].left <= center + tolerance)
  }

  /** Once it can move no further, the window holds exactly the lines near the center. */
  lemma WindowIsExact(lines: seq<Line>, order: seq<nat>, first: nat, last: nat, i: nat, tolerance: real)
    requires i < |lines| && IsOrder(lines, order) && Window(lines, order, first, last, lines[i].left, tolerance)
    requires last < |order| ==> lines[order[last]].left > lines[i].left + tolerance
    requires first < last ==> lines[order[first]].left >= lines[i].left - tolerance
    ensures forall p :: 0 <= p < |order| ==> (first <= p < last <==> Near(lines[i], lines[order[p]], tolerance))
  {
    forall p | 0 <= p < |order|
      ensures first <= p < last <==> Near(lines[i], lines[order[p]], tolerance)
    {
      if last <= p { assert lines[order[last]].left <= lines[order[p]].left; }
    }
  }

  lemma TopIsLocalRight(lines: seq<Line>, order: seq<nat>, first: nat, last: nat, i: nat, tolerance: real, right: real)
    requires i < |lines| && IsOrder(lines, order) && first <= last <= |order|
    requires forall p :: 0 <= p < |order| ==> (first <= p < last <==> Near(lines[i], lines[order[p]], tolerance))
    requires if first == last then right == lines[i].Right() else IsTop(Rights(lines, order, first, last), right)
    ensures IsLocalRight(lines, tolerance, i, right)
  {
    InRights(lines, order, first, last);
    forall b | b in lines && Near(lines[i], b, tolerance) ensures b.Right() <= right {
      var j: nat :| j < |lines| && lines[j] == b;
      assert j in order;
      var p :| 0 <= p < |order| && order[p] == j;
      assert b.Right() in Rights(lines, order, first, last);
    }
    if first < last {
      var p :| first <= p < last && lines[order[p]].Right() == right;
      assert Near(lines[i], lines[order[p]], tolerance);
      assert Near(lines[i], lines[i], tolerance);
    }
  }

  /** The window and its right edges. */
  ghost predicate Holds(lines: seq<Line>, order: seq<nat>, first: nat, last: nat, rights: multiset<real>,
                        center: real, tolerance: real)
    requires forall p :: 0 <= p < |order| ==> order[p] < |lines|
  {
    Window(lines, order, first, last, center, tolerance) && rights == Rights(lines, order, first, last)
  }

  lemma GrowOne(lines: seq<Line>, order: seq<nat>, first: nat, last: nat, rights: multiset<real>,
                center: real, tolerance: real)
    requires forall p :: 0 <= p < |order| ==> order[p] < |lines|
    requires Holds(lines, order, first, last, rights, center, tolerance)
    requires last < |order| && lines[order[last]].left <= center + tolerance
    ensures Holds(lines, order, first, last + 1, rights + multiset{lines[order[last]].Right()}, center, tolerance)
  {
  }

  lemma ShrinkOne(lines: seq<Line>, order: seq<nat>, first: nat, last: nat, rights: multiset<real>,
                  center: real, tolerance: real)
    requires forall p :: 0 <= p < |order| ==> order[p] < |lines|
    requires Holds(lines, order, first, last, rights, center, tolerance)
    requires first < last && lines[order[first]].left < center - tolerance
    ensures Holds(lines, order, first + 1, last, rights - multiset{lines[order[first]].Right()}, center, tolerance)
  {
    DropFirst(lines, order, first, last);
    TakeOut(Rights(lines, order, first + 1, last), lines[order[first]].Right());
  }

  lemma TakeOut(m: multiset<real>, x: real)
    ensures m + multiset{x} - multiset{x} == m
  {
  }

  /** The right end of the window moves over all lines that start by `center + tolerance`. */
  method Grow(lines: seq<Line>, order: seq<nat>, first: nat, from: nat, before: multiset<real>, center: real, tolerance: real)
    returns (last: nat, rights: multiset<real>)
    requires forall p :: 0 <= p < |order| ==> order[p] < |lines|
    requires Holds(lines, order, first, from, before, center, tolerance)
    ensures Holds(lines, order, first, last, rights, center, tolerance)
    ensures last < |order| ==> lines[order[last]].left > center + tolerance
  {
    last, rights := from, before;
    while last < |order| && lines[order[last]].left <= center + tolerance
      invariant Holds(lines, order, first, last, rights, center, tolerance)
    {
      GrowOne(lines, order, first, last, rights, center, tolerance);
      rights := rights + multiset{lines[order[last]].Right()};
      last := last + 1;
    }
  }

  /** The left end of the window moves over all lines that start before `center - tolerance`. */
  method Shrink(lines: seq<Line>, order: seq<nat>, from: nat, last: nat, before: multiset<real>, center: real, tolerance: real)
    returns (first: nat, rights: multiset<real>)
    requires forall p :: 0 <= p < |order| ==> order[p] < |lines|
    requires Holds(lines, order, from, last, before, center, tolerance)
    ensures Holds(lines, order, first, last, rights, center, tolerance)
    ensures first < last ==> lines[order[first]].left >= center - tolerance
  {
    first, rights := from, before;
    while first < last && lines[order[first]].left < center - tolerance
      invariant Holds(lines, order, first, last, rights, center, tolerance)
    {
      ShrinkOne(lines, order, first, last, rights, center, tolerance);
      rights := rights - multiset{lines[order[first]].Right()};
      first := first + 1;
    }
  }

  /** Moves both ends of the window to a line further right. */
  method Slide(lines: seq<Line>, order: seq<nat>, from: nat, to: nat, before: multiset<real>, center: real, tolerance: real)
    returns (first: nat, last: nat, rights: multiset<real>)
    requires forall p :: 0 <= p < |order| ==> order[p] < |lines|
    requires Holds(lines, order, from, to, before, center, tolerance)
    ensures Holds(lines, order, first, last, rights, center, tolerance)
    ensures last < |order| ==> lines[order[last]].left > center + tolerance
    ensures first < last ==> lines[order[first]].left >= center - tolerance
  {
    last, rights := Grow(lines, order, from, to, before, center, tolerance);
    first, rights := Shrink(lines, order, from, last, rights, center, tolerance);
  }

  /** The largest element, or a default for an empty multiset. */
  method Top(lines: seq<Line>, order: seq<nat>, first: nat, last: nat, rights: multiset<real>, default: real) returns (right: real)
    requires first <= last <= |order| && forall p :: 0 <= p < |order| ==> order[p] < |lines|
    requires rights == Rights(lines, order, first, last)
    ensures if first == last then right == default else IsTop(rights, right)
  {
    SizeOfRights(lines, order, first, last);
    right := default;
    if rights != multiset{} {
      RightsHaveTop(lines, order, first, last);
      right :| IsTop(rights, right);
    }
  }

  lemma {:induction false} SizeOfRights(lines: seq<Line>, order: seq<nat>, first: nat, last: nat)
    requires first <= last <= |order| && forall p :: 0 <= p < |order| ==> order[p] < |lines|
    ensures |Rights(lines, order, first, last)| == last - first
  {
    if first < last { SizeOfRights(lines, order, first, last - 1); }
  }

  /** The window behind the first `k` lines of the order. */
  ghost predicate Behind(lines: seq<Line>, order: seq<nat>, k: nat, first: nat, last: nat, rights: multiset<real>, tolerance: real)
    requires k <= |order| && forall p :: 0 <= p < |order| ==> order[p] < |lines|
  {
    if k == 0 then first == last == 0 && rights == multiset{}
    else Holds(lines, order, first, last, rights, lines[order[k - 1]].left, tolerance)
  }

  lemma WindowAdvances(lines: seq<Line>, order: seq<nat>, k: nat, first: nat, last: nat, rights: multiset<real>, tolerance: real)
    requires k < |order| && IsOrder(lines, order) && Behind(lines, order, k, first, last, rights, tolerance)
    ensures Holds(lines, order, first, last, rights, lines[order[k]].left, tolerance)
  {
    assert k > 0 ==> lines[order[k - 1]].left <= lines[order[k]].left;
  }

  ghost predicate Answered(lines: seq<Line>, order: seq<nat>, k: nat, tolerance: real, localRight: seq<real>)
    requires k <= |order| && forall p :: 0 <= p < |order| ==> order[p] < |lines|
  {
    && |localRight| == |lines|
    && forall p :: 0 <= p < k ==> IsLocalRight(lines, tolerance, order[p], localRight[order[p]])
  }

  lemma OneMoreAnswered(lines: seq<Line>, order: seq<nat>, k: nat, tolerance: real, localRight: seq<real>, right: real)
    requires k < |order| && forall p :: 0 <= p < |order| ==> order[p] < |lines|
    requires Answered(lines, order, k, tolerance, localRight) && IsLocalRight(lines, tolerance, order[k], right)
    ensures Answered(lines, order, k + 1, tolerance, localRight[order[k] := right])
  {
  }

  /** Every entry is the local right edge of its line. */
  ghost predicate AreLocalRights(lines: seq<Line>, tolerance: real, localRight: seq<real>) {
    |localRight| == |lines| && forall i: nat :: i < |lines| ==> IsLocalRight(lines, tolerance, i, localRight[i])
  }

  lemma AllAnswered(lines: seq<Line>, order: seq<nat>, first: nat, last: nat, rights: multiset<real>, tolerance: real,
                    localRight: seq<real>)
    requires Progress(lines, order, |order|, first, last, rights, tolerance, localRight)
    ensures AreLocalRights(lines, tolerance, localRight)
  {
    forall i: nat | i < |lines| ensures IsLocalRight(lines, tolerance, i, localRight[i]) {
      assert i in order;
    }
  }

  /** One line of the order: the window moves on, and its largest right edge is the answer. */
  method Answer(lines: seq<Line>, order: seq<nat>, k: nat, from: nat, to: nat, before: multiset<real>, tolerance: real)
    returns (first: nat, last: nat, rights: multiset<real>, right: real)
    requires k < |order| && IsOrder(lines, order) && Behind(lines, order, k, from, to, before, tolerance)
    ensures Behind(lines, order, k + 1, first, last, rights, tolerance)
    ensures IsLocalRight(lines, tolerance, order[k], right)
  {
    var index := order[k];
    WindowAdvances(lines, order, k, from, to, before, tolerance);
    first, last, rights := Slide(lines, order, from, to, before, lines[index].left, tolerance);
    WindowIsExact(lines, order, first, last, index, tolerance);
    right := Top(lines, order, first, last, rights, lines[index].Right());
    TopIsLocalRight(lines, order, first, last, index, tolerance, right);
  }

  /** The first `k` lines of the order are answered, and the window is behind them. */
  ghost predicate Progress(lines: seq<Line>, order: seq<nat>, k: nat, first: nat, last: nat, rights: multiset<real>,
                           tolerance: real, localRight: seq<real>) {
    && IsOrder(lines, order) && k <= |order|
    && Behind(lines, order, k, first, last, rights, tolerance) && Answered(lines, order, k, tolerance, localRight)
  }

  method Zeros(n: nat) returns (r: seq<real>)
    ensures |r| == n
  {
    r := seq(n, _ => 0.0);
  }

  lemma ProgressStarts(lines: seq<Line>, order: seq<nat>, tolerance: real, localRight: seq<real>)
    requires IsOrder(lines, order) && |localRight| == |lines|
    ensures Progress(lines, order, 0, 0, 0, multiset{}, tolerance, localRight)
  {
  }

  method Enter(lines: seq<Line>, order: seq<nat>, k: nat, from: nat, to: nat, before: multiset<real>, tolerance: real,
               answers: seq<real>)
    returns (first: nat, last: nat, rights: multiset<real>, localRight: seq<real>)
    requires k < |order| && Progress(lines, order, k, from, to, before, tolerance, answers)
    ensures Progress(lines, order, k + 1, first, last, rights, tolerance, localRight)
  {
    var right;
    first, last, rights, right := Answer(lines, order, k, from, to, before, tolerance);
    OneMoreAnswered(lines, order, k, tolerance, answers, right);
    localRight := answers[order[k] := right];
  }

  method LocalRightEdges(lines: seq<Line>, tolerance: real) returns (localRight: seq<real>)
    ensures AreLocalRights(lines, tolerance, localRight)
  {
    var order := SortByLeft(lines);
    localRight := Zeros(|lines|);
    var rights: multiset<real> := multiset{};
    var first: nat, last: nat := 0, 0;
    ProgressStarts(lines, order, tolerance, localRight);
    for k := 0 to |order|
      invariant Progress(lines, order, k, first, last, rights, tolerance, localRight)
    {
      first, last, rights, localRight := Enter(lines, order, k, first, last, rights, tolerance, localRight);
    }
    AllAnswered(lines, order, first, last, rights, tolerance, localRight);
  }
}
