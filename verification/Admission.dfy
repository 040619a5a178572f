/**
 * Bounded admission: a long piece of PCM is offered to the engine in slices. Two producers cut
 * it, with different loops and different rules for a boundary that sits exactly on a cut; both
 * cuts leave the request exactly as one unsliced submission would.
 */
module Admission {
  import opened AudioTypes
  import RequestModel

  /** One bounded submission with its own slice-relative boundaries. */
  datatype Slice = Slice(pcm: seq<byte>, boundaries: seq<Boundary>, frameOffset: nat, frameCount: nat)

  datatype SliceError = IncompleteFrame | OutsidePcm | Unordered

  datatype SliceResult = Sliced(slices: seq<Slice>) | Rejected(error: SliceError)

  // ----- What a cut is -------------------------------------------------------------------

  function JoinPcm(slices: seq<Slice>): seq<byte> {
    if slices == [] then [] else JoinPcm(slices[..|slices| - 1]) + slices[|slices| - 1].pcm
  }

  /** The boundaries of all slices, moved back to absolute frames. */
  function JoinBoundaries(slices: seq<Slice>): seq<Boundary> {
    if slices == [] then []
    else
      var last := slices[|slices| - 1];
      JoinBoundaries(slices[..|slices| - 1]) + Shift(last.boundaries, last.frameOffset)
  }

  /** Ordered, and inside `frames` frames of audio. */
  ghost predicate InOrder(bs: seq<Boundary>, frames: nat) {
    Sorted(bs) && forall i :: 0 <= i < |bs| ==> bs[i].frame <= frames
  }

  ghost predicate WellCut(slices: seq<Slice>, bytesPerFrame: nat, limit: nat) {
    && (forall k :: 0 <= k < |slices| ==>
          && 0 < slices[k].frameCount <= limit
          && |slices[k].pcm| == slices[k].frameCount * bytesPerFrame
          && |JoinPcm(slices[..k])| == slices[k].frameOffset * bytesPerFrame)
  }

  /** The slices are `pcm` and `bs`, cut into ordered pieces of at most `limit` frames. */
  ghost predicate Cuts(slices: seq<Slice>, pcm: seq<byte>, bs: seq<Boundary>, bytesPerFrame: nat, limit: nat) {
    && WellCut(slices, bytesPerFrame, limit)
    && JoinPcm(slices) == pcm
    && JoinBoundaries(slices) == bs
    && (forall k :: 0 <= k < |slices| ==> InOrder(slices[k].boundaries, slices[k].frameCount))
  }

  /** Adding a slice at the end of a cut. */
  lemma CutOneMore(slices: seq<Slice>, last: Slice, bytesPerFrame: nat, limit: nat)
    requires WellCut(slices, bytesPerFrame, limit)
    requires 0 < last.frameCount <= limit && |last.pcm| == last.frameCount * bytesPerFrame
    requires |JoinPcm(slices)| == last.frameOffset * bytesPerFrame
    ensures WellCut(slices + [last], bytesPerFrame, limit)
    ensures JoinPcm(slices + [last]) == JoinPcm(slices) + last.pcm
    ensures JoinBoundaries(slices + [last])
         == JoinBoundaries(slices) + Shift(last.boundaries, last.frameOffset)
  {
    var longer := slices + [last];
    assert longer[..|slices|] == slices;
    assert forall k :: 0 <= k <= |slices| ==> longer[..k] == slices[..k];
    assert slices[..|slices|] == slices;
  }

  // ----- The Python slicer ---------------------------------------------------------------

  /** Why `SliceForAdmission` refuses its input: the first boundary that is out of place. */
  function CheckOrder(bs: seq<Boundary>, frames: nat, index: nat, previous: nat): (r: Option<SliceError>)
    requires index <= |bs|
    ensures r != Some(IncompleteFrame)
    decreases |bs| - index
  {
    if index == |bs| then None
    else if bs[index].frame > frames then Some(OutsidePcm)
    else if index > 0 && bs[index].frame < previous then Some(Unordered)
    else CheckOrder(bs, frames, index + 1, bs[index].frame)
  }

  lemma {:induction false} CheckOrderMeans(bs: seq<Boundary>, frames: nat, index: nat, previous: nat)
    requires index <= |bs| && InOrder(bs[..index], frames)
    requires index > 0 ==> previous == bs[index - 1].frame
    ensures CheckOrder(bs, frames, index, previous).None? <==> InOrder(bs, frames)
    decreases |bs| - index
  {
    if index == |bs| {
      assert bs[..index] == bs;
    } else if bs[index].frame <= frames && (index > 0 ==> bs[index].frame >= previous) {
      assert bs[..index + 1][..index] == bs[..index];
      CheckOrderMeans(bs, frames, index + 1, bs[index].frame);
    } else {
      assert bs[index].frame > frames || bs[index].frame < bs[index - 1].frame;
    }
  }

  /** The refusal names what is wrong with the first boundary that is out of place. */
  lemma {:induction false} CheckOrderSays(bs: seq<Boundary>, frames: nat, index: nat, previous: nat) returns (k: nat)
    requires index <= |bs| && InOrder(bs[..index], frames)
    requires index > 0 ==> previous == bs[index - 1].frame
    requires CheckOrder(bs, frames, index, previous).Some?
    ensures index <= k < |bs| && InOrder(bs[..k], frames)
    ensures CheckOrder(bs, frames, index, previous) == Some(if bs[k].frame > frames then OutsidePcm else Unordered)
    ensures bs[k].frame > frames || (k > 0 && bs[k].frame < bs[k - 1].frame)
    decreases |bs| - index
  {
    if bs[index].frame <= frames && (index > 0 ==> bs[index].frame >= previous) {
      assert bs[..index + 1][..index] == bs[..index];
      k := CheckOrderSays(bs, frames, index + 1, bs[index].frame);
    } else {
      k := index;
    }
  }

  /** Rebasing onto a slice and shifting back is the identity. */
  lemma RebaseOne(carried: seq<Boundary>, start: nat, b: Boundary)
    requires b.frame >= start
    ensures Shift(carried + [b.(frame := b.frame - start)], start) == Shift(carried, start) + [b]
  {
  }

  /** The boundaries from `first` on that belong to the slice [start, end), rebased onto it. */
  method Carry(bs: seq<Boundary>, first: nat, start: nat, end: nat, isLast: bool)
    returns (carried: seq<Boundary>, next: nat)
    requires first <= |bs| && start <= end && Sorted(bs)
    requires first < |bs| ==> bs[first].frame >= start
    ensures first <= next <= |bs|
    ensures Shift(carried, start) == bs[first..next]
    ensures InOrder(carried, end - start)
    ensures !isLast ==> forall i :: 0 <= i < |carried| ==> carried[i].frame < end - start
    ensures next < |bs| ==> bs[next].frame > end || (bs[next].frame == end && !isLast)
  {
    carried, next := [], first;
    assert bs[first..first] == [];
    while next < |bs|
      invariant first <= next <= |bs|
      invariant Shift(carried, start) == bs[first..next]
      invariant forall i :: 0 <= i < |carried| ==>
        carried[i].frame <= end - start && (!isLast ==> carried[i].frame < end - start)
    {
      if bs[next].frame > end || (bs[next].frame == end && !isLast) { break; }
      RebaseOne(carried, start, bs[next]);
      assert bs[first..next + 1] == bs[first..next] + [bs[next]];
      carried := carried + [bs[next].(frame := bs[next].frame - start)];
      next := next + 1;
    }
    CarriedInOrder(carried, start, bs, first, next, end - start);
  }

  /**
   * Cuts PCM so that every slice fits bounded admission. A boundary on a cut opens the next
   * slice; only the last slice may carry one at its very end.
   */
  method SliceForAdmission(pcm: seq<byte>, bs: seq<Boundary>, bytesPerFrame: nat, limit: nat)
    returns (result: SliceResult)
    requires bytesPerFrame > 0 && limit > 0
    ensures result == Rejected(IncompleteFrame) <==> |pcm| % bytesPerFrame != 0
    ensures |pcm| % bytesPerFrame == 0 ==>
      (result.Sliced? <==> InOrder(bs, |pcm| / bytesPerFrame))
    ensures |pcm| % bytesPerFrame == 0 && result.Rejected? ==>
      Some(result.error) == CheckOrder(bs, |pcm| / bytesPerFrame, 0, 0)
    ensures result.Sliced? && pcm == [] ==> result.slices == [Slice(pcm, bs, 0, 0)]
    ensures result.Sliced? && pcm != [] ==>
      && Cuts(result.slices, pcm, bs, bytesPerFrame, limit)
      && OpensNext(result.slices) && Full(result.slices, limit)
  {
    if |pcm| % bytesPerFrame != 0 { return Rejected(IncompleteFrame); }
    var total := |pcm| / bytesPerFrame;
    var problem := CheckOrder(bs, total, 0, 0);
    CheckOrderMeans(bs, total, 0, 0);
    if problem.Some? { return Rejected(problem.value); }
    if total == 0 { return Sliced([Slice(pcm, bs, 0, 0)]); }
    var slices := CutForAdmission(pcm, bs, total, bytesPerFrame, limit);
    return Sliced(slices);
  }

  /** The slice that starts at its offset, with the boundaries from `next` to `after` that it carries. */
  ghost predicate IsNext(slice: Slice, pcm: seq<byte>, bs: seq<Boundary>, total: nat, next: nat, after: nat,
                         at: nat, end: nat, edge: nat, bytesPerFrame: nat, limit: nat)
  {
    && end == slice.frameOffset + slice.frameCount && edge == at + slice.frameCount * bytesPerFrame
    && slice.frameOffset < total && slice.frameCount == Min(limit, total - slice.frameOffset)
    && at <= edge <= |pcm| && slice.pcm == pcm[at..edge] && next <= after <= |bs|
    && Shift(slice.boundaries, slice.frameOffset) == bs[next..after]
    && InOrder(slice.boundaries, slice.frameCount)
    && (end < total ==> forall i :: 0 <= i < |slice.boundaries| ==> slice.boundaries[i].frame < slice.frameCount)
    && (after < |bs| ==> bs[after].frame > end || (bs[after].frame == end && end < total))
  }

  method NextSlice(pcm: seq<byte>, bs: seq<Boundary>, total: nat, start: nat, next: nat,
                   at: nat, bytesPerFrame: nat, limit: nat)
    returns (slice: Slice, after: nat, end: nat, edge: nat)
    requires limit > 0 && |pcm| == total * bytesPerFrame && at == start * bytesPerFrame && Sorted(bs)
    requires start < total && next <= |bs| && (next < |bs| ==> bs[next].frame >= start)
    ensures slice.frameOffset == start && end > start
    ensures IsNext(slice, pcm, bs, total, next, after, at, end, edge, bytesPerFrame, limit)
  {
    var count := Min(limit, total - start);
    end := start + count;
    edge := at + count * bytesPerFrame;
    EdgeInPcm(pcm, total, start, count, at, bytesPerFrame);
    var carried;
    carried, after := Carry(bs, next, start, end, end >= total);
    slice := Slice(pcm[at..edge], carried, start, count);
  }

  method CutForAdmission(pcm: seq<byte>, bs: seq<Boundary>, total: nat, bytesPerFrame: nat, limit: nat)
    returns (slices: seq<Slice>)
    requires limit > 0 && total > 0 && |pcm| == total * bytesPerFrame
    requires InOrder(bs, total)
    ensures Cuts(slices, pcm, bs, bytesPerFrame, limit) && OpensNext(slices) && Full(slices, limit)
  {
    slices := [];
    var next: nat, start: nat, at: nat := 0, 0, 0;
    NothingCut(pcm, bs, total, bytesPerFrame, limit);
    while start < total
      invariant Cutting(slices, pcm, bs, total, start, next, at, bytesPerFrame, limit)
    {
      CuttingOpens(slices, pcm, bs, total, start, next, at, bytesPerFrame, limit);
      var slice, after, end, edge := NextSlice(pcm, bs, total, start, next, at, bytesPerFrame, limit);
      CutOn(slices, slice, pcm, bs, total, next, after, at, end, edge, bytesPerFrame, limit);
      slices := slices + [slice];
      start, next, at := end, after, edge;
    }
    CutDone(slices, pcm, bs, total, next, at, bytesPerFrame, limit);
  }

  lemma CuttingOpens(slices: seq<Slice>, pcm: seq<byte>, bs: seq<Boundary>, total: nat, start: nat, next: nat,
                     at: nat, bytesPerFrame: nat, limit: nat)
    requires Cutting(slices, pcm, bs, total, start, next, at, bytesPerFrame, limit) && start < total
    ensures at == start * bytesPerFrame && next <= |bs| && (next < |bs| ==> bs[next].frame >= start)
  {
  }

  lemma EdgeInPcm(pcm: seq<byte>, total: nat, start: nat, count: nat, at: nat, bytesPerFrame: nat)
    requires |pcm| == total * bytesPerFrame && at == start * bytesPerFrame && start + count <= total
    ensures at <= at + count * bytesPerFrame <= |pcm|
  {
    EdgeInside(start, count, total, bytesPerFrame);
  }

  lemma CutDone(slices: seq<Slice>, pcm: seq<byte>, bs: seq<Boundary>, total: nat, next: nat,
                at: nat, bytesPerFrame: nat, limit: nat)
    requires |pcm| == total * bytesPerFrame
    requires Cutting(slices, pcm, bs, total, total, next, at, bytesPerFrame, limit)
    ensures Cuts(slices, pcm, bs, bytesPerFrame, limit) && OpensNext(slices) && Full(slices, limit)
  {
    assert pcm[..at] == pcm && bs[..|bs|] == bs;
  }

  lemma NothingCut(pcm: seq<byte>, bs: seq<Boundary>, total: nat, bytesPerFrame: nat, limit: nat)
    requires total > 0
    ensures Cutting([], pcm, bs, total, 0, 0, 0, bytesPerFrame, limit)
  {
    assert pcm[..0] == [] && bs[..0] == [];
  }

  /** The loop has cut `start` of `total` frames and carried `next` boundaries. */
  ghost predicate Cutting(slices: seq<Slice>, pcm: seq<byte>, bs: seq<Boundary>, total: nat, start: nat, next: nat,
                          at: nat, bytesPerFrame: nat, limit: nat)
  {
    && start <= total && at == start * bytesPerFrame
    && Progress(slices, pcm, bs, at, next, bytesPerFrame, limit)
    && (start < total ==> (next < |bs| ==> bs[next].frame >= start) && AllOpenNext(slices) && AllFull(slices, limit))
    && (start == total ==> next == |bs| && OpensNext(slices) && Full(slices, limit))
  }

  /** One more slice, with the boundaries `Carry` gives it. */
  lemma CutOn(slices: seq<Slice>, slice: Slice, pcm: seq<byte>, bs: seq<Boundary>, total: nat, next: nat, after: nat,
              at: nat, end: nat, edge: nat, bytesPerFrame: nat, limit: nat)
    requires InOrder(bs, total) && |pcm| == total * bytesPerFrame && limit > 0
    requires Cutting(slices, pcm, bs, total, slice.frameOffset, next, at, bytesPerFrame, limit)
    requires IsNext(slice, pcm, bs, total, next, after, at, end, edge, bytesPerFrame, limit)
    ensures Cutting(slices + [slice], pcm, bs, total, end, after, edge, bytesPerFrame, limit)
  {
    EdgeInside(slice.frameOffset, slice.frameCount, total, bytesPerFrame);
    ExtendCut(slices, slice, pcm, bs, at, edge, next, after, bytesPerFrame, limit);
    ExtendRules(slices, slice, limit);
    assert end < total ==> AllOpenNext([slice]);
  }

  /** The slices so far are a cut of the PCM up to `at` and of the first `next` boundaries. */
  ghost predicate Progress(slices: seq<Slice>, pcm: seq<byte>, bs: seq<Boundary>, at: nat, next: nat,
                           bytesPerFrame: nat, limit: nat)
  {
    at <= |pcm| && next <= |bs| && Cuts(slices, pcm[..at], bs[..next], bytesPerFrame, limit)
  }

  /** No slice carries a boundary at its end. */
  ghost predicate AllOpenNext(slices: seq<Slice>) {
    forall k, i :: 0 <= k < |slices| && 0 <= i < |slices[k].boundaries| ==>
      slices[k].boundaries[i].frame < slices[k].frameCount
  }

  /** Only the last slice may carry a boundary at its end. */
  ghost predicate OpensNext(slices: seq<Slice>) {
    slices != [] ==> AllOpenNext(slices[..|slices| - 1])
  }

  ghost predicate AllFull(slices: seq<Slice>, limit: nat) {
    forall k :: 0 <= k < |slices| ==> slices[k].frameCount == limit
  }

  /** Only the last slice may be shorter than the limit. */
  ghost predicate Full(slices: seq<Slice>, limit: nat) {
    slices != [] ==> AllFull(slices[..|slices| - 1], limit)
  }

  lemma ExtendRules(slices: seq<Slice>, slice: Slice, limit: nat)
    ensures AllFull(slices, limit) ==> Full(slices + [slice], limit)
    ensures AllFull(slices, limit) && slice.frameCount == limit ==> AllFull(slices + [slice], limit)
    ensures AllOpenNext(slices) ==> OpensNext(slices + [slice])
    ensures AllOpenNext(slices) && AllOpenNext([slice]) ==> AllOpenNext(slices + [slice])
  {
    assert (slices + [slice])[..|slices|] == slices;
    assert [slice][0] == slice;
  }

  lemma EdgeInside(start: nat, count: nat, total: nat, bytesPerFrame: nat)
    requires start + count <= total
    ensures start * bytesPerFrame + count * bytesPerFrame == (start + count) * bytesPerFrame
    ensures (start + count) * bytesPerFrame <= total * bytesPerFrame
  {
  }

  /** One more slice extends a cut of a front part of the PCM and of its boundaries. */
  lemma ExtendCut(slices: seq<Slice>, slice: Slice, pcm: seq<byte>, bs: seq<Boundary>,
                  at: nat, edge: nat, next: nat, after: nat, bytesPerFrame: nat, limit: nat)
    requires at <= edge <= |pcm| && next <= after <= |bs|
    requires Cuts(slices, pcm[..at], bs[..next], bytesPerFrame, limit)
    requires 0 < slice.frameCount <= limit
    requires at == slice.frameOffset * bytesPerFrame && edge == at + slice.frameCount * bytesPerFrame
    requires slice.pcm == pcm[at..edge]
    requires Shift(slice.boundaries, slice.frameOffset) == bs[next..after]
    requires InOrder(slice.boundaries, slice.frameCount)
    ensures Cuts(slices + [slice], pcm[..edge], bs[..after], bytesPerFrame, limit)
    ensures (slices + [slice])[..|slices|] == slices
  {
    CutOneMore(slices, slice, bytesPerFrame, limit);
    assert pcm[..edge] == pcm[..at] + pcm[at..edge];
    assert bs[..after] == bs[..next] + bs[next..after];
  }

  lemma CarriedInOrder(carried: seq<Boundary>, start: nat, bs: seq<Boundary>, first: nat, next: nat, count: nat)
    requires first <= next <= |bs| && Sorted(bs)
    requires Shift(carried, start) == bs[first..next]
    requires forall i :: 0 <= i < |carried| ==> carried[i].frame <= count
    ensures InOrder(carried, count)
  {
    forall i, j | 0 <= i < j < |carried| ensures carried[i].frame <= carried[j].frame {
      assert bs[first..next][i] == bs[first + i] && bs[first..next][j] == bs[first + j];
      assert Shift(carried, start)[i].frame <= Shift(carried, start)[j].frame;
    }
  }

  // ----- The Natural Voice slicer --------------------------------------------------------

  /** Three seconds at the Natural Voice rate of 24 kHz. */
  const NATURAL_SLICE_FRAMES: nat := 24_000 * 3

  const UINT64: nat := UINT64_MAX + 1

  /** `a - b` on unsigned 64-bit integers: below zero it wraps around. */
  function Minus64(a: nat, b: nat): nat
    requires b < UINT64
  {
    if a >= b then a - b else a + UINT64 - b
  }

  /** What the native loop makes of the boundaries from `first` on that end by `end`. */
  method CarryNatural(bs: seq<Boundary>, first: nat, start: nat, end: nat)
    returns (carried: seq<Boundary>, next: nat)
    requires first <= |bs| && start <= end < UINT64
    ensures first <= next <= |bs| && |carried| == next - first
    ensures forall i :: first <= i < next ==> bs[i].frame <= end
    ensures forall i :: 0 <= i < |carried| ==>
      carried[i] == bs[first + i].(frame := Minus64(bs[first + i].frame, start))
    ensures next < |bs| ==> bs[next].frame > end
  {
    carried, next := [], first;
    while next < |bs| && bs[next].frame <= end
      invariant first <= next <= |bs| && |carried| == next - first
      invariant forall i :: first <= i < next ==> bs[i].frame <= end
      invariant forall i :: 0 <= i < |carried| ==>
        carried[i] == bs[first + i].(frame := Minus64(bs[first + i].frame, start))
    {
      carried := carried + [bs[next].(frame := Minus64(bs[next].frame, start))];
      next := next + 1;
    }
  }

  /** What the wrapping subtraction makes of boundaries that end by `count` frames behind `start`. */
  ghost predicate Rebased(mine: seq<Boundary>, carried: seq<Boundary>, start: nat, count: nat) {
    && |carried| == |mine| && start + 2 * count < UINT64
    && (forall i :: 0 <= i < |mine| ==> mine[i].frame <= start + count)
    && (mine != [] ==> mine[0].frame >= start)
    && forall i :: 0 <= i < |mine| ==> carried[i] == mine[i].(frame := Minus64(mine[i].frame, start))
  }

  lemma SortedStaysOrdered(mine: seq<Boundary>, carried: seq<Boundary>, start: nat, count: nat)
    requires Rebased(mine, carried, start, count) && Sorted(mine)
    ensures InOrder(carried, count) && Shift(carried, start) == mine
  {
    assert forall i :: 0 <= i < |mine| ==> mine[0].frame <= mine[i].frame;
  }

  lemma OrderedWasSorted(mine: seq<Boundary>, carried: seq<Boundary>, start: nat, count: nat)
    requires Rebased(mine, carried, start, count) && InOrder(carried, count)
    ensures Sorted(mine)
  {
    forall i, j | 0 <= i < j < |mine| ensures mine[i].frame <= mine[j].frame {
      assert carried[i].frame <= carried[j].frame <= count;
    }
  }

  /** The carried boundaries are ordered inside the slice exactly when the originals were ordered. */
  lemma CarriedOrdered(bs: seq<Boundary>, first: nat, next: nat, start: nat, count: nat, carried: seq<Boundary>)
    requires first <= next <= |bs| && |carried| == next - first && start + 2 * count < UINT64
    requires forall i :: first <= i < next ==> bs[i].frame <= start + count
    requires first < next ==> bs[first].frame >= start
    requires forall i :: 0 <= i < |carried| ==>
      carried[i] == bs[first + i].(frame := Minus64(bs[first + i].frame, start))
    ensures InOrder(carried, count) <==> Sorted(bs[first..next])
    ensures Sorted(bs[first..next]) ==> Shift(carried, start) == bs[first..next]
  {
    var mine := bs[first..next];
    assert Rebased(mine, carried, start, count);
    if Sorted(mine) { SortedStaysOrdered(mine, carried, start, count); }
    if InOrder(carried, count) { OrderedWasSorted(mine, carried, start, count); }
  }

  /** Boundaries past `start` after boundaries up to `start`: ordered when both parts are. */
  lemma SortedJoin(bs: seq<Boundary>, first: nat, next: nat, start: nat)
    requires first <= next <= |bs|
    requires forall i :: 0 <= i < first ==> bs[i].frame <= start
    requires first < next ==> bs[first].frame >= start
    ensures Sorted(bs[..next]) <==> Sorted(bs[..first]) && Sorted(bs[first..next])
  {
    var front, back, all := bs[..first], bs[first..next], bs[..next];
    if Sorted(front) && Sorted(back) {
      forall i, j | 0 <= i < j < |all| ensures all[i].frame <= all[j].frame {
        if i < first <= j { assert back[0].frame <= back[j - first].frame; }
        else if j < first { assert front[i].frame <= front[j].frame; }
        else { assert back[i - first].frame <= back[j - first].frame; }
      }
    }
    if Sorted(all) {
      forall i, j | 0 <= i < j < |back| ensures back[i].frame <= back[j].frame {
        assert all[first + i].frame <= all[first + j].frame;
      }
    }
  }

  /** The engine refuses a slice whose boundaries are not ordered inside it. */
  ghost predicate SomeRefused(slices: seq<Slice>) {
    exists k :: 0 <= k < |slices| && !InOrder(slices[k].boundaries, slices[k].frameCount)
  }

  /**
   * The native loop: a boundary on a cut ends the earlier slice. It never checks the order of
   * the boundaries, but unordered ones never slip through: some slice is then refused.
   */
  method SliceNatural(pcm: seq<byte>, bs: seq<Boundary>) returns (slices: seq<Slice>)
    requires |pcm| % BYTES_PER_FRAME == 0 && |pcm| < UINT64
    requires forall b :: b in bs ==> b.frame <= |pcm| / BYTES_PER_FRAME
    ensures pcm == [] ==> slices == []
    ensures pcm != [] && Sorted(bs) ==> Cuts(slices, pcm, bs, BYTES_PER_FRAME, 3 * 24_000)
    ensures pcm != [] && !Sorted(bs) ==> SomeRefused(slices)
  {
    var total := |pcm| / BYTES_PER_FRAME;
    var next: nat, start: nat := 0, 0;
    slices := [];
    NothingCutNaturally(pcm, bs);
    while start < total
      invariant CuttingNaturally(slices, pcm, bs, total, start, next)
    {
      var slice, after, end := NextNaturalSlice(pcm, bs, total, start, next);
      CutOnNaturally(slices, slice, pcm, bs, total, next, after, end);
      slices := slices + [slice];
      start, next := end, after;
    }
    if total > 0 { CutNaturally(slices, pcm, bs, total, next); }
  }

  lemma CutNaturally(slices: seq<Slice>, pcm: seq<byte>, bs: seq<Boundary>, total: nat, next: nat)
    requires CuttingNaturally(slices, pcm, bs, total, total, next) && |pcm| == total * BYTES_PER_FRAME
    requires total > 0 && forall i :: 0 <= i < |bs| ==> bs[i].frame <= total
    ensures Sorted(bs) ==> Cuts(slices, pcm, bs, BYTES_PER_FRAME, NATURAL_SLICE_FRAMES)
    ensures !Sorted(bs) ==> SomeRefused(slices)
  {
    assert pcm[..total * BYTES_PER_FRAME] == pcm && bs[..next] == bs;
  }

  /** The native loop has cut `start` of `total` frames and carried `next` boundaries. */
  ghost predicate CuttingNaturally(slices: seq<Slice>, pcm: seq<byte>, bs: seq<Boundary>, total: nat, start: nat, next: nat) {
    && start <= total && next <= |bs| && start * BYTES_PER_FRAME <= |pcm|
    && (forall i :: 0 <= i < next ==> bs[i].frame <= start)
    && (next < |bs| ==> bs[next].frame >= start && (start > 0 ==> bs[next].frame > start))
    && (Sorted(bs[..next]) ==>
          Cuts(slices, pcm[..start * BYTES_PER_FRAME], bs[..next], BYTES_PER_FRAME, NATURAL_SLICE_FRAMES))
    && (Sorted(bs[..next]) || SomeRefused(slices))
  }

  lemma NothingCutNaturally(pcm: seq<byte>, bs: seq<Boundary>)
    ensures CuttingNaturally([], pcm, bs, |pcm| / BYTES_PER_FRAME, 0, 0)
  {
    assert pcm[..0] == [] && bs[..0] == [];
  }

  /** The slice that starts at its offset, with the boundaries from `next` to `after` that it carries. */
  ghost predicate IsNextNaturally(slice: Slice, pcm: seq<byte>, bs: seq<Boundary>, total: nat, next: nat, after: nat, end: nat) {
    && slice.frameOffset < total < UINT64 && slice.frameCount == Min(NATURAL_SLICE_FRAMES, total - slice.frameOffset)
    && end == slice.frameOffset + slice.frameCount && end * BYTES_PER_FRAME <= |pcm|
    && slice.pcm == pcm[slice.frameOffset * BYTES_PER_FRAME..end * BYTES_PER_FRAME]
    && next <= after <= |bs| && |slice.boundaries| == after - next
    && (forall i :: next <= i < after ==> bs[i].frame <= end)
    && (forall i :: 0 <= i < |slice.boundaries| ==>
          slice.boundaries[i] == bs[next + i].(frame := Minus64(bs[next + i].frame, slice.frameOffset)))
    && (after < |bs| ==> bs[after].frame > end)
  }

  method NextNaturalSlice(pcm: seq<byte>, bs: seq<Boundary>, total: nat, start: nat, next: nat)
    returns (slice: Slice, after: nat, end: nat)
    requires |pcm| == total * BYTES_PER_FRAME < UINT64 && start < total && next <= |bs|
    ensures slice.frameOffset == start && end > start
    ensures IsNextNaturally(slice, pcm, bs, total, next, after, end)
  {
    var count := Min(NATURAL_SLICE_FRAMES, total - start);
    end := start + count;
    var carried;
    carried, after := CarryNatural(bs, next, start, end);
    slice := Slice(pcm[start * BYTES_PER_FRAME..end * BYTES_PER_FRAME], carried, start, count);
  }

  lemma CutOnNaturally(slices: seq<Slice>, slice: Slice, pcm: seq<byte>, bs: seq<Boundary>, total: nat, next: nat,
                       after: nat, end: nat)
    requires |pcm| == total * BYTES_PER_FRAME < UINT64
    requires IsNextNaturally(slice, pcm, bs, total, next, after, end)
    requires CuttingNaturally(slices, pcm, bs, total, slice.frameOffset, next)
    ensures CuttingNaturally(slices + [slice], pcm, bs, total, end, after)
  {
    var start := slice.frameOffset;
    CarriedOrdered(bs, next, after, start, slice.frameCount, slice.boundaries);
    SortedJoin(bs, next, after, start);
    if Sorted(bs[..after]) {
      ExtendCut(slices, slice, pcm, bs, start * BYTES_PER_FRAME, end * BYTES_PER_FRAME, next, after,
                BYTES_PER_FRAME, NATURAL_SLICE_FRAMES);
    } else {
      RefusedStays(slices, slice);
    }
  }

  lemma RefusedStays(slices: seq<Slice>, slice: Slice)
    requires SomeRefused(slices) || !InOrder(slice.boundaries, slice.frameCount)
    ensures SomeRefused(slices + [slice])
  {
    var longer := slices + [slice];
    if SomeRefused(slices) {
      var k :| 0 <= k < |slices| && !InOrder(slices[k].boundaries, slices[k].frameCount);
      assert longer[k] == slices[k];
    } else {
      assert longer[|slices|] == slice;
    }
  }

  // ----- What the engine sees ------------------------------------------------------------

  /** Every slice is admitted, one after the other. */
  function AdmitAll(st: RequestModel.Stream, slices: seq<Slice>): RequestModel.Stream {
    if slices == [] then st
    else
      var last := slices[|slices| - 1];
      RequestModel.Admit(AdmitAll(st, slices[..|slices| - 1]), last.pcm, last.boundaries)
  }

  lemma ShiftTwice(bs: seq<Boundary>, a: nat, b: nat)
    ensures Shift(Shift(bs, a), b) == Shift(bs, a + b)
  {
  }

  lemma ShiftConcat(a: seq<Boundary>, b: seq<Boundary>, base: nat)
    ensures Shift(a + b, base) == Shift(a, base) + Shift(b, base)
  {
  }

  /**
   * Slicing preserves meaning: admitting the slices of any cut leaves the stream, byte for byte
   * and boundary for boundary, as admitting the whole at once.
   */
  lemma {:induction false} SlicesAdmitAsOne(st: RequestModel.Stream, slices: seq<Slice>, pcm: seq<byte>,
                                            bs: seq<Boundary>, limit: nat)
    requires Cuts(slices, pcm, bs, BYTES_PER_FRAME, limit)
    ensures AdmitAll(st, slices) == RequestModel.Admit(st, pcm, bs)
  {
    if slices == [] {
      AdmitNothing(st);
    } else {
      var front, last := slices[..|slices| - 1], slices[|slices| - 1];
      FrontIsCut(slices, BYTES_PER_FRAME, limit);
      SlicesAdmitAsOne(st, front, JoinPcm(front), JoinBoundaries(front), limit);
      AdmitTwice(st, JoinPcm(front), JoinBoundaries(front), last);
    }
  }

  lemma AdmitNothing(st: RequestModel.Stream)
    ensures RequestModel.Admit(st, [], []) == st
  {
    assert Shift([], st.acceptedFrames) == [];
    assert st.boundaries + [] == st.boundaries && st.log.boundaries + [] == st.log.boundaries;
    assert st.log.accepted + [] == st.log.accepted;
  }

  lemma FrontIsCut(slices: seq<Slice>, bytesPerFrame: nat, limit: nat)
    requires slices != [] && WellCut(slices, bytesPerFrame, limit)
    ensures WellCut(slices[..|slices| - 1], bytesPerFrame, limit)
  {
    var front := slices[..|slices| - 1];
    assert forall k :: 0 <= k < |front| ==> front[..k] == slices[..k];
  }

  /** Admitting the front and then the last slice is admitting both together. */
  lemma AdmitTwice(st: RequestModel.Stream, pcm: seq<byte>, bs: seq<Boundary>, last: Slice)
    requires |pcm| == last.frameOffset * BYTES_PER_FRAME
    requires |last.pcm| == last.frameCount * BYTES_PER_FRAME
    ensures RequestModel.Admit(RequestModel.Admit(st, pcm, bs), last.pcm, last.boundaries)
         == RequestModel.Admit(st, pcm + last.pcm, bs + Shift(last.boundaries, last.frameOffset))
  {
    var moved := Shift(last.boundaries, last.frameOffset);
    ShiftConcat(bs, moved, st.acceptedFrames);
    ShiftTwice(last.boundaries, last.frameOffset, st.acceptedFrames);
    assert Shift(bs + moved, st.acceptedFrames)
        == Shift(bs, st.acceptedFrames) + Shift(last.boundaries, st.acceptedFrames + last.frameOffset);
    assert (st.boundaries + Shift(bs, st.acceptedFrames)) + Shift(moved, st.acceptedFrames)
        == st.boundaries + Shift(bs + moved, st.acceptedFrames);
    assert (st.log.boundaries + Shift(bs, st.acceptedFrames)) + Shift(moved, st.acceptedFrames)
        == st.log.boundaries + Shift(bs + moved, st.acceptedFrames);
    assert (st.log.accepted + pcm) + last.pcm == st.log.accepted + (pcm + last.pcm);
  }

  /** The two producers' slices leave the request in the same state. */
  lemma SlicersAgree(st: RequestModel.Stream, python: seq<Slice>, natural: seq<Slice>, pcm: seq<byte>,
                     bs: seq<Boundary>, limit: nat)
    requires Cuts(python, pcm, bs, BYTES_PER_FRAME, limit)
    requires Cuts(natural, pcm, bs, BYTES_PER_FRAME, NATURAL_SLICE_FRAMES)
    ensures AdmitAll(st, python) == AdmitAll(st, natural)
  {
    SlicesAdmitAsOne(st, python, pcm, bs, limit);
    SlicesAdmitAsOne(st, natural, pcm, bs, NATURAL_SLICE_FRAMES);
  }

  lemma {:induction false} JoinPrefix(slices: seq<Slice>, count: nat)
    requires count <= |slices|
    ensures JoinPcm(slices[..count]) <= JoinPcm(slices)
    ensures JoinBoundaries(slices[..count]) <= JoinBoundaries(slices)
    decreases |slices| - count
  {
    if count == |slices| {
      assert slices[..count] == slices;
    } else {
      var longer := slices[..count + 1];
      assert longer[..count] == slices[..count];
      JoinPrefix(slices, count + 1);
    }
  }

  /**
   * An interrupted run of slices leaves what one submission of a front part would: the PCM up to
   * the end of the last admitted slice and the boundaries of the admitted slices.
   */
  lemma InterruptedLeavesPrefix(st: RequestModel.Stream, slices: seq<Slice>, pcm: seq<byte>,
                                bs: seq<Boundary>, limit: nat, count: nat)
    requires Cuts(slices, pcm, bs, BYTES_PER_FRAME, limit) && count <= |slices|
    ensures var done := slices[..count];
      && JoinPcm(done) <= pcm && JoinBoundaries(done) <= bs
      && AdmitAll(st, done) == RequestModel.Admit(st, JoinPcm(done), JoinBoundaries(done))
  {
    var done := slices[..count];
    JoinPrefix(slices, count);
    assert forall k :: 0 <= k < |done| ==> done[k] == slices[k] && done[..k] == slices[..k];
    SlicesAdmitAsOne(st, done, JoinPcm(done), JoinBoundaries(done), limit);
  }

  /**
   * With the engine's high water as limit, a slice of boundaries that fit the text is refused
   * only if its byte length does not fit 32 bits, and it never waits behind a silent voice.
   */
  lemma SlicesPassEngineChecks(config: RequestModel.Config, slices: seq<Slice>, pcm: seq<byte>,
                               bs: seq<Boundary>, k: nat)
    requires config.rate > 0
    requires Cuts(slices, pcm, bs, BYTES_PER_FRAME, config.HighWater()) && k < |slices|
    requires forall b :: b in bs ==> FitsText(b, config.textLength)
    ensures RequestModel.CheckSubmission(config, slices[k].pcm, slices[k].boundaries) == Ok
       <==> |slices[k].pcm| <= UINT32_MAX
  {
    SliceFitsText(slices, bs, k, config.textLength);
    assert |slices[k].pcm| / BYTES_PER_FRAME == slices[k].frameCount;
  }

  /** One more slice joins its own boundaries. */
  lemma JoinOneMore(slices: seq<Slice>, k: nat)
    requires k < |slices|
    ensures JoinBoundaries(slices[..k + 1])
         == JoinBoundaries(slices[..k]) + Shift(slices[k].boundaries, slices[k].frameOffset)
  {
    assert slices[..k + 1][..k] == slices[..k];
  }

  /** Where a slice's boundaries stand in the whole list. */
  lemma SliceOfBoundaries(slices: seq<Slice>, k: nat)
    requires k < |slices|
    ensures var from, all := |JoinBoundaries(slices[..k])|, JoinBoundaries(slices);
      && from + |slices[k].boundaries| <= |all|
      && all[from..from + |slices[k].boundaries|] == Shift(slices[k].boundaries, slices[k].frameOffset)
  {
    var front, all := JoinBoundaries(slices[..k]), JoinBoundaries(slices);
    JoinOneMore(slices, k);
    JoinPrefix(slices, k + 1);
    PrefixEnds(front, Shift(slices[k].boundaries, slices[k].frameOffset), all);
  }

  lemma PrefixEnds(front: seq<Boundary>, back: seq<Boundary>, all: seq<Boundary>)
    requires front + back <= all
    ensures |front| + |back| <= |all| && all[|front|..|front| + |back|] == back
  {
    assert all[..|front| + |back|] == front + back;
    assert all[|front|..|front| + |back|] == all[..|front| + |back|][|front|..];
  }

  /** A slice's boundary has the text range of a boundary of the whole. */
  lemma SliceBoundaryIsOriginal(slices: seq<Slice>, k: nat, i: nat)
    requires k < |slices| && i < |slices[k].boundaries|
    ensures var at := |JoinBoundaries(slices[..k])| + i;
      && at < |JoinBoundaries(slices)|
      && JoinBoundaries(slices)[at].position == slices[k].boundaries[i].position
      && JoinBoundaries(slices)[at].length == slices[k].boundaries[i].length
  {
    SliceOfBoundaries(slices, k);
    var from, n := |JoinBoundaries(slices[..k])|, |slices[k].boundaries|;
    assert JoinBoundaries(slices)[from..from + n][i] == JoinBoundaries(slices)[from + i];
  }

  /** A slice's boundaries carry text ranges of the whole. */
  lemma SliceFitsText(slices: seq<Slice>, bs: seq<Boundary>, k: nat, textLength: nat)
    requires k < |slices| && JoinBoundaries(slices) == bs
    requires forall b :: b in bs ==> FitsText(b, textLength)
    ensures forall i :: 0 <= i < |slices[k].boundaries| ==> FitsText(slices[k].boundaries[i], textLength)
  {
    forall i | 0 <= i < |slices[k].boundaries| ensures FitsText(slices[k].boundaries[i], textLength) {
      SliceBoundaryIsOriginal(slices, k, i);
      assert bs[|JoinBoundaries(slices[..k])| + i] in bs;
    }
  }

  /** What slicing gives: a cut, or one empty slice for no audio at all. */
  ghost predicate IsSlicing(slices: seq<Slice>, pcm: seq<byte>, bs: seq<Boundary>, limit: nat) {
    if pcm == [] then slices == [Slice(pcm, bs, 0, 0)] else Cuts(slices, pcm, bs, BYTES_PER_FRAME, limit)
  }

  /** A slice is no longer than the whole, and carries no more boundaries. */
  lemma SliceIsNoLonger(slices: seq<Slice>, k: nat)
    requires k < |slices|
    ensures |slices[k].pcm| <= |JoinPcm(slices)| && |slices[k].boundaries| <= |JoinBoundaries(slices)|
  {
    SliceOfBoundaries(slices, k);
    JoinPrefix(slices, k + 1);
    assert slices[..k + 1][..k] == slices[..k];
  }
}
