/** Values shared by the playback engine and the code that feeds it. */
module AudioTypes {

  datatype Option<+T> = None | Some(value: T)

  newtype byte = x: int | 0 <= x < 0x100

  /** The status codes of the native interface. */
  datatype Status =
    | Ok | InvalidArgument | WrongState | InvalidHandle | InvalidRequest
    | InvalidBoundary | DeviceError | Closed | InternalError

  /** How a request ended; `NotEnded` is the native sentinel NONE. */
  datatype Ending = NotEnded | Completed | Cancelled | Superseded | Failed | ClosedDown

  /** A played-word boundary: a frame and a UTF-16 range of the request text. */
  datatype Boundary = Boundary(frame: nat, position: nat, length: nat)

  datatype Event =
    | Started
    | PlayedWord(position: nat, length: nat)
    | Underrun(bufferedFrames: int)
    | Terminal(ending: Ending, error: Status)

  const UINT32_MAX: nat := 0xFFFF_FFFF

  const UINT64_MAX: nat := 0xFFFF_FFFF_FFFF_FFFF

  /** The engine only accepts mono 16-bit PCM, so a frame is two bytes. */
  const BYTES_PER_FRAME: nat := 2

  function Max(x: int, y: int): int { if x < y then y else x }

  function Min(x: int, y: int): int { if x < y then x else y }

  /** Boundaries moved by `base` frames; text ranges are never rewritten. */
  function Shift(bs: seq<Boundary>, base: nat): (r: seq<Boundary>)
    ensures |r| == |bs|
  {
    seq(|bs|, i requires 0 <= i < |bs| => bs[i].(frame := base + bs[i].frame))
  }

  ghost predicate Sorted(bs: seq<Boundary>) {
    forall i, j :: 0 <= i < j < |bs| ==> bs[i].frame <= bs[j].frame
  }

  /** A non-empty UTF-16 range inside a request text of `textLength` units. */
  predicate FitsText(b: Boundary, textLength: nat) {
    b.length != 0 && b.position <= textLength && b.length <= textLength - b.position
  }

  /** What one submission of `frames` frames may carry. */
  ghost predicate ValidBoundaries(bs: seq<Boundary>, frames: nat, textLength: nat) {
    && Sorted(bs)
    && forall i :: 0 <= i < |bs| ==> bs[i].frame <= frames && FitsText(bs[i], textLength)
  }

  /**
   * The one shape a request's events may take: STARTED first and once, then words and
   * underruns, and, exactly when the request has ended, one TERMINAL with nothing after it.
   */
  ghost predicate OneSession(trace: seq<Event>, ended: bool) {
    && |trace| > 0 && trace[0].Started?
    && (forall i :: 0 < i < |trace| ==> !trace[i].Started?)
    && (forall i :: 0 <= i < |trace| ==> (trace[i].Terminal? <==> ended && i == |trace| - 1))
  }

  /** The text ranges of the played words in a trace, in order. */
  function WordsOf(trace: seq<Event>): seq<(nat, nat)> {
    if trace == [] then []
    else
      var last := trace[|trace| - 1];
      WordsOf(trace[..|trace| - 1]) +
      (if last.PlayedWord? then [(last.position, last.length)] else [])
  }

  lemma {:induction false} WordsOfConcat(a: seq<Event>, b: seq<Event>)
    ensures WordsOf(a + b) == WordsOf(a) + WordsOf(b)
  {
    if b == [] {
      assert a + b == a;
    } else {
      assert (a + b)[..|a + b| - 1] == a + b[..|b| - 1];
      WordsOfConcat(a, b[..|b| - 1]);
    }
  }
}
