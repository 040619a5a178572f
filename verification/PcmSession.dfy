/**
 * The session's filter between the native callback and the application: whatever arrives from
 * the native side, the application sees one well-formed session; and of what the engine sends,
 * nothing is lost.
 */
module PcmSession {
  import opened AudioTypes
  import RequestModel
  import RequestInvariant
  import RequestRuns

  /** A native event as it crosses the interface: kinds and terminal statuses are plain numbers. */
  datatype NativeEvent = NativeEvent(
    kind: nat, requestId: nat, terminalStatus: nat, error: Status,
    position: nat, length: nat, bufferedFrames: int)

  const KIND_STARTED: nat := 1
  const KIND_PLAYED_WORD: nat := 2
  const KIND_UNDERRUN: nat := 3
  const KIND_TERMINAL: nat := 4

  datatype Session = Session(
    requestId: nat, accepting: bool, started: bool, terminal: bool, interrupted: bool, closing: bool, closed: bool)

  function Init(requestId: nat): Session { Session(requestId, true, false, false, false, false, false) }

  /** The terminal status with this number; unknown numbers and NONE become FAILED. */
  function EndingOf(number: nat): (r: Ending)
    ensures r != NotEnded
  {
    match number
    case 1 => Completed
    case 2 => Cancelled
    case 3 => Superseded
    case 4 => Failed
    case 5 => ClosedDown
    case _ => Failed
  }

  /** What the session makes of one native event. */
  function Copy(s: Session, e: NativeEvent): (Session, Option<Event>) {
    if s.closed || e.requestId != s.requestId || s.terminal then (s, None)
    else if e.kind < KIND_STARTED || e.kind > KIND_TERMINAL then (s, None)
    else if e.kind == KIND_STARTED then
      if s.started then (s, None) else (s.(started := true), Some(Started))
    else if !s.started then (s, None)
    else if e.kind == KIND_PLAYED_WORD then (s, Some(PlayedWord(e.position, e.length)))
    else if e.kind == KIND_UNDERRUN then (s, Some(Underrun(e.bufferedFrames)))
    else (s.(terminal := true, accepting := false, interrupted := true),
          Some(Terminal(EndingOf(e.terminalStatus), e.error)))
  }

  /** `finish_input`, and `stop`, which also interrupts, after their native call succeeded. */
  function EndInput(s: Session, stopped: bool): Session {
    s.(accepting := false, interrupted := s.interrupted || stopped)
  }

  /** `close` up to the native call that destroys the request. */
  function BeginClose(s: Session): Session {
    if s.closed then s else s.(closing := true, interrupted := true)
  }

  /** `close` after the native call; a failed one leaves the session open. */
  function EndClose(s: Session, destroyed: bool): Session {
    if !s.closing then s
    else if destroyed then s.(accepting := false, closing := false, closed := true)
    else s.(closing := false)
  }

  /** How the flags of a session belong together. */
  predicate IsConsistent(s: Session) {
    && (s.terminal ==> s.started && !s.accepting && s.interrupted)
    && (s.closing ==> s.interrupted && !s.closed)
    && (s.closed ==> s.interrupted && !s.accepting)
  }

  // ----- Any sequence of native events and calls -----------------------------------------

  datatype Input = Native(event: NativeEvent) | InputEnds(stopped: bool) | CloseBegins | CloseEnds(destroyed: bool)

  /** The session and everything the application was told, after any inputs. */
  function Run(requestId: nat, inputs: seq<Input>): (Session, seq<Event>)
    decreases |inputs|
  {
    if inputs == [] then (Init(requestId), [])
    else
      var (s, told) := Run(requestId, inputs[..|inputs| - 1]);
      match inputs[|inputs| - 1]
      case InputEnds(stopped) => (EndInput(s, stopped), told)
      case CloseBegins => (BeginClose(s), told)
      case CloseEnds(destroyed) => (EndClose(s, destroyed), told)
      case Native(e) =>
        var (t, event) := Copy(s, e);
        (t, if event.Some? then told + [event.value] else told)
  }

  /**
   * Whatever the native side sends (wrong ids, unknown kinds, repeats, bad order), the
   * application is told nothing or one well-formed session, which ends only with a real status.
   */
  lemma {:induction false} ToldIsOneSession(requestId: nat, inputs: seq<Input>)
    ensures var (s, told) := Run(requestId, inputs);
      && s.requestId == requestId && IsConsistent(s)
      && (s.started <==> told != [])
      && (told != [] ==> OneSession(told, s.terminal))
      && (told == [] ==> !s.terminal)
      && (s.terminal ==> told[|told| - 1].ending != NotEnded)
  {
    if inputs != [] { ToldIsOneSession(requestId, inputs[..|inputs| - 1]); }
  }

  // ----- What makes a difference ---------------------------------------------------------

  /** The inputs without the native events of other requests and of unknown kinds. */
  function Own(requestId: nat, inputs: seq<Input>): seq<Input> {
    if inputs == [] then []
    else
      var last := inputs[|inputs| - 1];
      Own(requestId, inputs[..|inputs| - 1])
      + (if last.Native? && (last.event.requestId != requestId || last.event.kind < 1 || last.event.kind > 4) then [] else [last])
  }

  lemma RunMore(requestId: nat, inputs: seq<Input>, input: Input)
    ensures Run(requestId, inputs + [input])
         == var (s, told) := Run(requestId, inputs);
            match input
            case InputEnds(stopped) => (EndInput(s, stopped), told)
            case CloseBegins => (BeginClose(s), told)
            case CloseEnds(destroyed) => (EndClose(s, destroyed), told)
            case Native(e) => (Copy(s, e).0, if Copy(s, e).1.Some? then told + [Copy(s, e).1.value] else told)
  {
    assert (inputs + [input])[..|inputs|] == inputs;
  }

  /** Events of other requests and of unknown kinds make no difference. */
  lemma {:induction false} ForeignIsIgnored(requestId: nat, inputs: seq<Input>)
    ensures Run(requestId, inputs) == Run(requestId, Own(requestId, inputs))
  {
    if inputs != [] {
      var front, last := inputs[..|inputs| - 1], inputs[|inputs| - 1];
      ForeignIsIgnored(requestId, front);
      ToldIsOneSession(requestId, front);
      assert inputs == front + [last];
      RunMore(requestId, front, last);
      RunMore(requestId, Own(requestId, front), last);
      assert Own(requestId, front) + [] == Own(requestId, front);
    }
  }

  /** Once it is closed or has told an ending, a session tells nothing more. */
  lemma {:induction false} DoneIsDeaf(requestId: nat, inputs: seq<Input>, more: seq<Input>)
    requires var s := Run(requestId, inputs).0; s.closed || s.terminal
    ensures var s, t := Run(requestId, inputs), Run(requestId, inputs + more);
      t.1 == s.1 && (s.0.closed ==> t.0.closed) && t.0.terminal == s.0.terminal
  {
    if more == [] {
      assert inputs + more == inputs;
    } else {
      var front, last := more[..|more| - 1], more[|more| - 1];
      DoneIsDeaf(requestId, inputs, front);
      assert inputs + more == (inputs + front) + [last];
      RunMore(requestId, inputs + front, last);
    }
  }

  /**
   * What the flags mean: a session accepts until its input ends, it is closed or has told an
   * ending; a producer is interrupted by a stop, by a close that has begun and by an ending.
   */
  lemma {:induction false} FlagsMean(requestId: nat, inputs: seq<Input>)
    ensures var s := Run(requestId, inputs).0;
      && (s.accepting <==> !s.terminal && !s.closed && forall i :: 0 <= i < |inputs| ==> !inputs[i].InputEnds?)
      && (s.interrupted <==> s.terminal || exists i :: 0 <= i < |inputs| && (inputs[i] == InputEnds(true) || inputs[i] == CloseBegins))
  {
    if inputs != [] {
      var front, last := inputs[..|inputs| - 1], inputs[|inputs| - 1];
      FlagsMean(requestId, front);
      ToldIsOneSession(requestId, front);
      assert inputs == front + [last];
      assert forall i :: 0 <= i < |front| ==> inputs[i] == front[i];
      RunMore(requestId, front, last);
    }
  }

  /** A native status is told as it is; a number that is none of them is told as FAILED. */
  lemma StatusIsTold(ending: Ending, number: nat)
    ensures ending != NotEnded ==> EndingOf(NumberOf(ending)) == ending
    ensures (forall e: Ending :: e != NotEnded ==> NumberOf(e) != number) ==> EndingOf(number) == Failed
  {
    assert NumberOf(Completed) == 1 && NumberOf(Cancelled) == 2 && NumberOf(Superseded) == 3 && NumberOf(Failed) == 4
        && NumberOf(ClosedDown) == 5;
  }

  // ----- The engine's own events ---------------------------------------------------------

  function NumberOf(ending: Ending): nat {
    match ending
    case NotEnded => 0
    case Completed => 1
    case Cancelled => 2
    case Superseded => 3
    case Failed => 4
    case ClosedDown => 5
  }

  /** How the engine's callback passes an event of its request. */
  function ToNative(requestId: nat, e: Event): NativeEvent {
    match e
    case Started => NativeEvent(KIND_STARTED, requestId, 0, Ok, 0, 0, 0)
    case PlayedWord(position, length) => NativeEvent(KIND_PLAYED_WORD, requestId, 0, Ok, position, length, 0)
    case Underrun(frames) => NativeEvent(KIND_UNDERRUN, requestId, 0, Ok, 0, 0, frames)
    case Terminal(ending, error) => NativeEvent(KIND_TERMINAL, requestId, NumberOf(ending), error, 0, 0, 0)
  }

  function AsInputs(requestId: nat, trace: seq<Event>): (r: seq<Input>)
    ensures |r| == |trace|
  {
    seq(|trace|, i requires 0 <= i < |trace| => Native(ToNative(requestId, trace[i])))
  }

  /** A trace the filter passes on whole: STARTED first and only, TERMINAL last with a status. */
  ghost predicate Passable(trace: seq<Event>) {
    && (trace != [] ==> trace[0].Started?)
    && (forall i :: 0 < i < |trace| ==> !trace[i].Started?)
    && (forall i :: 0 <= i < |trace| && trace[i].Terminal? ==>
          i == |trace| - 1 && trace[i].ending != NotEnded)
  }

  /** One event of a passable trace gets through, unchanged. */
  lemma EnginePasses(s: Session, e: Event)
    requires !s.closed && !s.terminal && s.started == !e.Started?
    requires e.Terminal? ==> e.ending != NotEnded
    ensures var (t, told) := Copy(s, ToNative(s.requestId, e));
      && told == Some(e) && t.requestId == s.requestId && !t.closed && t.started && t.terminal == e.Terminal?
  {
  }

  lemma {:induction false} PassableIsPassed(requestId: nat, trace: seq<Event>)
    requires Passable(trace)
    ensures var (s, told) := Run(requestId, AsInputs(requestId, trace));
      && told == trace && s.requestId == requestId && !s.closed
      && (s.started <==> trace != [])
      && (s.terminal <==> trace != [] && trace[|trace| - 1].Terminal?)
  {
    if trace != [] {
      var front, last := trace[..|trace| - 1], trace[|trace| - 1];
      PassableIsPassed(requestId, front);
      var inputs := AsInputs(requestId, trace);
      assert inputs[..|inputs| - 1] == AsInputs(requestId, front);
      EnginePasses(Run(requestId, AsInputs(requestId, front)).0, last);
      assert trace == front + [last];
    }
  }

  /** The same trace, with a `close` that begins after the first `at` events. */
  function AsInputsClosing(requestId: nat, trace: seq<Event>, at: nat): seq<Input>
    requires at <= |trace|
  {
    AsInputs(requestId, trace[..at]) + [CloseBegins] + AsInputs(requestId, trace[at..])
  }

  lemma LastInput(requestId: nat, trace: seq<Event>, at: nat)
    requires at <= |trace|
    ensures var inputs := AsInputsClosing(requestId, trace, at);
      var n := |inputs| - 1;
      if at == |trace| then inputs[..n] == AsInputs(requestId, trace) && inputs[n] == CloseBegins
      else
        && inputs[..n] == AsInputsClosing(requestId, trace[..|trace| - 1], at)
        && inputs[n] == Native(ToNative(requestId, trace[|trace| - 1]))
  {
    if at == |trace| {
      assert trace[..at] == trace;
    } else {
      var front := trace[..|trace| - 1];
      assert front[..at] == trace[..at] && front[at..] == trace[at..][..|trace| - 1 - at];
    }
  }

  /** A closing session still passes everything on; it is deaf only once it is closed. */
  lemma {:induction false} ClosingPasses(requestId: nat, trace: seq<Event>, at: nat)
    requires Passable(trace) && at <= |trace|
    ensures var (s, told) := Run(requestId, AsInputsClosing(requestId, trace, at));
      && told == trace && s.requestId == requestId && !s.closed
      && (s.started <==> trace != [])
      && (s.terminal <==> trace != [] && trace[|trace| - 1].Terminal?)
    decreases |trace| - at
  {
    LastInput(requestId, trace, at);
    if at == |trace| {
      PassableIsPassed(requestId, trace);
    } else {
      var front, last := trace[..|trace| - 1], trace[|trace| - 1];
      ClosingPasses(requestId, front, at);
      EnginePasses(Run(requestId, AsInputsClosing(requestId, front, at)).0, last);
      assert trace == front + [last];
    }
  }

  /**
   * The application is told exactly what the engine delivered, in every run of a request and
   * wherever `close` begins; `Destroy` delivers TERMINAL before it returns, so nothing is missed.
   */
  lemma NothingTheEngineSaysIsLost(config: RequestModel.Config, steps: seq<RequestModel.Step>, requestId: nat, at: nat)
    requires config.rate > 0
    ensures var delivered := RequestModel.Run(RequestModel.Init(config), steps).dispatcher.delivered;
      && Run(requestId, AsInputs(requestId, delivered)).1 == delivered
      && (at <= |delivered| ==> Run(requestId, AsInputsClosing(requestId, delivered, at)).1 == delivered)
  {
    RequestRuns.EveryRun(config, steps);
    RequestRuns.DeliveredOneSession(config, steps);
    var s := RequestModel.Run(RequestModel.Init(config), steps);
    var history := RequestInvariant.History(s.dispatcher);
    assert forall i :: 0 <= i < |s.dispatcher.delivered| ==> s.dispatcher.delivered[i] == history[i];
    PassableIsPassed(requestId, s.dispatcher.delivered);
    if at <= |s.dispatcher.delivered| { ClosingPasses(requestId, s.dispatcher.delivered, at); }
  }

  // ----- The session object --------------------------------------------------------------

  class PcmPlaybackSession {
    const requestId: nat
    var accepting: bool
    var started: bool
    var terminal: bool
    var interrupted: bool
    var closing: bool
    var closed: bool

    ghost function View(): Session
      reads this
    {
      Session(requestId, accepting, started, terminal, interrupted, closing, closed)
    }

    ghost predicate Valid()
      reads this
    {
      IsConsistent(View())
    }

    constructor (requestId: nat)
      ensures Valid() && View() == Init(requestId)
    {
      this.requestId := requestId;
      accepting, started, terminal, interrupted, closing, closed := true, false, false, false, false, false;
    }

    method CopyEventLocked(e: NativeEvent) returns (event: Option<Event>)
      requires Valid()
      modifies this
      ensures Valid() && (View(), event) == Copy(old(View()), e)
    {
      if closed || e.requestId != requestId || terminal { return None; }
      if e.kind < KIND_STARTED || e.kind > KIND_TERMINAL { return None; }
      if e.kind == KIND_STARTED {
        if started { return None; }
        started := true;
        return Some(Started);
      }
      if !started { return None; }
      if e.kind == KIND_PLAYED_WORD { return Some(PlayedWord(e.position, e.length)); }
      if e.kind == KIND_UNDERRUN { return Some(Underrun(e.bufferedFrames)); }
      terminal, accepting, interrupted := true, false, true;
      return Some(Terminal(EndingOf(e.terminalStatus), e.error));
    }

    method InputEnded(stopped: bool)
      requires Valid()
      modifies this
      ensures Valid() && View() == EndInput(old(View()), stopped)
    {
      accepting, interrupted := false, interrupted || stopped;
    }

    /** `close` up to its native call; false when there is nothing left to close. */
    method CloseUntilDestroy() returns (needed: bool)
      requires Valid()
      modifies this
      ensures Valid() && View() == BeginClose(old(View())) && needed == !old(closed)
    {
      if closed { return false; }
      closing, interrupted := true, true;
      return true;
    }

    /** `close` after its native call: a failed one leaves the session as it was, interrupted. */
    method CloseAfterDestroy(destroyed: bool)
      requires Valid() && closing
      modifies this
      ensures Valid() && View() == EndClose(old(View()), destroyed)
    {
      closing := false;
      if destroyed { accepting, closed := false, true; }
    }
  }
}
