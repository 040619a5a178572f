/**
 * The request lifecycle shared by the speech backends: which request is pending or active, and
 * the one ordered stream of events that all requests share.
 */
module Playback {
  import opened AudioTypes

  datatype Request = Request(id: nat, generation: nat, text: string)

  datatype SpeechEvent =
    | SpeechStarted(id: nat)
    | SpeechWord(id: nat, text: string, position: nat, length: nat)
    | SpeechTerminal(id: nat, status: Ending)

  datatype Command = NoCommand | PauseCommand | ResumeCommand

  datatype SubmitError = BadId | ControllerClosed | WorkerFailed | IdNotIncreasing

  datatype SubmitResult = Submitted(request: Request, wasActive: bool) | SubmitRefused(error: SubmitError)

  /** The controller, and (as history) every event delivered so far. */
  datatype State = State(
    pending: Option<Request>,
    active: Option<Request>,
    generation: nat,
    lastId: nat,
    command: Command,
    paused: bool,
    failed: bool,
    closed: bool,
    log: seq<SpeechEvent>)

  function Init(): State { State(None, None, 0, 0, NoCommand, false, false, false, []) }

  function Current(s: State): Option<Request> { if s.active.Some? then s.active else s.pending }

  predicate IsCurrent(s: State, generation: nat) {
    Current(s).Some? && Current(s).value.generation == generation
  }

  predicate IsActive(s: State, generation: nat) {
    s.active.Some? && s.active.value.generation == generation
  }

  /** End the current request, if there is one. */
  function Settle(s: State, status: Ending): State {
    if Current(s).None? then s
    else s.(pending := None, active := None, command := NoCommand, paused := false,
            log := s.log + [SpeechTerminal(Current(s).value.id, status)])
  }

  /** The current request, if any, is superseded by a new one. */
  function Replace(s: State, id: nat, text: string): State {
    var settled := Settle(s, Superseded);
    settled.(lastId := id, generation := s.generation + 1, pending := Some(Request(id, s.generation + 1, text)),
             command := NoCommand, log := settled.log + [SpeechStarted(id)])
  }

  function Submit(s: State, id: nat, text: string): (State, SubmitResult) {
    if id == 0 || id > UINT64_MAX then (s, SubmitRefused(BadId))
    else if s.closed then (s, SubmitRefused(ControllerClosed))
    else if s.failed then (s, SubmitRefused(WorkerFailed))
    else if id <= s.lastId then (s, SubmitRefused(IdNotIncreasing))
    else (Replace(s, id, text), Submitted(Request(id, s.generation + 1, text), Current(s).Some?))
  }

  function Cancel(s: State): (State, bool) {
    if s.closed then (s, false)
    else (Settle(s, Cancelled).(generation := s.generation + 1), Current(s).Some?)
  }

  /** The condition the worker waits for. */
  predicate Ready(s: State) { s.pending.Some? || s.failed || s.closed }

  function NextRequest(s: State): (State, Option<Request>) {
    (s.(pending := None, active := s.pending), s.pending)
  }

  function Close(s: State): (State, bool) {
    if s.closed then (s, false)
    else (Settle(s.(closed := true), ClosedDown).(generation := s.generation + 1), Current(s).Some?)
  }

  function Complete(s: State, generation: nat): State {
    if IsActive(s, generation) then Settle(s, Completed) else s
  }

  function Fail(s: State, generation: Option<nat>): State {
    var failed := s.(failed := true);
    if generation.None? || IsCurrent(s, generation.value) then Settle(failed, Failed) else failed
  }

  function Word(s: State, generation: nat, position: nat, length: nat): State {
    if !IsActive(s, generation) then s
    else
      var request := s.active.value;
      s.(log := s.log + [SpeechWord(request.id, request.text, position, length)])
  }

  function RequestPause(s: State): (State, bool) {
    if s.active.None? || s.paused then (s, false) else (s.(command := PauseCommand), true)
  }

  function RequestResume(s: State): (State, bool) {
    if !s.paused then (s, false) else (s.(command := ResumeCommand), true)
  }

  function PauseNow(s: State): (State, bool) {
    if s.active.None? || s.paused then (s, false) else (s.(paused := true), true)
  }

  function ResumeNow(s: State): (State, bool) {
    if !s.paused then (s, false) else (s.(paused := false), true)
  }

  function ConsumeCommand(s: State): (State, Command) {
    var taken := s.(command := NoCommand);
    match s.command
    case PauseCommand => (taken.(paused := true), PauseCommand)
    case ResumeCommand => if s.paused then (taken.(paused := false), ResumeCommand) else (taken, NoCommand)
    case NoCommand => (taken, NoCommand)
  }

  // ----- The shape of the event stream ---------------------------------------------------

  /** Where a well-formed stream stands: the request whose block is open, and the last id seen. */
  datatype Position = Position(open: Option<nat>, last: nat)

  /**
   * Reads a stream as blocks Started(id), words of id, Terminal(id), with increasing ids.
   * None when the stream is not of that shape.
   */
  function Blocks(log: seq<SpeechEvent>): Option<Position> {
    if log == [] then Some(Position(None, 0))
    else
      var before := Blocks(log[..|log| - 1]);
      if before.None? then None
      else
        var p := before.value;
        match log[|log| - 1]
        case SpeechStarted(id) => if p.open.None? && id > p.last then Some(Position(Some(id), id)) else None
        case SpeechWord(id, _, _, _) => if p.open == Some(id) then before else None
        case SpeechTerminal(id, status) =>
          if p.open == Some(id) && status != NotEnded then Some(Position(None, p.last)) else None
  }

  /** The event at `i` is a word or the end of the block that the Started at `j` opens. */
  ghost predicate InBlock(log: seq<SpeechEvent>, j: nat, i: nat) {
    && j < i < |log| && log[j] == SpeechStarted(log[i].id)
    && forall k :: j < k < i ==> log[k].SpeechWord? && log[k].id == log[i].id
  }

  /** In a well-formed stream every event lies in a block that an earlier Started opened. */
  lemma {:induction false} BlocksMean(log: seq<SpeechEvent>, i: nat)
    requires Blocks(log).Some? && i < |log|
    ensures log[i].SpeechStarted? ==> 0 < log[i].id <= Blocks(log).value.last
    ensures !log[i].SpeechStarted? ==> exists j: nat :: InBlock(log, j, i)
    decreases |log|
  {
    var front := log[..|log| - 1];
    if i < |front| {
      BlocksMean(front, i);
      if !log[i].SpeechStarted? {
        var j: nat :| InBlock(front, j, i);
        assert InBlock(log, j, i);
      }
    } else if !log[i].SpeechStarted? {
      var j := OpenBlock(front, log[i].id);
      assert InBlock(log, j, i);
    }
  }

  /** The open block of a stream began with its Started and holds only words since. */
  lemma {:induction false} OpenBlock(log: seq<SpeechEvent>, id: nat) returns (j: nat)
    requires Blocks(log).Some? && Blocks(log).value.open == Some(id)
    ensures j < |log| && log[j] == SpeechStarted(id)
    ensures forall k :: j < k < |log| ==> log[k].SpeechWord? && log[k].id == id
  {
    if log[|log| - 1].SpeechStarted? {
      j := |log| - 1;
    } else {
      j := OpenBlock(log[..|log| - 1], id);
      assert forall k :: j < k < |log| - 1 ==> log[k] == log[..|log| - 1][k];
    }
  }

  // ----- Runs ----------------------------------------------------------------------------

  datatype Step =
    | DoSubmit(id: nat, text: string)
    | DoCancel
    | DoNextRequest
    | DoClose
    | DoComplete(generation: nat)
    | DoFail(failing: Option<nat>)
    | DoWord(generation: nat, position: nat, length: nat)
    | DoRequestPause | DoRequestResume | DoPauseNow | DoResumeNow | DoConsumeCommand

  /** The worker asks for the next request only after the last one was settled. */
  predicate Enabled(s: State, step: Step) {
    step.DoNextRequest? ==> Ready(s) && s.active.None?
  }

  function Apply(s: State, step: Step): State {
    match step
    case DoSubmit(id, text) => Submit(s, id, text).0
    case DoCancel => Cancel(s).0
    case DoNextRequest => NextRequest(s).0
    case DoClose => Close(s).0
    case DoComplete(generation) => Complete(s, generation)
    case DoFail(generation) => Fail(s, generation)
    case DoWord(generation, position, length) => Word(s, generation, position, length)
    case DoRequestPause => RequestPause(s).0
    case DoRequestResume => RequestResume(s).0
    case DoPauseNow => PauseNow(s).0
    case DoResumeNow => ResumeNow(s).0
    case DoConsumeCommand => ConsumeCommand(s).0
  }

  function Run(s: State, steps: seq<Step>): State
    decreases |steps|
  {
    if steps == [] then s
    else Run(if Enabled(s, steps[0]) then Apply(s, steps[0]) else s, steps[1..])
  }

  function CurrentId(s: State): Option<nat> {
    if Current(s).Some? then Some(Current(s).value.id) else None
  }

  /** The stream is well formed, and its open block is exactly the pending or active request. */
  ghost predicate Inv(s: State) {
    && Blocks(s.log) == Some(Position(CurrentId(s), s.lastId))
    && (s.pending.None? || s.active.None?)
    && (Current(s).Some? ==> Current(s).value.generation <= s.generation)
    && (s.closed ==> Current(s).None?)
    && (s.paused || s.command == PauseCommand ==> s.active.Some?)
  }

  lemma SettleKeeps(s: State, status: Ending)
    requires Inv(s.(closed := false)) && status != NotEnded
    ensures Inv(Settle(s, status)) && Current(Settle(s, status)).None?
  {
    if Current(s).Some? {
      var longer := Settle(s, status).log;
      assert longer[..|longer| - 1] == s.log;
    }
  }

  lemma SubmitKeeps(s: State, id: nat, text: string)
    requires Inv(s)
    ensures Inv(Submit(s, id, text).0)
  {
    var (t, result) := Submit(s, id, text);
    if result.Submitted? {
      SettleKeeps(s, Superseded);
      assert t.log[..|t.log| - 1] == Settle(s, Superseded).log;
    }
  }

  lemma StepKeeps(s: State, step: Step)
    requires Inv(s) && Enabled(s, step)
    ensures Inv(Apply(s, step))
  {
    match step
    case DoSubmit(id, text) => SubmitKeeps(s, id, text);
    case DoCancel => SettleKeeps(s, Cancelled);
    case DoClose => SettleKeeps(s.(closed := true), ClosedDown);
    case DoComplete(generation) => SettleKeeps(s, Completed);
    case DoFail(generation) => SettleKeeps(s.(failed := true), Failed);
    case DoWord(generation, position, length) =>
      var t := Word(s, generation, position, length);
      if t != s { assert t.log[..|t.log| - 1] == s.log; }
    case _ =>
  }

  lemma {:induction false} RunKeeps(s: State, steps: seq<Step>)
    requires Inv(s)
    ensures Inv(Run(s, steps))
    decreases |steps|
  {
    if steps != [] {
      if Enabled(s, steps[0]) {
        StepKeeps(s, steps[0]);
        RunKeeps(Apply(s, steps[0]), steps[1..]);
      } else {
        RunKeeps(s, steps[1..]);
      }
    }
  }

  /**
   * Over every run the event stream is a sequence of blocks with increasing ids, the open block
   * is exactly the pending or active request, and once the controller is closed none is open.
   */
  lemma EventStream(steps: seq<Step>)
    ensures var s := Run(Init(), steps);
      && Blocks(s.log) == Some(Position(CurrentId(s), s.lastId))
      && (s.closed ==> Blocks(s.log).value.open.None?)
  {
    RunKeeps(Init(), steps);
  }

  lemma StepStaysStale(s: State, step: Step, generation: nat)
    requires Inv(s) && Enabled(s, step) && generation <= s.generation && !IsCurrent(s, generation)
    ensures var t := Apply(s, step); Inv(t) && generation <= t.generation && !IsCurrent(t, generation)
  {
    StepKeeps(s, step);
  }

  /** A generation that is no longer current never becomes current again. */
  lemma {:induction false} StaleStaysStale(s: State, steps: seq<Step>, generation: nat)
    requires Inv(s) && generation <= s.generation && !IsCurrent(s, generation)
    ensures !IsCurrent(Run(s, steps), generation)
    decreases |steps|
  {
    if steps != [] {
      if Enabled(s, steps[0]) {
        StepStaysStale(s, steps[0], generation);
        StaleStaysStale(Apply(s, steps[0]), steps[1..], generation);
      } else {
        StaleStaysStale(s, steps[1..], generation);
      }
    }
  }

  /**
   * What a worker reports for a cancelled or superseded generation never reaches the stream,
   * however late it comes.
   */
  lemma StaleReportsAreDropped(before: seq<Step>, generation: nat, after: seq<Step>, position: nat, length: nat)
    ensures var s := Run(Init(), before);
      var t := Run(s, after);
      generation <= s.generation && !IsCurrent(s, generation) ==>
        && Word(t, generation, position, length) == t
        && Complete(t, generation) == t
        && Fail(t, Some(generation)).log == t.log
  {
    RunKeeps(Init(), before);
    var s := Run(Init(), before);
    if generation <= s.generation && !IsCurrent(s, generation) { StaleStaysStale(s, after, generation); }
  }

  /**
   * The assumption on the worker is exact: taking the next request keeps the stream matched to
   * the controller if and only if no unsettled request is active.
   */
  lemma NextRequestNeedsSettled(s: State)
    requires Inv(s)
    ensures Inv(NextRequest(s).0) <==> s.active.None?
  {
  }

  /** A request is superseded, the worker takes the next one, and then reports that the first one failed. */
  const LATE_FAILURE: seq<Step> := [DoSubmit(1, ""), DoSubmit(2, ""), DoNextRequest, DoFail(Some(1))]

  lemma LateFailureLeaves()
    ensures var s := Run(Init(), LATE_FAILURE); s.pending.None? && s.active == Some(Request(2, 2, "")) && s.failed
  {
    var first := Apply(Init(), DoSubmit(1, ""));
    assert first.pending == Some(Request(1, 1, "")) && first.active.None? && first.lastId == 1 && first.generation == 1;
    var second := Apply(first, DoSubmit(2, ""));
    assert second.pending == Some(Request(2, 2, "")) && second.active.None?;
    var taken := Apply(second, DoNextRequest);
    assert taken.active == Some(Request(2, 2, "")) && taken.pending.None?;
    LastStep(taken, DoFail(Some(1)));
    assert LATE_FAILURE[1..] == [DoSubmit(2, ""), DoNextRequest, DoFail(Some(1))];
    assert LATE_FAILURE[1..][1..] == [DoNextRequest, DoFail(Some(1))];
    assert [DoNextRequest, DoFail(Some(1))][1..] == [DoFail(Some(1))];
  }

  lemma LastStep(s: State, step: Step)
    requires Enabled(s, step)
    ensures Run(s, [step]) == Apply(s, step)
  {
    assert [step][1..] == [];
  }

  /** Such a state exists: after the late failure of a superseded request the active one is unsettled. */
  lemma UnsettledAfterFail()
    ensures var s := Run(Init(), LATE_FAILURE);
      Inv(s) && Ready(s) && s.active.Some? && Blocks(NextRequest(s).0.log).value.open != CurrentId(NextRequest(s).0)
  {
    RunKeeps(Init(), LATE_FAILURE);
    LateFailureLeaves();
  }

  // ----- The controller object -----------------------------------------------------------

  class PlaybackController {
    var pendingRequest: Option<Request>
    var activeRequest: Option<Request>
    var generation: nat
    var lastRequestId: nat
    var pendingCommand: Command
    var paused: bool
    var failed: bool
    var closed: bool
    ghost var log: seq<SpeechEvent>

    ghost function View(): State
      reads this
    {
      State(pendingRequest, activeRequest, generation, lastRequestId, pendingCommand, paused, failed, closed, log)
    }

    ghost predicate Valid()
      reads this
    {
      Inv(View())
    }

    constructor ()
      ensures Valid() && View() == Init()
    {
      pendingRequest, activeRequest := None, None;
      generation, lastRequestId, pendingCommand := 0, 0, NoCommand;
      paused, failed, closed, log := false, false, false, [];
    }

    method CurrentRequest() returns (request: Option<Request>)
      ensures request == Current(View())
    {
      request := if activeRequest.Some? then activeRequest else pendingRequest;
    }

    /** Ends the current request and appends its terminal event to the deliveries. */
    method SettleCurrent(status: Ending, deliveries: seq<SpeechEvent>) returns (all: seq<SpeechEvent>)
      modifies this`pendingRequest, this`activeRequest, this`pendingCommand, this`paused
      ensures deliveries <= all
      ensures View().(log := old(log) + all[|deliveries|..]) == Settle(old(View()), status)
    {
      var request := CurrentRequest();
      all := deliveries;
      if request.None? {
        assert old(log) + all[|deliveries|..] == old(log);
        return;
      }
      pendingRequest, activeRequest := None, None;
      pendingCommand, paused := NoCommand, false;
      all := deliveries + [SpeechTerminal(request.value.id, status)];
    }

    /** Runs the callbacks, in order, while the delivery lock is held. */
    method Deliver(deliveries: seq<SpeechEvent>)
      modifies this`log
      ensures log == old(log) + deliveries
    {
      var i := 0;
      while i < |deliveries|
        invariant 0 <= i <= |deliveries|
        invariant log == old(log) + deliveries[..i]
      {
        assert deliveries[..i + 1] == deliveries[..i] + [deliveries[i]];
        log := log + [deliveries[i]];
        i := i + 1;
      }
      assert deliveries[..i] == deliveries;
    }

    method ReplaceCurrent(id: nat, text: string)
      modifies this
      ensures View() == Replace(old(View()), id, text)
    {
      lastRequestId := id;
      var deliveries := SettleCurrent(Superseded, []);
      generation := generation + 1;
      pendingRequest := Some(Request(id, generation, text));
      pendingCommand := NoCommand;
      Deliver(deliveries + [SpeechStarted(id)]);
      assert log == (old(log) + deliveries) + [SpeechStarted(id)];
    }

    method SubmitRequest(id: nat, text: string) returns (result: SubmitResult)
      requires Valid()
      modifies this
      ensures (View(), result) == Submit(old(View()), id, text)
      ensures Valid()
    {
      StepKeeps(View(), DoSubmit(id, text));
      if id == 0 || id > UINT64_MAX { return SubmitRefused(BadId); }
      if closed { return SubmitRefused(ControllerClosed); }
      if failed { return SubmitRefused(WorkerFailed); }
      if id <= lastRequestId { return SubmitRefused(IdNotIncreasing); }
      var current := CurrentRequest();
      ReplaceCurrent(id, text);
      return Submitted(Request(id, generation, text), current.Some?);
    }

    method CancelCurrent() returns (wasActive: bool)
      requires Valid()
      modifies this
      ensures (View(), wasActive) == Cancel(old(View()))
      ensures Valid()
    {
      StepKeeps(View(), DoCancel);
      if closed { return false; }
      var current := CurrentRequest();
      var deliveries := SettleCurrent(Cancelled, []);
      generation := generation + 1;
      Deliver(deliveries);
      return current.Some?;
    }

    method TakeNextRequest() returns (request: Option<Request>)
      requires Valid() && Ready(View())
      modifies this
      ensures (View(), request) == NextRequest(old(View()))
      ensures Valid() <==> old(activeRequest).None?
    {
      NextRequestNeedsSettled(View());
      request := pendingRequest;
      pendingRequest := None;
      activeRequest := request;
    }

    method CloseController() returns (wasActive: bool)
      requires Valid()
      modifies this
      ensures (View(), wasActive) == Close(old(View()))
      ensures Valid()
    {
      StepKeeps(View(), DoClose);
      if closed { return false; }
      closed := true;
      var current := CurrentRequest();
      var deliveries := SettleCurrent(ClosedDown, []);
      generation := generation + 1;
      Deliver(deliveries);
      return current.Some?;
    }

    method CompleteGeneration(finished: nat)
      requires Valid()
      modifies this
      ensures View() == Complete(old(View()), finished)
      ensures Valid()
    {
      StepKeeps(View(), DoComplete(finished));
      if activeRequest.Some? && activeRequest.value.generation == finished {
        var deliveries := SettleCurrent(Completed, []);
        Deliver(deliveries);
      }
    }

    method FailGeneration(failing: Option<nat>)
      requires Valid()
      modifies this
      ensures View() == Fail(old(View()), failing)
      ensures Valid()
    {
      failed := true;
      var current := CurrentRequest();
      if failing.None? || (current.Some? && current.value.generation == failing.value) {
        var deliveries := SettleCurrent(Failed, []);
        Deliver(deliveries);
      }
      StepKeeps(old(View()), DoFail(failing));
    }

    method PlayedWord(playing: nat, position: nat, length: nat)
      requires Valid()
      modifies this
      ensures View() == Word(old(View()), playing, position, length)
      ensures Valid()
    {
      StepKeeps(View(), DoWord(playing, position, length));
      if activeRequest.None? || activeRequest.value.generation != playing { return; }
      Deliver([SpeechWord(activeRequest.value.id, activeRequest.value.text, position, length)]);
    }

    method TakeCommand() returns (command: Command)
      requires Valid()
      modifies this
      ensures (View(), command) == ConsumeCommand(old(View()))
      ensures Valid()
    {
      StepKeeps(View(), DoConsumeCommand);
      command := pendingCommand;
      pendingCommand := NoCommand;
      if command == PauseCommand {
        paused := true;
      } else if command == ResumeCommand {
        if paused { paused := false; } else { command := NoCommand; }
      }
    }

    /** `request_pause` and `request_resume`: leave a command for the worker. */
    method RequestCommand(pause: bool) returns (asked: bool)
      requires Valid()
      modifies this
      ensures (View(), asked) == if pause then RequestPause(old(View())) else RequestResume(old(View()))
      ensures Valid()
    {
      StepKeeps(View(), if pause then DoRequestPause else DoRequestResume);
      asked := if pause then activeRequest.Some? && !paused else paused;
      if asked { pendingCommand := if pause then PauseCommand else ResumeCommand; }
    }

    method SetPaused(pause: bool) returns (changed: bool)
      requires Valid()
      modifies this
      ensures (View(), changed) == if pause then PauseNow(old(View())) else ResumeNow(old(View()))
      ensures Valid()
    {
      StepKeeps(View(), if pause then DoPauseNow else DoResumeNow);
      changed := if pause then activeRequest.Some? && !paused else paused;
      if changed { paused := pause; }
    }
  }
}
