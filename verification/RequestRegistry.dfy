/**
 * Which requests exist and which may still play: `Create`, `Stop`, `Destroy` and `Shutdown` of
 * the engine, in any interleaving. `Create` is serialized by its own mutex but runs in four
 * sections, because it stops the old request and builds the new one outside the engine's mutex;
 * `Destroy` and `Shutdown` likewise remove requests first and end them afterwards.
 *
 * A request is only known here by its id and whether it has ended; that an ending is never
 * taken back is `RequestRuns.RunContinues`.
 */
module RequestRegistry {
  import opened AudioTypes

  /** A request object; `Ref` is its place in the order of construction. */
  datatype Request = Request(id: nat, ended: bool)

  type Ref = nat

  datatype Creation =
    | Idle
    | Replacing(id: nat)          // passed the checks, the old request is about to be stopped
    | Replaced(id: nat)           // the old request was stopped
    | Built(id: nat, ref: Ref)    // the new request plays but is not registered

  datatype State = State(
    hasSink: bool,
    objects: seq<Request>,
    requests: map<nat, Ref>,
    current: Option<Ref>,
    nextHandle: nat,
    lastRequestId: nat,
    closed: bool,
    creation: Creation,
    dying: set<Ref>,              // removed by Destroy or Shutdown, not yet ended
    issued: seq<(nat, nat)>)      // history: every handle given out, with its request id

  function Init(hasSink: bool): State {
    State(hasSink, [], map[], None, 1, 0, false, Idle, {}, [])
  }

  function End(s: State, ref: Ref): State {
    if ref < |s.objects| then s.(objects := s.objects[ref := s.objects[ref].(ended := true)]) else s
  }

  // ----- Sections ------------------------------------------------------------------------

  /** The checks of `Create`; Ok means the old request is stopped next. */
  function CreateCheck(s: State, id: nat, formatOk: bool): (State, Status) {
    if id == 0 then (s, InvalidRequest)
    else if !formatOk then (s, InvalidArgument)
    else if s.closed then (s, Closed)
    else if !s.hasSink then (s, DeviceError)
    else if id <= s.lastRequestId then (s, InvalidRequest)
    else (s.(creation := Replacing(id)), Ok)
  }

  function CreateStopOld(s: State): State
    requires s.creation.Replacing?
  {
    var stopped := if s.current.Some? then End(s, s.current.value) else s;
    stopped.(creation := Replaced(s.creation.id))
  }

  function CreateBuild(s: State, voiceOk: bool): (State, Status)
    requires s.creation.Replaced?
  {
    if voiceOk then
      (s.(objects := s.objects + [Request(s.creation.id, false)],
          creation := Built(s.creation.id, |s.objects|)), Ok)
    else (s.(creation := Idle), DeviceError)
  }

  /** The last section of `Create`: the handle, or None when the engine closed meanwhile. */
  function CreateRegister(s: State): (State, Option<nat>)
    requires s.creation.Built?
  {
    var ref := s.creation.ref;
    if s.closed then (End(s, ref).(creation := Idle), None)
    else
      (s.(requests := s.requests[s.nextHandle := ref],
          current := Some(ref),
          nextHandle := s.nextHandle + 1,
          lastRequestId := s.creation.id,
          creation := Idle,
          issued := s.issued + [(s.nextHandle, s.creation.id)]),
       Some(s.nextHandle))
  }

  function StopRequest(s: State, handle: nat): (State, Status) {
    if handle in s.requests then (End(s, s.requests[handle]), Ok) else (s, InvalidHandle)
  }

  function DestroyRemove(s: State, handle: nat): (State, Status) {
    if handle in s.requests then
      (s.(requests := s.requests - {handle}, dying := s.dying + {s.requests[handle]}), Ok)
    else (s, InvalidHandle)
  }

  function ShutdownRemove(s: State): State {
    if s.closed then s
    else s.(closed := true, requests := map[], dying := s.dying + s.requests.Values)
  }

  /** The Destroy of a removed request returns. */
  function FinishDestroy(s: State, ref: Ref): State {
    End(s, ref).(dying := s.dying - {ref})
  }

  // ----- Runs ----------------------------------------------------------------------------

  datatype Step =
    | DoCreateCheck(id: nat, formatOk: bool)
    | DoCreateStopOld
    | DoCreateBuild(voiceOk: bool)
    | DoCreateRegister
    | DoStop(handle: nat)
    | DoDestroyRemove(handle: nat)
    | DoShutdownRemove
    | DoFinishDestroy(ref: Ref)
    | DoEnd(ref: Ref)             // a request completes or fails on its own

  predicate Enabled(s: State, step: Step) {
    match step
    case DoCreateCheck(_, _) => s.creation.Idle?
    case DoCreateStopOld => s.creation.Replacing?
    case DoCreateBuild(_) => s.creation.Replaced?
    case DoCreateRegister => s.creation.Built?
    case DoFinishDestroy(ref) => ref in s.dying
    case _ => true
  }

  function Apply(s: State, step: Step): State
    requires Enabled(s, step)
  {
    match step
    case DoCreateCheck(id, formatOk) => CreateCheck(s, id, formatOk).0
    case DoCreateStopOld => CreateStopOld(s)
    case DoCreateBuild(voiceOk) => CreateBuild(s, voiceOk).0
    case DoCreateRegister => CreateRegister(s).0
    case DoStop(handle) => StopRequest(s, handle).0
    case DoDestroyRemove(handle) => DestroyRemove(s, handle).0
    case DoShutdownRemove => ShutdownRemove(s)
    case DoFinishDestroy(ref) => FinishDestroy(s, ref)
    case DoEnd(ref) => End(s, ref)
  }

  function Run(s: State, steps: seq<Step>): State
    decreases |steps|
  {
    if steps == [] then s
    else Run(if Enabled(s, steps[0]) then Apply(s, steps[0]) else s, steps[1..])
  }

  // ----- Invariant -----------------------------------------------------------------------

  predicate Playing(s: State, ref: Ref) { ref < |s.objects| && !s.objects[ref].ended }

  /** The only request that can still be playing, if any. */
  function Candidate(s: State): Option<Ref> {
    match s.creation
    case Idle => s.current
    case Replacing(_) => s.current
    case Replaced(_) => None
    case Built(_, ref) => Some(ref)
  }

  /** Who will end a playing request: a registered handle, a Destroy under way, or this Create. */
  ghost predicate Owned(s: State, ref: Ref) {
    || ref in s.requests.Values
    || ref in s.dying
    || (s.creation.Built? && s.creation.ref == ref)
  }

  ghost predicate Inv(s: State) {
    && (forall ref: Ref :: Playing(s, ref) ==> Candidate(s) == Some(ref))
    && (forall ref: Ref :: Playing(s, ref) ==> Owned(s, ref))
    && (s.closed ==> s.requests == map[])
    && (forall handle :: handle in s.requests ==>
          handle < s.nextHandle && s.requests[handle] < |s.objects|)
    && s.nextHandle > 0
    && (s.creation != Idle ==> s.creation.id > s.lastRequestId)
    && (s.creation.Built? ==> s.creation.ref < |s.objects|)
    && (forall i, j :: 0 <= i < j < |s.issued| ==>
          s.issued[i].0 < s.issued[j].0 && s.issued[i].1 < s.issued[j].1)
    && (forall i :: 0 <= i < |s.issued| ==>
          0 < s.issued[i].0 < s.nextHandle && s.issued[i].1 <= s.lastRequestId)
  }

  lemma RegisterKeeps(s: State)
    requires Inv(s) && s.creation.Built?
    ensures Inv(CreateRegister(s).0)
  {
    var t := CreateRegister(s).0;
    var built := s.creation.ref;
    if !s.closed {
      assert t.requests[s.nextHandle] == built;
      forall ref: Ref | Playing(t, ref) ensures Candidate(t) == Some(ref) && Owned(t, ref) {
        assert Playing(s, ref);
        assert t.requests[s.nextHandle] in t.requests.Values;
      }
    }
  }

  lemma RemoveKeeps(s: State, handle: nat)
    requires Inv(s) && handle in s.requests
    ensures Inv(DestroyRemove(s, handle).0)
  {
    var t := DestroyRemove(s, handle).0;
    forall ref: Ref | Playing(t, ref) ensures Owned(t, ref) {
      assert Playing(s, ref);
      if ref in s.requests.Values {
        var h :| h in s.requests && s.requests[h] == ref;
        assert h == handle || t.requests[h] == ref;
      }
    }
  }

  lemma EndKeeps(s: State, ref: Ref)
    requires Inv(s)
    ensures Inv(End(s, ref))
    ensures !Playing(End(s, ref), ref)
  {
    forall other: Ref | Playing(End(s, ref), other) ensures Playing(s, other) {
    }
  }

  lemma StopOldKeeps(s: State)
    requires Inv(s) && s.creation.Replacing?
    ensures Inv(CreateStopOld(s))
  {
    if s.current.Some? { EndKeeps(s, s.current.value); }
    forall ref: Ref | Playing(CreateStopOld(s), ref) ensures false {
      assert Playing(s, ref);
    }
  }

  lemma BuildKeeps(s: State, voiceOk: bool)
    requires Inv(s) && s.creation.Replaced?
    ensures Inv(CreateBuild(s, voiceOk).0)
  {
    var t := CreateBuild(s, voiceOk).0;
    forall ref: Ref | Playing(t, ref) ensures voiceOk && ref == |s.objects| {
      assert ref == |s.objects| || Playing(s, ref);
    }
  }

  lemma ShutdownKeeps(s: State)
    requires Inv(s)
    ensures Inv(ShutdownRemove(s))
  {
    forall ref: Ref | Playing(ShutdownRemove(s), ref) ensures Playing(s, ref) {
    }
  }

  lemma FinishKeeps(s: State, ref: Ref)
    requires Inv(s)
    ensures Inv(FinishDestroy(s, ref))
  {
    EndKeeps(s, ref);
    forall other: Ref | Playing(FinishDestroy(s, ref), other) ensures Playing(End(s, ref), other) {
    }
  }

  lemma CheckKeeps(s: State, id: nat, formatOk: bool)
    requires Inv(s) && s.creation.Idle?
    ensures Inv(CreateCheck(s, id, formatOk).0)
  {
    forall ref: Ref | Playing(CreateCheck(s, id, formatOk).0, ref) ensures Playing(s, ref) {
    }
  }

  lemma StepKeeps(s: State, step: Step)
    requires Inv(s) && Enabled(s, step)
    ensures Inv(Apply(s, step))
  {
    match step
    case DoCreateCheck(id, formatOk) => CheckKeeps(s, id, formatOk);
    case DoCreateStopOld => StopOldKeeps(s);
    case DoCreateBuild(voiceOk) => BuildKeeps(s, voiceOk);
    case DoCreateRegister => RegisterKeeps(s);
    case DoStop(handle) => if handle in s.requests { EndKeeps(s, s.requests[handle]); }
    case DoDestroyRemove(handle) => if handle in s.requests { RemoveKeeps(s, handle); }
    case DoShutdownRemove => ShutdownKeeps(s);
    case DoFinishDestroy(ref) => FinishKeeps(s, ref);
    case DoEnd(ref) => EndKeeps(s, ref);
  }

  lemma {:induction false} RunKeeps(s: State, steps: seq<Step>)
    requires Inv(s)
    ensures Inv(Run(s, steps))
    decreases |steps|
  {
    if steps != [] {
      if Enabled(s, steps[0]) {
        StepKeeps(s, steps[0]);
        RunKeeps(Apply(s, steps[0]), steps[1..]);
      } else {
        RunKeeps(s, steps[1..]);
      }
    }
  }

  // ----- What callers rely on ------------------------------------------------------------

  /** Two requests never play at the same time. */
  lemma AtMostOnePlays(hasSink: bool, steps: seq<Step>, a: Ref, b: Ref)
    ensures var s := Run(Init(hasSink), steps);
      Playing(s, a) && Playing(s, b) ==> a == b
  {
    RunKeeps(Init(hasSink), steps);
  }

  /** Handles are never given out twice, and accepted request ids strictly increase. */
  lemma HandlesAreFresh(hasSink: bool, steps: seq<Step>)
    ensures var s := Run(Init(hasSink), steps);
      forall i, j :: 0 <= i < j < |s.issued| ==>
        s.issued[i].0 != s.issued[j].0 && s.issued[i].1 < s.issued[j].1
  {
    RunKeeps(Init(hasSink), steps);
  }

  /**
   * Once `Shutdown` was entered, every request that still plays is being ended by a Destroy or
   * belongs to a Create that will end it; when those have returned nothing plays, for good.
   */
  lemma NothingPlaysAfterShutdown(hasSink: bool, steps: seq<Step>, more: seq<Step>, ref: Ref)
    ensures var s := Run(Init(hasSink), steps);
      s.closed ==>
        && (Playing(s, ref) ==> ref in s.dying || (s.creation.Built? && s.creation.ref == ref))
        && (s.dying == {} && s.creation.Idle? ==>
              !Playing(Run(s, more), ref))
  {
    var s := Run(Init(hasSink), steps);
    RunKeeps(Init(hasSink), steps);
    if s.closed && s.dying == {} && s.creation.Idle? {
      QuietStaysQuiet(s, more);
      assert Playing(Run(s, more), ref) ==> Owned(Run(s, more), ref);
    }
  }

  /** A closed engine with nothing under way stays that way. */
  lemma {:induction false} QuietStaysQuiet(s: State, steps: seq<Step>)
    requires Inv(s) && s.closed && s.dying == {} && s.creation.Idle?
    ensures var t := Run(s, steps); Inv(t) && t.closed && t.dying == {} && t.creation.Idle?
    decreases |steps|
  {
    if steps != [] {
      if Enabled(s, steps[0]) {
        StepKeeps(s, steps[0]);
        QuietStaysQuiet(Apply(s, steps[0]), steps[1..]);
      } else {
        QuietStaysQuiet(s, steps[1..]);
      }
    }
  }

  // ----- The engine object ---------------------------------------------------------------

  /** The engine as an object; each method is one section run under the engine's mutex. */
  class AudioEngine {
    const hasSink: bool
    var objects: seq<Request>
    var requests: map<nat, Ref>
    var current: Option<Ref>
    var nextHandle: nat
    var lastRequestId: nat
    var closed: bool
    var creation: Creation
    var dying: set<Ref>
    ghost var issued: seq<(nat, nat)>

    ghost function View(): State
      reads this
    {
      State(hasSink, objects, requests, current, nextHandle, lastRequestId, closed, creation, dying, issued)
    }

    ghost predicate Valid()
      reads this
    {
      Inv(View())
    }

    constructor (hasSink: bool)
      ensures Valid() && View() == Init(hasSink)
    {
      this.hasSink := hasSink;
      objects, requests, current := [], map[], None;
      nextHandle, lastRequestId, closed := 1, 0, false;
      creation, dying, issued := Idle, {}, [];
    }

    method EndRequest(ref: Ref)
      modifies this`objects
      ensures View() == End(old(View()), ref)
    {
      if ref < |objects| { objects := objects[ref := objects[ref].(ended := true)]; }
    }

    method BeginCreate(id: nat, formatOk: bool) returns (status: Status)
      requires Valid() && creation.Idle?
      modifies this
      ensures (View(), status) == CreateCheck(old(View()), id, formatOk)
      ensures Valid()
    {
      StepKeeps(View(), DoCreateCheck(id, formatOk));
      if id == 0 { return InvalidRequest; }
      if !formatOk { return InvalidArgument; }
      if closed { return Closed; }
      if !hasSink { return DeviceError; }
      if id <= lastRequestId { return InvalidRequest; }
      creation := Replacing(id);
      return Ok;
    }

    method StopOldRequest()
      requires Valid() && creation.Replacing?
      modifies this
      ensures View() == CreateStopOld(old(View()))
      ensures Valid()
    {
      StepKeeps(View(), DoCreateStopOld);
      if current.Some? { EndRequest(current.value); }
      creation := Replaced(creation.id);
    }

    method BuildRequest(voiceOk: bool) returns (status: Status)
      requires Valid() && creation.Replaced?
      modifies this
      ensures (View(), status) == CreateBuild(old(View()), voiceOk)
      ensures Valid()
    {
      StepKeeps(View(), DoCreateBuild(voiceOk));
      if !voiceOk {
        creation := Idle;
        return DeviceError;
      }
      creation := Built(creation.id, |objects|);
      objects := objects + [Request(creation.id, false)];
      return Ok;
    }

    method RegisterRequest() returns (handle: Option<nat>)
      requires Valid() && creation.Built?
      modifies this
      ensures (View(), handle) == CreateRegister(old(View()))
      ensures Valid()
    {
      StepKeeps(View(), DoCreateRegister);
      var ref := creation.ref;
      if closed {
        EndRequest(ref);
        creation := Idle;
        return None;
      }
      handle := Some(nextHandle);
      issued := issued + [(nextHandle, creation.id)];
      requests := requests[nextHandle := ref];
      nextHandle := nextHandle + 1;
      current := Some(ref);
      lastRequestId := creation.id;
      creation := Idle;
    }

    method RemoveForDestroy(handle: nat) returns (status: Status)
      requires Valid()
      modifies this
      ensures (View(), status) == DestroyRemove(old(View()), handle)
      ensures Valid()
    {
      StepKeeps(View(), DoDestroyRemove(handle));
      if handle !in requests { return InvalidHandle; }
      dying := dying + {requests[handle]};
      requests := requests - {handle};
      return Ok;
    }

    /** Takes every registered request over, one by one, and empties the registry. */
    method RemoveForShutdown()
      requires Valid()
      modifies this
      ensures View() == ShutdownRemove(old(View()))
      ensures Valid()
    {
      StepKeeps(View(), DoShutdownRemove);
      if closed { return; }
      closed := true;
      var handles := requests.Keys;
      while handles != {}
        invariant handles <= requests.Keys
        invariant dying == old(dying) + set h | h in requests.Keys - handles :: requests[h]
        invariant View() == old(View()).(closed := true, dying := dying)
        decreases handles
      {
        var handle :| handle in handles;
        dying := dying + {requests[handle]};
        handles := handles - {handle};
      }
      assert (set h | h in requests.Keys :: requests[h]) == requests.Values;
      requests := map[];
    }
  }
}
