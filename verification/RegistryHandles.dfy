/**
 * What a handle is good for: the request that `Create` was asked for, reached by every call with
 * that handle until it is destroyed or the engine is shut down, and by no other.
 */
module RegistryHandles {
  import opened AudioTypes
  import opened RequestRegistry

  // ----- Create --------------------------------------------------------------------------

  /** No section of `Create` is among the steps; everything else may be. */
  predicate OutsideCreate(steps: seq<Step>) {
    forall i :: 0 <= i < |steps| ==>
      !steps[i].DoCreateCheck? && !steps[i].DoCreateStopOld? && !steps[i].DoCreateBuild? && !steps[i].DoCreateRegister?
  }

  /** The same requests in the same order; some may have ended. */
  ghost predicate SameIds(s: State, t: State) {
    |t.objects| == |s.objects| && forall i :: 0 <= i < |s.objects| ==> t.objects[i].id == s.objects[i].id
  }

  lemma {:induction false} OthersLeaveCreate(s: State, steps: seq<Step>)
    requires OutsideCreate(steps)
    ensures var t := Run(s, steps); t.creation == s.creation && SameIds(s, t)
    decreases |steps|
  {
    if steps != [] { OthersLeaveCreate(if Enabled(s, steps[0]) then Apply(s, steps[0]) else s, steps[1..]); }
  }

  lemma {:induction false} RunConcat(s: State, a: seq<Step>, b: seq<Step>)
    ensures Run(s, a + b) == Run(Run(s, a), b)
    decreases |a|
  {
    if a == [] {
      assert a + b == b;
    } else {
      assert (a + b)[1..] == a[1..] + b;
      RunConcat(if Enabled(s, a[0]) then Apply(s, a[0]) else s, a[1..], b);
    }
  }

  /** One step, and then steps outside `Create`. */
  lemma StepThenOthers(s: State, step: Step, others: seq<Step>)
    requires Enabled(s, step) && OutsideCreate(others)
    ensures var t := Run(s, [step] + others);
      t.creation == Apply(s, step).creation && SameIds(Apply(s, step), t)
  {
    assert ([step] + others)[1..] == others;
    OthersLeaveCreate(Apply(s, step), others);
  }

  /**
   * A `Create` that passes its checks builds one new request, with the id it was asked for,
   * whatever happens between its sections; without a voice it builds none.
   */
  lemma CreateBuilds(s: State, id: nat, formatOk: bool, a: seq<Step>, b: seq<Step>, voiceOk: bool, c: seq<Step>)
    requires s.creation.Idle? && CreateCheck(s, id, formatOk).1 == Ok
    requires OutsideCreate(a) && OutsideCreate(b) && OutsideCreate(c)
    ensures var t := Run(s, ([DoCreateCheck(id, formatOk)] + a) + (([DoCreateStopOld] + b) + ([DoCreateBuild(voiceOk)] + c)));
      if voiceOk then
        && t.creation == Built(id, |s.objects|)
        && |t.objects| == |s.objects| + 1 && t.objects[|s.objects|].id == id
      else t.creation.Idle? && |t.objects| == |s.objects|
  {
    var first, second, third := [DoCreateCheck(id, formatOk)] + a, [DoCreateStopOld] + b, [DoCreateBuild(voiceOk)] + c;
    RunConcat(s, first, second + third);
    StepThenOthers(s, DoCreateCheck(id, formatOk), a);
    var checked := Run(s, first);
    RunConcat(checked, second, third);
    StepThenOthers(checked, DoCreateStopOld, b);
    StepThenOthers(Run(checked, second), DoCreateBuild(voiceOk), c);
  }

  /**
   * The last section of `Create` returns a handle unless the engine was closed, and then has
   * ended what it built. The handle is new, and in the table it stands for the request just built.
   */
  lemma HandleReturned(hasSink: bool, steps: seq<Step>)
    requires Run(Init(hasSink), steps).creation.Built?
    ensures var s := Run(Init(hasSink), steps);
      var (t, handle) := CreateRegister(s);
      && t.creation.Idle? && SameIds(s, t)
      && (handle.None? <==> s.closed)
      && (handle.None? ==> t.requests == s.requests && s.creation.ref < |t.objects| && t.objects[s.creation.ref].ended)
      && (handle.Some? ==>
            && handle.value > 0 && handle.value !in s.requests && (forall i :: 0 <= i < |s.issued| ==> s.issued[i].0 < handle.value)
            && t.requests == s.requests[handle.value := s.creation.ref]
            && t.current == Some(s.creation.ref) && t.objects == s.objects)
  {
    RunKeeps(Init(hasSink), steps);
  }

  /** Handles are numbered from 1, in the order in which they are given out. */
  lemma HandlesCount(hasSink: bool, steps: seq<Step>)
    ensures var s := Run(Init(hasSink), steps);
      && (forall i :: 0 <= i < |s.issued| ==> s.issued[i].0 == i + 1)
      && (s.creation.Built? && !s.closed ==> CreateRegister(s).1 == Some(|s.issued| + 1))
  {
    CountingStays(Init(hasSink), steps);
  }

  ghost predicate Counting(s: State) {
    s.nextHandle == |s.issued| + 1 && forall i :: 0 <= i < |s.issued| ==> s.issued[i].0 == i + 1
  }

  lemma {:induction false} CountingStays(s: State, steps: seq<Step>)
    requires Counting(s)
    ensures Counting(Run(s, steps))
    decreases |steps|
  {
    if steps != [] { CountingStays(if Enabled(s, steps[0]) then Apply(s, steps[0]) else s, steps[1..]); }
  }

  // ----- Using a handle ------------------------------------------------------------------

  /** The handle is not destroyed and the engine not shut down. */
  predicate Keeps(steps: seq<Step>, handle: nat) {
    forall i :: 0 <= i < |steps| ==> steps[i] != DoDestroyRemove(handle) && !steps[i].DoShutdownRemove?
  }

  lemma {:induction false} HandleStays(s: State, handle: nat, steps: seq<Step>)
    requires Inv(s) && handle in s.requests && Keeps(steps, handle)
    ensures var t := Run(s, steps); handle in t.requests && t.requests[handle] == s.requests[handle] && Inv(t)
    decreases |steps|
  {
    if steps != [] {
      if Enabled(s, steps[0]) {
        StepKeeps(s, steps[0]);
        HandleStays(Apply(s, steps[0]), handle, steps[1..]);
      } else {
        HandleStays(s, handle, steps[1..]);
      }
    }
  }

  /**
   * From then on, until it is destroyed or the engine is shut down, a handle reaches its request:
   * `Stop` ends that request and no other, and `Destroy` takes it out of the table and ends it.
   */
  lemma HandleReaches(hasSink: bool, steps: seq<Step>, handle: nat, more: seq<Step>)
    requires handle in Run(Init(hasSink), steps).requests && Keeps(more, handle)
    ensures var s := Run(Init(hasSink), steps);
      var t := Run(s, more);
      var ref := s.requests[handle];
      var stopped, removed := StopRequest(t, handle), DestroyRemove(t, handle);
      && handle in t.requests && t.requests[handle] == ref < |t.objects|
      && stopped.1 == Ok && stopped.0 == t.(objects := t.objects[ref := t.objects[ref].(ended := true)])
      && removed.1 == Ok && removed.0.requests == t.requests - {handle} && ref in removed.0.dying
      && !Playing(FinishDestroy(removed.0, ref), ref)
  {
    RunKeeps(Init(hasSink), steps);
    HandleStays(Run(Init(hasSink), steps), handle, more);
  }

  /** A handle that is not in the table reaches nothing, and one that was taken out never comes back. */
  lemma {:induction false} GoneForGood(s: State, handle: nat, steps: seq<Step>)
    requires Inv(s) && handle < s.nextHandle && handle !in s.requests
    ensures var t := Run(s, steps);
      && handle !in t.requests
      && StopRequest(t, handle) == (t, InvalidHandle) && DestroyRemove(t, handle) == (t, InvalidHandle)
    decreases |steps|
  {
    if steps != [] {
      if Enabled(s, steps[0]) {
        StepKeeps(s, steps[0]);
        GoneForGood(Apply(s, steps[0]), handle, steps[1..]);
      } else {
        GoneForGood(s, handle, steps[1..]);
      }
    }
  }

  // ----- Which ids are accepted ----------------------------------------------------------

  /** The last id is that of the last handle given out. */
  ghost predicate LastIssued(s: State) {
    s.lastRequestId == if s.issued == [] then 0 else s.issued[|s.issued| - 1].1
  }

  lemma {:induction false} LastIssuedStays(s: State, steps: seq<Step>)
    requires LastIssued(s)
    ensures LastIssued(Run(s, steps))
    decreases |steps|
  {
    if steps != [] { LastIssuedStays(if Enabled(s, steps[0]) then Apply(s, steps[0]) else s, steps[1..]); }
  }

  /**
   * `Create` goes on exactly for an id above all ids that were given a handle, on an open engine
   * with a sink and a format it knows; otherwise it changes nothing, and says why.
   */
  lemma OnlyNewIds(hasSink: bool, steps: seq<Step>, id: nat, formatOk: bool)
    requires Run(Init(hasSink), steps).creation.Idle?
    ensures var s := Run(Init(hasSink), steps);
      var (t, status) := CreateCheck(s, id, formatOk);
      var isNew := forall i :: 0 <= i < |s.issued| ==> s.issued[i].1 < id;
      && (status == Ok <==> id > 0 && formatOk && !s.closed && s.hasSink && isNew)
      && (status == Ok ==> t == s.(creation := Replacing(id))) && (status != Ok ==> t == s)
      && (status == InvalidRequest <==> id == 0 || (formatOk && !s.closed && s.hasSink && !isNew))
      && (status == InvalidArgument <==> id > 0 && !formatOk)
      && (status == Closed <==> id > 0 && formatOk && s.closed)
  {
    RunKeeps(Init(hasSink), steps);
    LastIssuedStays(Init(hasSink), steps);
  }
}
