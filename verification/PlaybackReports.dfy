/**
 * What each call on the playback controller tells the application: every accepted request is
 * started, told exactly the words reported while it was active, and ended for the reason given.
 */
module PlaybackReports {
  import opened AudioTypes
  import opened Playback

  function Next(s: State, step: Step): State { if Enabled(s, step) then Apply(s, step) else s }

  // ----- Words ---------------------------------------------------------------------------

  /** What a call reports for request `id`: a word for its generation, while it is active. */
  function ReportOf(s: State, step: Step, id: nat): seq<(nat, nat)> {
    match step
    case DoWord(generation, position, length) =>
      if s.active.Some? && s.active.value.generation == generation && s.active.value.id == id then [(position, length)] else []
    case _ => []
  }

  /** The words reported for request `id` while it was active, in order. */
  function Reported(s: State, steps: seq<Step>, id: nat): seq<(nat, nat)>
    decreases |steps|
  {
    if steps == [] then [] else ReportOf(s, steps[0], id) + Reported(Next(s, steps[0]), steps[1..], id)
  }

  /** The words of request `id` in a stream of events, in order. */
  function WordsOf(log: seq<SpeechEvent>, id: nat): seq<(nat, nat)> {
    if log == [] then []
    else
      var last := log[|log| - 1];
      WordsOf(log[..|log| - 1], id) + (if last.SpeechWord? && last.id == id then [(last.position, last.length)] else [])
  }

  lemma {:induction false} WordsOfConcat(a: seq<SpeechEvent>, b: seq<SpeechEvent>, id: nat)
    ensures WordsOf(a + b, id) == WordsOf(a, id) + WordsOf(b, id)
  {
    if b == [] {
      assert a + b == a;
    } else {
      var n := |b| - 1;
      assert (a + b)[..|a| + n] == a + b[..n];
      WordsOfConcat(a, b[..n], id);
    }
  }

  lemma {:induction false} NoWords(log: seq<SpeechEvent>, id: nat)
    requires forall i :: 0 <= i < |log| ==> !log[i].SpeechWord?
    ensures WordsOf(log, id) == []
  {
    if log != [] { NoWords(log[..|log| - 1], id); }
  }

  // ----- What each call tells ------------------------------------------------------------

  /** The end of the current request, if there is one. */
  function EndOfCurrent(s: State, status: Ending): seq<SpeechEvent> {
    if s.active.Some? then [SpeechTerminal(s.active.value.id, status)]
    else if s.pending.Some? then [SpeechTerminal(s.pending.value.id, status)]
    else []
  }

  /** The events a call must deliver, from what the controller was doing when it came. */
  function Tells(s: State, step: Step): seq<SpeechEvent> {
    match step
    case DoSubmit(id, text) =>
      if 0 < id <= UINT64_MAX && id > s.lastId && !s.closed && !s.failed then EndOfCurrent(s, Superseded) + [SpeechStarted(id)] else []
    case DoCancel => if s.closed then [] else EndOfCurrent(s, Cancelled)
    case DoClose => if s.closed then [] else EndOfCurrent(s, ClosedDown)
    case DoComplete(generation) =>
      if s.active.Some? && s.active.value.generation == generation then EndOfCurrent(s, Completed) else []
    case DoFail(failing) =>
      var current := if s.active.Some? then s.active else s.pending;
      if failing.None? || (current.Some? && current.value.generation == failing.value) then EndOfCurrent(s, Failed) else []
    case DoWord(generation, position, length) =>
      if s.active.Some? && s.active.value.generation == generation then
        [SpeechWord(s.active.value.id, s.active.value.text, position, length)]
      else []
    case _ => []
  }

  /** A call adds these events to the stream, and ends the current request exactly if it says so. */
  lemma CallsTell(steps: seq<Step>, step: Step)
    ensures var s := Run(Init(), steps);
      var t := Next(s, step);
      && t.log == s.log + Tells(s, step)
      && ((exists e :: e in Tells(s, step) && e.SpeechTerminal?) && !step.DoSubmit? ==> Current(t).None?)
      && ((forall e :: e in Tells(s, step) ==> e.SpeechWord?) ==> Current(t) == Current(s))
      && (step.DoSubmit? && Tells(s, step) != [] ==>
            t.pending == Some(Request(step.id, t.generation, step.text)) && t.active.None? && t.generation > s.generation)
      && (step.DoCancel? && !s.closed ==> t.generation > s.generation)
      && (step.DoClose? ==> t.closed)
      && (step.DoFail? ==> t.failed)
      && (step.DoNextRequest? && Enabled(s, step) ==> t.active == s.pending && t.pending.None?)
  {
    RunKeeps(Init(), steps);
    var s := Run(Init(), steps);
    TellsDecide(s, step);
    TellsEnd(s, step);
  }

  lemma TellsDecide(s: State, step: Step)
    requires Inv(s)
    ensures Next(s, step).log == s.log + Tells(s, step)
  {
    assert s.log + [] == s.log;
  }

  /** A call that tells of no end leaves the current request, one that tells of an end ends it. */
  lemma TellsEnd(s: State, step: Step)
    requires Inv(s)
    ensures var t := Next(s, step);
      && ((exists e :: e in Tells(s, step) && e.SpeechTerminal?) && !step.DoSubmit? ==> Current(t).None?)
      && ((forall e :: e in Tells(s, step) ==> e.SpeechWord?) ==> Current(t) == Current(s))
  {
    var told := Tells(s, step);
    assert told != [] ==> told[0] in told && told[|told| - 1] in told;
  }

  lemma StepReports(s: State, step: Step, id: nat)
    requires Inv(s)
    ensures WordsOf(Next(s, step).log, id) == WordsOf(s.log, id) + ReportOf(s, step, id)
  {
    TellsDecide(s, step);
    WordsOfConcat(s.log, Tells(s, step), id);
    ToldWords(s, step, id);
  }

  lemma ToldWords(s: State, step: Step, id: nat)
    ensures WordsOf(Tells(s, step), id) == ReportOf(s, step, id)
  {
    var told := Tells(s, step);
    if step.DoWord? {
      assert told != [] ==> told[..0] == [] && WordsOf([], id) == [];
    } else {
      NoWords(told, id);
    }
  }

  lemma RunUnfolds(s: State, steps: seq<Step>, id: nat)
    requires steps != []
    ensures Run(s, steps) == Run(Next(s, steps[0]), steps[1..])
    ensures Reported(s, steps, id) == ReportOf(s, steps[0], id) + Reported(Next(s, steps[0]), steps[1..], id)
  {
  }

  lemma Regroup(a: seq<(nat, nat)>, b: seq<(nat, nat)>, c: seq<(nat, nat)>)
    ensures (a + b) + c == a + (b + c)
  {
  }

  lemma {:induction false} RunReports(s: State, steps: seq<Step>, id: nat)
    requires Inv(s)
    ensures WordsOf(Run(s, steps).log, id) == WordsOf(s.log, id) + Reported(s, steps, id)
    decreases |steps|
  {
    if steps == [] {
      assert Reported(s, steps, id) == [];
    } else {
      var t := Next(s, steps[0]);
      NextKeeps(s, steps[0]);
      StepReports(s, steps[0], id);
      RunReports(t, steps[1..], id);
      RunUnfolds(s, steps, id);
      Regroup(WordsOf(s.log, id), ReportOf(s, steps[0], id), Reported(t, steps[1..], id));
    }
  }

  lemma NextKeeps(s: State, step: Step)
    requires Inv(s)
    ensures Inv(Next(s, step))
  {
    if Enabled(s, step) { StepKeeps(s, step); }
  }

  // ----- Requests ------------------------------------------------------------------------

  /** The request a call submits, if it is accepted. */
  function AcceptedOf(s: State, step: Step): seq<(nat, string)> {
    match step
    case DoSubmit(id, text) => if Submit(s, id, text).1.Submitted? then [(id, text)] else []
    case _ => []
  }

  /** The requests whose submission was accepted, with their texts, in order. */
  function Accepted(s: State, steps: seq<Step>): seq<(nat, string)>
    decreases |steps|
  {
    if steps == [] then [] else AcceptedOf(s, steps[0]) + Accepted(Next(s, steps[0]), steps[1..])
  }

  /** Every request and every word belongs to a request that was submitted like that. */
  ghost predicate Belongs(s: State, known: seq<(nat, string)>) {
    RequestsBelong(s, known) && EventsBelong(s.log, known)
  }

  ghost predicate RequestsBelong(s: State, known: seq<(nat, string)>) {
    && (s.pending.Some? ==> (s.pending.value.id, s.pending.value.text) in known)
    && (s.active.Some? ==> (s.active.value.id, s.active.value.text) in known)
  }

  ghost predicate EventsBelong(log: seq<SpeechEvent>, known: seq<(nat, string)>) {
    forall i :: 0 <= i < |log| && log[i].SpeechWord? ==> (log[i].id, log[i].text) in known
  }

  lemma StepRequestsBelong(s: State, step: Step, known: seq<(nat, string)>)
    requires RequestsBelong(s, known)
    ensures RequestsBelong(Next(s, step), known + AcceptedOf(s, step))
  {
  }

  lemma ToldBelong(s: State, step: Step, known: seq<(nat, string)>)
    requires RequestsBelong(s, known)
    ensures EventsBelong(Tells(s, step), known)
  {
  }

  lemma EventsBelongTogether(log: seq<SpeechEvent>, told: seq<SpeechEvent>, known: seq<(nat, string)>, more: seq<(nat, string)>)
    requires EventsBelong(log, known) && EventsBelong(told, known)
    ensures EventsBelong(log + told, known + more)
  {
  }

  lemma StepBelongs(s: State, step: Step, known: seq<(nat, string)>)
    requires Inv(s) && Belongs(s, known)
    ensures Belongs(Next(s, step), known + AcceptedOf(s, step))
  {
    TellsDecide(s, step);
    StepRequestsBelong(s, step, known);
    ToldBelong(s, step, known);
    EventsBelongTogether(s.log, Tells(s, step), known, AcceptedOf(s, step));
  }

  lemma {:induction false} RunBelongs(s: State, steps: seq<Step>, known: seq<(nat, string)>)
    requires Inv(s) && Belongs(s, known)
    ensures Belongs(Run(s, steps), known + Accepted(s, steps))
    decreases |steps|
  {
    if steps == [] {
      assert known + Accepted(s, steps) == known;
    } else {
      var one, others := AcceptedOf(s, steps[0]), Accepted(Next(s, steps[0]), steps[1..]);
      NextKeeps(s, steps[0]);
      StepBelongs(s, steps[0], known);
      RunBelongs(Next(s, steps[0]), steps[1..], known + one);
      assert known + (one + others) == (known + one) + others;
    }
  }

  lemma {:induction false} AcceptedIncrease(s: State, steps: seq<Step>)
    ensures forall i :: 0 <= i < |Accepted(s, steps)| ==> Accepted(s, steps)[i].0 > s.lastId
    ensures forall i, j :: 0 <= i < j < |Accepted(s, steps)| ==> Accepted(s, steps)[i].0 < Accepted(s, steps)[j].0
    decreases |steps|
  {
    if steps != [] { AcceptedIncrease(Next(s, steps[0]), steps[1..]); }
  }

  lemma WordsOfRun(steps: seq<Step>, id: nat)
    ensures WordsOf(Run(Init(), steps).log, id) == Reported(Init(), steps, id)
  {
    RunReports(Init(), steps, id);
  }

  lemma WordsBelong(steps: seq<Step>)
    ensures Belongs(Run(Init(), steps), Accepted(Init(), steps))
  {
    RunBelongs(Init(), steps, []);
    assert [] + Accepted(Init(), steps) == Accepted(Init(), steps);
  }

  /**
   * Over every run: the words told for a request are, in order, exactly the ranges that were
   * reported for its generation while it was active, and every word carries the text that was
   * submitted under its id. Ids are accepted once, so no word is told for another text.
   */
  lemma WordsAreReports(steps: seq<Step>, id: nat)
    ensures var log, known := Run(Init(), steps).log, Accepted(Init(), steps);
      && WordsOf(log, id) == Reported(Init(), steps, id)
      && (forall i :: 0 <= i < |log| && log[i].SpeechWord? ==> (log[i].id, log[i].text) in known)
      && (forall i, j :: 0 <= i < j < |known| ==> known[i].0 < known[j].0)
  {
    WordsOfRun(steps, id);
    WordsBelong(steps);
    AcceptedIncrease(Init(), steps);
  }

  // ----- Answers and commands ------------------------------------------------------------

  /** What `submit`, `cancel` and `close` answer. */
  lemma CallsAnswer(s: State, id: nat, text: string)
    ensures var (t, result) := Submit(s, id, text);
      && (result.Submitted? <==> 0 < id <= UINT64_MAX && id > s.lastId && !s.closed && !s.failed)
      && (result.Submitted? ==> Some(result.request) == t.pending && result.wasActive == (s.active.Some? || s.pending.Some?))
      && (result.SubmitRefused? ==> t == s)
    ensures Cancel(s).1 == (!s.closed && (s.active.Some? || s.pending.Some?))
    ensures Close(s).1 == (!s.closed && (s.active.Some? || s.pending.Some?))
  {
  }

  /**
   * A pause that was asked for reaches the worker, once: the next command it takes is the pause,
   * the request is then paused, and the one after that is none. A resume likewise.
   */
  lemma CommandsReachTheWorker(s: State)
    requires Inv(s)
    ensures var (t, asked) := RequestPause(s);
      var (u, command) := ConsumeCommand(t);
      && (asked <==> s.active.Some? && !s.paused) && (!asked ==> t == s) && t.paused == s.paused
      && (asked ==> command == PauseCommand && u.paused && ConsumeCommand(u) == (u, NoCommand))
    ensures var (t, asked) := RequestResume(s);
      var (u, command) := ConsumeCommand(t);
      && (asked <==> s.paused) && (!asked ==> t == s) && t.paused == s.paused
      && (asked ==> command == ResumeCommand && !u.paused && ConsumeCommand(u) == (u, NoCommand))
    ensures var (t, done) := PauseNow(s); (done <==> s.active.Some? && !s.paused) && (done ==> t.paused) && (!done ==> t == s)
    ensures var (t, done) := ResumeNow(s); (done <==> s.paused) && !t.paused && (!done ==> t == s)
  {
  }
}
