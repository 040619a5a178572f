/**
 * One playback request as a state machine. Every function below is one section that the
 * engine runs while holding the request's mutex; `Apply` puts them behind one step type, so
 * a run is any sequence of steps of the producer, the controls, the device and the dispatcher.
 *
 * The device is an adversary: whether it accepts a buffer, starts, pauses or reports a
 * position is an argument of the step that asks it.
 */
module RequestModel {
  import opened AudioTypes

  // ----- Configuration -------------------------------------------------------------------

  datatype Config = Config(rate: nat, textLength: nat) {
    function LowWater(): nat { rate }

    function HighWater(): nat { rate * 3 }

    function HardCapacity(): nat { rate * 4 }

    function Prebuffer(): nat { Max(1, rate * 300 / 1000) }

    function ChunkFrames(): nat { Max(1, rate / 10) }
  }

  // ----- State ---------------------------------------------------------------------------

  datatype Buffer = Buffer(pcm: seq<byte>, frames: nat, ended: bool)

  datatype Handed = Handed(pcm: seq<byte>, endOfStream: bool)

  /** History the engine does not keep: what was accepted, handed over, told and reclaimed. */
  datatype Log = Log(
    accepted: seq<byte>,
    boundaries: seq<Boundary>,
    handed: seq<Handed>,
    words: seq<Boundary>,
    reclaimed: nat)

  /** The audio and the words that are still on their way. */
  datatype Stream = Stream(
    pending: Option<Buffer>,
    submitted: seq<Buffer>,
    boundaries: seq<Boundary>,
    acceptedFrames: nat,
    submittedFrames: nat,
    bufferedFrames: int,
    log: Log)

  datatype Life = Life(
    accepting: bool,
    inputFinished: bool,
    terminal: bool,
    ending: Ending,
    error: Status,
    destroying: bool,
    destroyed: bool)

  datatype Voice = Voice(alive: bool, started: bool, paused: bool, underrun: bool, fault: Status)

  /** Events queued, events the dispatcher took over, and (as history) events delivered. */
  datatype Dispatcher = Dispatcher(
    queue: seq<Event>,
    batch: seq<Event>,
    delivered: seq<Event>,
    terminalDelivered: bool,
    exited: bool)

  /** The counters that wake the dispatcher, and the values it last saw. */
  datatype Signals = Signals(
    streamEnds: nat, passes: nat, changes: nat,
    seenStreamEnds: nat, seenPasses: nat, seenChanges: nat)

  /** What a blocked `Submit` call keeps in its local variables while it waits. */
  datatype Offer = Offer(pcm: seq<byte>, boundaries: seq<Boundary>, blocked: bool) {
    function Frames(): nat { |pcm| / BYTES_PER_FRAME }
  }

  datatype State = State(
    config: Config,
    stream: Stream,
    life: Life,
    voice: Voice,
    dispatcher: Dispatcher,
    signals: Signals,
    offer: Option<Offer>)

  /** A request whose voice was created: STARTED is queued and the dispatcher runs. */
  function Init(config: Config): State {
    State(config,
          Stream(None, [], [], 0, 0, 0, Log([], [], [], [], 0)),
          Life(true, false, false, NotEnded, Ok, false, false),
          Voice(true, false, false, false, Ok),
          Dispatcher([Started], [], [], false, false),
          Signals(0, 0, 0, 0, 0, 0),
          None)
  }

  // ----- Ending a request ----------------------------------------------------------------

  function Enqueue(d: Dispatcher, more: seq<Event>): Dispatcher { d.(queue := d.queue + more) }

  function SetTerminal(s: State, ending: Ending, error: Status): State {
    if s.life.terminal then s
    else s.(voice := s.voice.(alive := false),
            life := s.life.(terminal := true, ending := ending, error := error),
            dispatcher := Enqueue(s.dispatcher, [Terminal(ending, error)]))
  }

  function Clear(st: Stream): Stream {
    st.(pending := None, submitted := [], boundaries := [], bufferedFrames := 0)
  }

  function CloseInput(l: Life): Life { l.(accepting := false, inputFinished := true) }

  /** Drop everything that is still waiting and end the request. */
  function Abort(s: State, ending: Ending, error: Status): State {
    SetTerminal(s.(stream := Clear(s.stream), life := CloseInput(s.life)), ending, error)
  }

  function Fail(s: State, error: Status): State {
    if s.life.terminal then s else Abort(s, Failed, error)
  }

  // ----- Handing buffers to the voice ----------------------------------------------------

  /** The voice took `buffer`. */
  function Hand(st: Stream, buffer: Buffer, endOfStream: bool): Stream {
    st.(submitted := st.submitted + [buffer],
        submittedFrames := st.submittedFrames + buffer.frames,
        log := st.log.(handed := st.log.handed + [Handed(buffer.pcm, endOfStream)]))
  }

  function FlushPending(st: Stream, endOfStream: bool): Stream {
    if st.pending.None? then st
    else Hand(st, st.pending.value, endOfStream).(pending := None)
  }

  /**
   * Cut `pcm` into device buffers of `chunk` frames; hand over all but the last, which stays
   * pending so that it can still carry the end-of-stream mark. The voice takes `room` buffers
   * before it refuses one.
   */
  function Queue(chunk: nat, st: Stream, pcm: seq<byte>, room: nat): (Stream, bool)
    requires |pcm| > 0 && chunk > 0
    decreases |pcm|
  {
    var size := chunk * BYTES_PER_FRAME;
    if |pcm| <= size then (st.(pending := Some(Buffer(pcm, |pcm| / BYTES_PER_FRAME, false))), true)
    else if room == 0 then (st, false)
    else Queue(chunk, Hand(st, Buffer(pcm[..size], chunk, false), false), pcm[size..], room - 1)
  }

  /** The voice is not running and has something to play. */
  predicate WouldStart(v: Voice, st: Stream) { !v.paused && !v.started && st.submitted != [] }

  function MaybeStart(config: Config, v: Voice, st: Stream, startOk: bool): Voice {
    if st.submittedFrames < config.Prebuffer() || !WouldStart(v, st) then v
    else if startOk then v.(started := true)
    else v.(fault := DeviceError)
  }

  // ----- Submit --------------------------------------------------------------------------

  datatype SubmitOutcome =
    | Refused(status: Status)
    | Accepted(frames: nat, bufferedAfter: int)
    | Waits

  predicate Interrupted(l: Life) { !l.accepting || l.terminal || l.destroying }

  /** The condition a blocked producer waits for. */
  predicate CapacityOpen(s: State, offer: Offer) {
    || Interrupted(s.life)
    || (s.stream.bufferedFrames + offer.Frames() <= s.config.HardCapacity()
        && (offer.blocked ==> s.stream.bufferedFrames <= s.config.LowWater()))
  }

  /** The checks `Submit` makes before it takes the lock. */
  ghost function CheckSubmission(config: Config, pcm: seq<byte>, bs: seq<Boundary>): Status {
    var frames := |pcm| / BYTES_PER_FRAME;
    if |pcm| % BYTES_PER_FRAME != 0 || |pcm| > UINT32_MAX then InvalidArgument
    else if !ValidBoundaries(bs, frames, config.textLength) then InvalidBoundary
    else if frames > config.HardCapacity() then InvalidArgument
    else Ok
  }

  /** Flush what was pending and note what is offered. */
  function BeginWait(s: State, pcm: seq<byte>, bs: seq<Boundary>, takes: bool, startOk: bool): (State, SubmitOutcome) {
    if s.stream.pending.Some? && !takes then (Fail(s, DeviceError), Refused(DeviceError))
    else
      var flushed := FlushPending(s.stream, false);
      var voice := if s.stream.pending.None? then s.voice else MaybeStart(s.config, s.voice, flushed, startOk);
      var blocked := flushed.bufferedFrames >= s.config.HighWater()
                     || flushed.bufferedFrames + |pcm| / BYTES_PER_FRAME > s.config.HardCapacity();
      (s.(stream := flushed, voice := voice, offer := Some(Offer(pcm, bs, blocked))), Waits)
  }

  /** `Submit` up to the capacity wait: checks, then flush what was pending. */
  ghost function SubmitEnter(s: State, pcm: seq<byte>, bs: seq<Boundary>, takes: bool, startOk: bool)
    : (State, SubmitOutcome)
  {
    var status := CheckSubmission(s.config, pcm, bs);
    if status != Ok then (s, Refused(status))
    else if pcm == [] then
      if Interrupted(s.life) then (s, Refused(if s.life.ending == ClosedDown then Closed else WrongState))
      else (s, Accepted(0, s.stream.bufferedFrames))
    else BeginWait(s, pcm, bs, takes, startOk)
  }

  function InterruptionStatus(l: Life): Status {
    if l.ending == ClosedDown || l.destroying then Closed
    else if l.ending == Failed then if l.error == Ok then DeviceError else l.error
    else WrongState
  }

  /** Count a queued submission as accepted; its boundaries become absolute. */
  function Admit(st: Stream, pcm: seq<byte>, bs: seq<Boundary>): Stream {
    var frames := |pcm| / BYTES_PER_FRAME;
    st.(boundaries := st.boundaries + Shift(bs, st.acceptedFrames),
        acceptedFrames := st.acceptedFrames + frames,
        bufferedFrames := st.bufferedFrames + frames,
        log := st.log.(accepted := st.log.accepted + pcm,
                       boundaries := st.log.boundaries + Shift(bs, st.acceptedFrames)))
  }

  /** What follows a submission that was queued whole. */
  function Accept(s: State, offer: Offer, startOk: bool): State {
    var taken := Admit(s.stream, offer.pcm, offer.boundaries);
    s.(stream := taken,
       voice := MaybeStart(s.config, s.voice, taken, startOk),
       signals := s.signals.(changes := s.signals.changes + 1))
  }

  /** Cut up the offered audio and hand it over; it is accepted whole, or the request fails. */
  function QueueAndAccept(s: State, offer: Offer, room: nat, startOk: bool): (State, SubmitOutcome)
    requires |offer.pcm| > 0
  {
    var (queued, ok) := Queue(s.config.ChunkFrames(), s.stream, offer.pcm, room);
    if !ok then (Fail(s.(stream := queued), DeviceError), Refused(DeviceError))
    else
      var after := Accept(s.(stream := queued), offer, startOk);
      (after, Accepted(offer.Frames(), after.stream.bufferedFrames))
  }

  /** `Submit` after the capacity wait. */
  function SubmitCommit(s: State, room: nat, startOk: bool): (State, SubmitOutcome)
    requires s.offer.Some? && |s.offer.value.pcm| > 0
  {
    var offer := s.offer.value;
    if Interrupted(s.life) then (s.(offer := None), Refused(InterruptionStatus(s.life)))
    else QueueAndAccept(s.(offer := None), offer, room, startOk)
  }

  /** The input is finished: complete at once if there is nothing to play, else start the voice. */
  function PlayTheRest(s: State, startOk: bool): (State, Status) {
    if s.stream.submitted == [] then (SetTerminal(s, Completed, Ok), Ok)
    else if !WouldStart(s.voice, s.stream) then (s, Ok)
    else if startOk then (s.(voice := s.voice.(started := true)), Ok)
    else (Fail(s, DeviceError), DeviceError)
  }

  function FinishInput(s: State, takes: bool, startOk: bool): (State, Status) {
    if Interrupted(s.life) then (s, WrongState)
    else
      var finished := s.(life := CloseInput(s.life));
      if s.stream.pending.Some? && !takes then (Fail(finished, DeviceError), DeviceError)
      else
        PlayTheRest(finished.(stream := FlushPending(s.stream, true)), startOk)
  }

  // ----- Controls ------------------------------------------------------------------------

  function Pause(s: State, pauseOk: bool): (State, Status) {
    if s.life.terminal || s.life.destroying then (s, WrongState)
    else if s.voice.paused then (s, Ok)
    else if s.voice.started && !pauseOk then (Fail(s, DeviceError), DeviceError)
    else (s.(voice := s.voice.(paused := true)), Ok)
  }

  function Resume(s: State, startOk: bool): (State, Status) {
    if s.life.terminal || s.life.destroying then (s, WrongState)
    else if !s.voice.paused then (s, Ok)
    else
      var running := s.(voice := s.voice.(paused := false));
      var wanted := s.voice.started || s.life.inputFinished || s.stream.submittedFrames >= s.config.Prebuffer();
      if !wanted || !s.voice.alive then (running, Ok)
      else if startOk then (s.(voice := s.voice.(paused := false, started := true)), Ok)
      else (Fail(running, DeviceError), DeviceError)
  }

  predicate IsStopReason(reason: Ending) {
    reason == Cancelled || reason == Superseded || reason == Failed || reason == ClosedDown
  }

  function Stop(s: State, reason: Ending): (State, Status) {
    if !IsStopReason(reason) then (s, InvalidArgument)
    else if s.life.terminal then (s, Ok)
    else (Abort(s, reason, Ok), Ok)
  }

  /** `Destroy` up to joining the dispatcher. */
  function DestroyBegin(s: State): State {
    if s.life.destroyed then s
    else
      var ended := if s.life.terminal then s else Abort(s, ClosedDown, Ok);
      ended.(life := ended.life.(destroying := true))
  }

  /** `Destroy` after the dispatcher thread has exited. */
  function DestroyEnd(s: State): State {
    s.(stream := s.stream.(pending := None, submitted := [], boundaries := []),
       voice := s.voice.(alive := false),
       dispatcher := s.dispatcher.(queue := []),
       life := s.life.(destroyed := true))
  }

  // ----- Device notifications ------------------------------------------------------------

  function BufferEnd(st: Stream, index: nat): Stream
    requires index < |st.submitted|
  {
    st.(submitted := st.submitted[index := st.submitted[index].(ended := true)])
  }

  function VoiceFault(v: Voice, status: Status): Voice {
    v.(fault := if status == Ok then DeviceError else status)
  }

  // ----- Dispatcher ----------------------------------------------------------------------

  /** What the voice answers when asked for its position. */
  datatype Reading = Reading(samplesPlayed: nat, buffersQueued: nat, latency: nat)

  function Unplayed(buffers: seq<Buffer>): seq<Buffer> {
    if buffers == [] then []
    else
      var last := buffers[|buffers| - 1];
      Unplayed(buffers[..|buffers| - 1]) + (if last.ended then [] else [last])
  }

  function TotalFrames(buffers: seq<Buffer>): nat {
    if buffers == [] then 0
    else TotalFrames(buffers[..|buffers| - 1]) + buffers[|buffers| - 1].frames
  }

  function EndedFrames(buffers: seq<Buffer>): nat {
    if buffers == [] then 0
    else
      var last := buffers[|buffers| - 1];
      EndedFrames(buffers[..|buffers| - 1]) + (if last.ended then last.frames else 0)
  }

  function Reclaim(st: Stream): Stream {
    st.(submitted := Unplayed(st.submitted),
        bufferedFrames := st.bufferedFrames - EndedFrames(st.submitted),
        log := st.log.(reclaimed := st.log.reclaimed + EndedFrames(st.submitted)))
  }

  /** How many waiting boundaries, from the front, the listener has heard. */
  function HeardCount(bs: seq<Boundary>, audible: nat): (n: nat)
    ensures n <= |bs|
  {
    if bs != [] && bs[0].frame <= audible then 1 + HeardCount(bs[1..], audible) else 0
  }

  function WordEvents(bs: seq<Boundary>): (r: seq<Event>)
    ensures |r| == |bs|
  {
    seq(|bs|, i requires 0 <= i < |bs| => PlayedWord(bs[i].position, bs[i].length))
  }

  /** Take the first `n` waiting boundaries out of the stream. */
  function Tell(st: Stream, n: nat): Stream
    requires n <= |st.boundaries|
  {
    st.(boundaries := st.boundaries[n..],
        log := st.log.(words := st.log.words + st.boundaries[..n]))
  }

  /** Move the first `n` waiting boundaries into the event queue. */
  function QueueWords(s: State, n: nat): State
    requires n <= |s.stream.boundaries|
  {
    s.(stream := Tell(s.stream, n),
       dispatcher := Enqueue(s.dispatcher, WordEvents(s.stream.boundaries[..n])))
  }

  function AudibleFrames(r: Reading): nat {
    if r.samplesPlayed > r.latency then r.samplesPlayed - r.latency else 0
  }

  function NoteUnderrun(s: State, now: bool): State {
    if now == s.voice.underrun then s
    else s.(voice := s.voice.(underrun := now),
            dispatcher := Enqueue(s.dispatcher, [Underrun(if now then 0 else s.stream.bufferedFrames)]))
  }

  function Observe(s: State, reading: Option<Reading>): State {
    if s.life.terminal then s
    else if s.voice.fault != Ok then
      Abort(s.(voice := s.voice.(fault := Ok)), Failed, s.voice.fault)
    else if !s.voice.alive || !s.voice.started then s
    else if reading.None? then s.(voice := s.voice.(fault := DeviceError))
    else
      NoteUnderrun(QueueWords(s, HeardCount(s.stream.boundaries, AudibleFrames(reading.value))),
                   s.life.accepting && !s.voice.paused && reading.value.buffersQueued == 0)
  }

  /** The input is finished and nothing is left to play. */
  predicate ReadyToComplete(s: State) {
    && !s.life.terminal && s.life.inputFinished
    && s.stream.pending.None? && s.stream.submitted == [] && s.signals.streamEnds != 0
  }

  function CompleteIfReady(s: State): State {
    if !ReadyToComplete(s) then s
    else SetTerminal(QueueWords(s, |s.stream.boundaries|), Completed, Ok)
  }

  /** The condition the idle dispatcher waits for. */
  predicate Awake(s: State) {
    || s.life.destroying || s.dispatcher.queue != [] || s.voice.fault != Ok
    || s.signals.streamEnds != s.signals.seenStreamEnds
    || s.signals.passes != s.signals.seenPasses
    || s.signals.changes != s.signals.seenChanges
    || exists i :: 0 <= i < |s.stream.submitted| && s.stream.submitted[i].ended
  }

  /** The ended buffers are reclaimed and the device's counters noted. */
  function Noted(s: State): State {
    s.(stream := Reclaim(s.stream),
       signals := s.signals.(seenStreamEnds := s.signals.streamEnds, seenPasses := s.signals.passes,
                             seenChanges := s.signals.changes))
  }

  /** The event queue is taken over as a batch; nothing left to tell while destroying ends the thread. */
  function TakeBatch(s: State): State {
    s.(dispatcher := s.dispatcher.(batch := s.dispatcher.queue, queue := [],
                                   exited := s.life.destroying && s.dispatcher.queue == []))
  }

  /** One locked pass of the dispatcher. */
  function DispatchPass(s: State, reading: Option<Reading>): State {
    TakeBatch(CompleteIfReady(Observe(Noted(s), reading)))
  }

  /** Run the callback for the next event of the batch. */
  function Deliver(d: Dispatcher): Dispatcher
    requires d.batch != []
  {
    d.(batch := d.batch[1..], delivered := d.delivered + [d.batch[0]],
       terminalDelivered := d.terminalDelivered || d.batch[0].Terminal?)
  }

  // ----- Steps ---------------------------------------------------------------------------

  datatype Step =
    | DoSubmitEnter(pcm: seq<byte>, boundaries: seq<Boundary>, takes: bool, startOk: bool)
    | DoSubmitCommit(room: nat, startOk: bool)
    | DoFinishInput(takes: bool, startOk: bool)
    | DoPause(pauseOk: bool)
    | DoResume(startOk: bool)
    | DoStop(reason: Ending)
    | DoDestroyBegin
    | DoDestroyEnd
    | DoBufferEnd(index: nat)
    | DoStreamEnd
    | DoProcessingPass
    | DoVoiceFault(status: Status)
    | DoDispatchPass(reading: Option<Reading>)
    | DoDeliver

  /**
   * When a step can happen. One producer calls `Submit` and `FinishInput` in sequence, and one
   * caller destroys the request; everything else may interleave freely.
   */
  predicate Enabled(s: State, step: Step) {
    match step
    case DoSubmitEnter(_, _, _, _) => s.offer.None?
    case DoSubmitCommit(_, _) =>
      s.offer.Some? && |s.offer.value.pcm| > 0 && CapacityOpen(s, s.offer.value)
    case DoFinishInput(_, _) => s.offer.None?
    case DoDestroyBegin => !s.life.destroying || s.life.destroyed
    case DoDestroyEnd => s.life.destroying && !s.life.destroyed && s.dispatcher.exited
    case DoBufferEnd(index) => index < |s.stream.submitted|
    case DoDispatchPass(_) => !s.dispatcher.exited && s.dispatcher.batch == [] && Awake(s)
    case DoDeliver => s.dispatcher.batch != []
    case _ => true
  }

  ghost function Apply(s: State, step: Step): State
    requires Enabled(s, step)
  {
    match step
    case DoSubmitEnter(pcm, bs, takes, startOk) => SubmitEnter(s, pcm, bs, takes, startOk).0
    case DoSubmitCommit(room, startOk) => SubmitCommit(s, room, startOk).0
    case DoFinishInput(takes, startOk) => FinishInput(s, takes, startOk).0
    case DoPause(pauseOk) => Pause(s, pauseOk).0
    case DoResume(startOk) => Resume(s, startOk).0
    case DoStop(reason) => Stop(s, reason).0
    case DoDestroyBegin => DestroyBegin(s)
    case DoDestroyEnd => DestroyEnd(s)
    case DoBufferEnd(index) => s.(stream := BufferEnd(s.stream, index))
    case DoStreamEnd => s.(signals := s.signals.(streamEnds := s.signals.streamEnds + 1))
    case DoProcessingPass => s.(signals := s.signals.(passes := s.signals.passes + 1))
    case DoVoiceFault(status) => s.(voice := VoiceFault(s.voice, status))
    case DoDispatchPass(reading) => DispatchPass(s, reading)
    case DoDeliver => s.(dispatcher := Deliver(s.dispatcher))
  }

  /** The state after any sequence of steps; a step that is not enabled does not happen. */
  ghost function Run(s: State, steps: seq<Step>): State
    decreases |steps|
  {
    if steps == [] then s
    else Run(if Enabled(s, steps[0]) then Apply(s, steps[0]) else s, steps[1..])
  }
}
