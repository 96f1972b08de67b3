/**
 * The control loop, the plugin's acquisition threads and the client, as one machine of atomic steps.
 * They share the running flag, the control channel and the event stream.
 *
 * What the code enforces is in `Enabled`. What it asks of a plugin is in `Contract`, `ResetWaits`
 * and `LossWaits`, what it asks of a client in `Discipline`; results that need them say so.
 */
module ControlLoop {
  import opened Wrappers
  import opened Protocol
  import opened Events

  /**
   * A terminal send clears the flag and only then pushes: `Closing` is the point between. `Closed`
   * remembers whether the push went through. `Open` begins with the first try to push CaptureBegin.
   */
  datatype Phase = Fresh | Open | Closing(last: Event) | Closed(pushed: bool)

  /** `announced` says whether the worker's CaptureBegin got through. */
  datatype Worker = Worker(captureId: nat, phase: Phase, announced: bool)

  /** An event on the wire and the thread that pushed it. */
  datatype Sent = Sent(worker: nat, event: Event)

  datatype Pc =
    | Idle
    | Received(seqNo: nat, asked: Option<Request>)
    | SettingFlag(seqNo: nat, request: Request)
    | Handling(seqNo: nat, request: Request, spawned: bool)
    | ClearingAfterError(seqNo: nat, request: Request)
    | ClearingAfterReset(seqNo: nat, request: Request)
    | Replying(asked: Option<Request>, response: Response)
    | ShuttingDown
    | Exited
    | Deaf
    | Broken(asked: Option<Request>, response: Response)

  /** A request on the control socket, and which of the client's calls it belongs to. */
  datatype Mail = Mail(call: nat, message: Inbound)

  /** A reply on the control socket, and which of the client's calls it answers. */
  datatype Answer = Answer(call: nat, response: Response)

  /** What a client can put on the control socket. The typed calls only ever send the first kind. */
  datatype Question = Typed(request: Request) | NoArm | Garbage

  /**
   * The channels are logs: the loop takes `asked[taken]` next, and the client reads `replies[read]` and
   * `wire[eventsRead]` next. `calls` counts the client's calls; `serving` is the call the loop is on.
   */
  datatype State = State(
    greeted: bool,
    running: bool,
    pc: Pc,
    serving: nat,
    shutdowns: nat,
    workers: seq<Worker>,
    wire: seq<Sent>,
    eventsRead: nat,
    asked: seq<Mail>,
    taken: nat,
    replies: seq<Answer>,
    read: nat,
    calls: nat,
    waiting: Option<Question>)

  const START := State(false, false, Idle, 0, 0, [], [], 0, [], 0, [], 0, 0, None)

  datatype Action =
    // The client. `GiveUp` is a call that times out.
    | Ask(question: Question, sent: bool)
    | GiveUp
    | TakeReply
    | ReadEvent
    // The control channel.
    | LoseRequest
    | LoseReply
    // The control loop.
    | Receive
    | ReceiveFails
    | Hangup
    | Check
    | SetFlag
    | HandlerDone(ok: bool)
    | ClearAfterError
    | ClearAfterReset
    | Reply
    | ReplyFails
    | RunShutdown
    // The plugin's handlers and threads. A send that is not terminal is one step, a terminal one two.
    | Spawn(captureId: nat)
    | Push(worker: nat, event: Event, accepted: bool)
    | ClearFlag(worker: nat, event: Event)
    | PushEnd(worker: nat, accepted: bool)
    // A thread that is no capture's own begins to send DeviceLost.
    | LoseDevice

  predicate OfClient(a: Action) {
    a.Ask? || a.GiveUp? || a.TakeReply? || a.ReadEvent? || a.LoseRequest? || a.LoseReply?
  }

  predicate OfPlugin(a: Action) {
    a.Spawn? || a.Push? || a.ClearFlag? || a.PushEnd? || a.LoseDevice?
  }

  predicate OfLoop(a: Action) {
    !OfClient(a) && !OfPlugin(a)
  }

  /** A thread is free to send unless it is between the two halves of a terminal send. */
  predicate Free(s: State, w: nat) {
    w < |s.workers| && !s.workers[w].phase.Closing?
  }

  predicate Enabled(s: State, a: Action) {
    match a
    case Ask(_, _) => s.waiting.None?
    case GiveUp => s.waiting.Some?
    case TakeReply => s.waiting.Some? && s.read < |s.replies|
    case ReadEvent => s.eventsRead < |s.wire|
    case LoseRequest => s.taken < |s.asked|
    case LoseReply => s.read < |s.replies|
    case Receive => s.pc.Idle? && s.taken < |s.asked|
    case ReceiveFails => s.pc.Idle?
    case Hangup => s.pc.Idle?
    case Check => s.pc.Received?
    case SetFlag => s.pc.SettingFlag?
    case HandlerDone(_) => s.pc.Handling?
    case ClearAfterError => s.pc.ClearingAfterError?
    case ClearAfterReset => s.pc.ClearingAfterReset?
    case Reply => s.pc.Replying?
    case ReplyFails => s.pc.Replying?
    case RunShutdown => s.pc.ShuttingDown?
    case Spawn(_) => true
    case Push(w, event, _) => Free(s, w) && !IsTerminal(event)
    case ClearFlag(w, event) => Free(s, w) && IsTerminal(event)
    case PushEnd(w, _) => w < |s.workers| && s.workers[w].phase.Closing?
    case LoseDevice => true
  }

  function MessageOf(question: Question, seqNo: nat): Inbound {
    match question
    case Typed(request) => Message(seqNo, Some(request))
    case NoArm => Message(seqNo, None)
    case Garbage => Undecodable
  }

  /** What the loop does with a request before it runs any handler; this is its one look at the flag. */
  function Checked(greeted: bool, running: bool, seqNo: nat, asked: Option<Request>): Pc {
    if asked.None? then Replying(asked, Refuse(seqNo, Invalid))
    else if !greeted && !asked.value.Hello? then Replying(asked, Refuse(seqNo, Invalid))
    else
      var request := asked.value;
      match request
      case Hello =>
        if greeted then Replying(asked, Refuse(seqNo, Invalid)) else Handling(seqNo, request, false)
      case Describe => if running then Replying(asked, Refuse(seqNo, Busy)) else Handling(seqNo, request, false)
      case GetConfig => if running then Replying(asked, Refuse(seqNo, Busy)) else Handling(seqNo, request, false)
      case SetConfig => if running then Replying(asked, Refuse(seqNo, Busy)) else Handling(seqNo, request, false)
      case AcquireStart(_) =>
        if running then Replying(asked, Refuse(seqNo, Busy)) else SettingFlag(seqNo, request)
      case AcquireStop =>
        if running then Handling(seqNo, request, false) else Replying(asked, Accept(seqNo, request))
      case Reset => Handling(seqNo, request, false)
      case Shutdown => Replying(asked, Accept(seqNo, request))
  }

  /** Where the loop goes when a handler returns. */
  function Handled(seqNo: nat, request: Request, ok: bool): Pc {
    if request.AcquireStart? && !ok then ClearingAfterError(seqNo, request)
    else if request.Reset? && ok then ClearingAfterReset(seqNo, request)
    else Replying(Some(request), if ok then Accept(seqNo, request) else Refuse(seqNo, Plugin))
  }

  function Update(s: State, w: nat, worker: Worker): State
    requires w < |s.workers|
  {
    s.(workers := s.workers[w := worker])
  }

  function Transmit(s: State, w: nat, event: Event, accepted: bool): State {
    if accepted then s.(wire := s.wire + [Sent(w, event)]) else s
  }

  function Apply(s: State, a: Action): State
    requires Enabled(s, a)
  {
    match a
    case Ask(question, sent) =>
      var call := s.calls + 1;
      var mail := Mail(call, MessageOf(question, call % SEQ_LIMIT));
      if sent then s.(calls := call, waiting := Some(question), asked := s.asked + [mail]) else s.(calls := call)
    case GiveUp => s.(waiting := None)
    case TakeReply => s.(waiting := None, read := s.read + 1)
    case ReadEvent => s.(eventsRead := s.eventsRead + 1)
    case LoseRequest => s.(taken := s.taken + 1)
    case LoseReply => s.(read := s.read + 1)
    case Receive =>
      var mail := s.asked[s.taken];
      var pc := match mail.message
                case Undecodable => Replying(None, Refuse(0, Invalid))
                case Message(seqNo, asked) => Received(seqNo, asked);
      s.(pc := pc, serving := mail.call, taken := s.taken + 1)
    case ReceiveFails => s.(pc := Deaf)
    case Hangup => s.(pc := Exited)
    case Check => s.(pc := Checked(s.greeted, s.running, s.pc.seqNo, s.pc.asked))
    case SetFlag => s.(running := true, pc := Handling(s.pc.seqNo, s.pc.request, false))
    case HandlerDone(ok) =>
      s.(greeted := s.greeted || (ok && s.pc.request.Hello?), pc := Handled(s.pc.seqNo, s.pc.request, ok))
    case ClearAfterError => s.(running := false, pc := Replying(Some(s.pc.request), Refuse(s.pc.seqNo, Plugin)))
    case ClearAfterReset =>
      s.(running := false, pc := Replying(Some(s.pc.request), Accept(s.pc.seqNo, s.pc.request)))
    case Reply =>
      var done := s.pc.asked == Some(Shutdown) && s.pc.response.error.None?;
      s.(replies := s.replies + [Answer(s.serving, s.pc.response)], pc := if done then ShuttingDown else Idle)
    case ReplyFails => s.(pc := Broken(s.pc.asked, s.pc.response))
    case RunShutdown => s.(shutdowns := s.shutdowns + 1, pc := Exited)
    case Spawn(id) =>
      s.(workers := s.workers + [Worker(id, Fresh, false)],
         pc := if s.pc.Handling? then s.pc.(spawned := true) else s.pc)
    case Push(w, event, accepted) =>
      var worker := s.workers[w];
      var next := if event.CaptureBegin? then worker.(phase := Open, announced := worker.announced || accepted)
                  else worker;
      Transmit(Update(s, w, next), w, event, accepted)
    case ClearFlag(w, event) => Update(s, w, s.workers[w].(phase := Closing(event))).(running := false)
    case PushEnd(w, accepted) =>
      var worker := s.workers[w];
      Transmit(Update(s, w, worker.(phase := Closed(accepted))), w, worker.phase.last, accepted)
    case LoseDevice => s.(running := false)
  }

  /** The state after a run from the start, if every step of it was possible when its turn came. */
  function After(run: seq<Action>): Option<State>
    decreases |run|
  {
    if run == [] then Some(START) else
      var before := After(run[..|run| - 1]);
      if before.Some? && Enabled(before.value, run[|run| - 1]) then Some(Apply(before.value, run[|run| - 1]))
      else None
  }

  /** Every step of the run is one the rule allows in the state it was taken in. */
  predicate Keeps(run: seq<Action>, rule: (State, Action) -> bool)
    decreases |run|
  {
    run == [] ||
    var earlier := run[..|run| - 1];
    Keeps(earlier, rule) && (After(earlier).Some? ==> rule(After(earlier).value, run[|run| - 1]))
  }

  // ---------- What is asked of a plugin ----------

  predicate InStartHandler(pc: Pc) {
    pc.Handling? && pc.request.AcquireStart?
  }

  predicate Live(worker: Worker) {
    worker.phase.Fresh? || worker.phase.Open?
  }

  predicate AnyLive(s: State) {
    exists i | 0 <= i < |s.workers| :: Live(s.workers[i])
  }

  /** One CaptureBegin gets through, and nothing follows a terminal event; all under the worker's own id. */
  predicate MayPush(worker: Worker, event: Event) {
    && Live(worker)
    && match event
       case CaptureBegin(id) => id == worker.captureId && !worker.announced
       case Data(data) => data.captureId == worker.captureId
       case CaptureEnd(id) => id == worker.captureId
       case DeviceLost => true
  }

  /**
   * A plugin starts one worker in each start handler that succeeds and none elsewhere; a worker sends
   * one terminal event and nothing after it. It may end before it has tried to push its CaptureBegin.
   */
  predicate Contract(s: State, a: Action) {
    match a
    case Spawn(id) => InStartHandler(s.pc) && !s.pc.spawned && id == s.pc.request.captureId
    case HandlerDone(ok) => InStartHandler(s.pc) ==> ok == s.pc.spawned
    case Push(w, event, _) => w < |s.workers| && MayPush(s.workers[w], event)
    case ClearFlag(w, event) => w < |s.workers| && MayPush(s.workers[w], event)
    case _ => true
  }

  /** A worker tries to push its CaptureBegin before anything else. */
  predicate TriesBeginFirst(s: State, a: Action) {
    (a.Push? && !a.event.CaptureBegin?) || a.ClearFlag? ==>
      a.worker < |s.workers| && !s.workers[a.worker].phase.Fresh?
  }

  /** The flag is raised and no worker has been started on the strength of it. */
  predicate StartWindow(pc: Pc) {
    (InStartHandler(pc) && !pc.spawned) || pc.ClearingAfterError?
  }

  /** A reset clears the flag only once every worker has at least begun its terminal event. */
  predicate ResetWaits(s: State, a: Action) {
    a.ClearAfterReset? ==> !AnyLive(s)
  }

  /** No thread but a capture's own reports the device lost while that capture runs or is being started. */
  predicate LossWaits(s: State, a: Action) {
    a.LoseDevice? ==> !AnyLive(s) && !StartWindow(s.pc)
  }

  /** A run of a plugin that keeps the contract and never lowers the flag of a running capture. */
  predicate ByContract(run: seq<Action>) {
    After(run).Some? && Keeps(run, Contract) && Keeps(run, ResetWaits) && Keeps(run, LossWaits)
  }

  // ---------- What is asked of a client ----------

  predicate IsStart(asked: Option<Request>) {
    asked.Some? && asked.value.AcquireStart?
  }

  predicate AsksStart(mail: Mail) {
    mail.message.Message? && IsStart(mail.message.request)
  }

  /** The loop has a request for a capture in hand and its worker has not been started. */
  predicate Starting(pc: Pc) {
    || (pc.Received? && IsStart(pc.asked))
    || pc.SettingFlag?
    || (InStartHandler(pc) && !pc.spawned)
  }

  /** A start is on its way to the loop or to its worker. */
  predicate StartPending(s: State) {
    Starting(s.pc) || exists i | s.taken <= i < |s.asked| :: AsksStart(s.asked[i])
  }

  predicate HasRead(s: State, w: nat) {
    exists j | 0 <= j < s.eventsRead && j < |s.wire| :: s.wire[j].worker == w && IsTerminal(s.wire[j].event)
  }

  predicate AsksForCapture(a: Action) {
    a.Ask? && a.question.Typed? && a.question.request.AcquireStart?
  }

  /** A client asks for a new capture only once it has read the terminal event of the one before. */
  predicate ReadsEndFirst(s: State, a: Action) {
    AsksForCapture(a) && s.workers != [] ==> HasRead(s, |s.workers| - 1)
  }

  /** And only when no start is still on its way, as one may be whose call has timed out. */
  predicate Discipline(s: State, a: Action) {
    ReadsEndFirst(s, a) && (AsksForCapture(a) ==> !StartPending(s))
  }
}
