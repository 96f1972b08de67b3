/**
 * The control loop as the plugin runs it: `serve` and `dispatch` over the shared flag, with the other
 * threads acting before every step of its own. What it does is proved equal to a schedule of steps of
 * the machine in ControlLoop, so what is proved of that machine's runs holds here.
 */
module Server {
  import opened Wrappers
  import opened Protocol
  import opened ControlLoop
  import opened ControlLoopSafety
  import opened Lockstep
  import Events

  /** Steps of the client, of the channel, of acquisition threads and of the plugin's own code. */
  predicate IsOther(a: Action) {
    OfClient(a) || OfPlugin(a)
  }

  predicate OthersOnly(others: seq<Action>) {
    forall a | a in others :: IsOther(a)
  }

  /** What a receive comes back with; `Message` if one is there, and otherwise nothing yet. */
  datatype Input = Message | Closed | Fails

  /** What the others do around one request, and how the handler and the sockets answer. */
  datatype Round = Round(
    before: seq<Action>,
    input: Input,
    beforeCheck: seq<Action>,
    beforeSet: seq<Action>,
    inHandler: seq<Action>,
    handlerOk: bool,
    beforeClear: seq<Action>,
    beforeReply: seq<Action>,
    delivered: bool,
    beforeShutdown: seq<Action>)
  {
    predicate Valid() {
      && OthersOnly(before) && OthersOnly(beforeCheck) && OthersOnly(beforeSet) && OthersOnly(inHandler)
      && OthersOnly(beforeClear) && OthersOnly(beforeReply) && OthersOnly(beforeShutdown)
    }
  }

  // ---------- The schedule ----------

  /** A run and the state it leads to. */
  datatype Trace = Trace(run: seq<Action>, state: State)
  {
    predicate Valid() {
      After(run) == Some(state)
    }
  }

  /** A step takes place if it is possible. */
  function Do(t: Trace, a: Action): Trace {
    if Enabled(t.state, a) then Trace(t.run + [a], Apply(t.state, a)) else t
  }

  function DoAll(t: Trace, actions: seq<Action>): Trace
    decreases |actions|
  {
    if actions == [] then t else DoAll(Do(t, actions[0]), actions[1..])
  }

  function AfterCheck(t: Trace, round: Round): Trace {
    if t.state.pc.Received? then Do(DoAll(t, round.beforeCheck), Check) else t
  }

  function AfterSet(t: Trace, round: Round): Trace {
    if t.state.pc.SettingFlag? then Do(DoAll(t, round.beforeSet), SetFlag) else t
  }

  function AfterHandler(t: Trace, round: Round): Trace {
    if t.state.pc.Handling? then Do(DoAll(t, round.inHandler), HandlerDone(round.handlerOk)) else t
  }

  function AfterClear(t: Trace, round: Round): Trace {
    if t.state.pc.ClearingAfterError? then Do(DoAll(t, round.beforeClear), ClearAfterError)
    else if t.state.pc.ClearingAfterReset? then Do(DoAll(t, round.beforeClear), ClearAfterReset)
    else t
  }

  /** From the loop's look at the flag to its answer. */
  function Decided(t: Trace, round: Round): Trace {
    AfterClear(AfterHandler(AfterSet(t, round), round), round)
  }

  function AfterReply(t: Trace, round: Round): Trace {
    if t.state.pc.Replying? then Do(DoAll(t, round.beforeReply), if round.delivered then Reply else ReplyFails) else t
  }

  function AfterShutdown(t: Trace, round: Round): Trace {
    if t.state.pc.ShuttingDown? then Do(DoAll(t, round.beforeShutdown), RunShutdown) else t
  }

  /** From a message just taken off the channel to its reply and what follows. */
  function Answered(t: Trace, round: Round): Trace {
    AfterShutdown(AfterReply(Decided(AfterCheck(t, round), round), round), round)
  }

  /** The loop's steps in one round: on and on from wherever it stands, the others first each time. */
  function TurnOf(t: Trace, round: Round): Trace {
    var u := DoAll(t, round.before);
    match round.input
    case Closed => Do(u, Hangup)
    case Fails => Do(u, ReceiveFails)
    case Message =>
      if u.state.taken < |u.state.asked| then Answered(Do(u, Receive), round) else u
  }

  /** Round after round until the loop is no longer idle. */
  function ServeOf(t: Trace, rounds: seq<Round>): Trace
    decreases |rounds|
  {
    if rounds == [] || !t.state.pc.Idle? then t else ServeOf(TurnOf(t, rounds[0]), rounds[1..])
  }

  /** The same place in the loop; a handler may have started workers meanwhile. */
  predicate SamePlace(before: Pc, after: Pc) {
    after == before || (before.Handling? && after == before.(spawned := true))
  }

  /** What the others cannot do: move the loop, greet, raise the flag, receive or answer. */
  predicate OthersLeave(s: State, s': State) {
    && SamePlace(s.pc, s'.pc) && s'.greeted == s.greeted && (s'.running ==> s.running)
    && s'.serving == s.serving && s'.replies == s.replies && s'.shutdowns == s.shutdowns
  }

  lemma PluginLeaves(s: State, a: Action)
    requires Enabled(s, a) && OfPlugin(a)
    ensures OthersLeave(s, Apply(s, a))
  {
  }

  lemma OtherStep(s: State, a: Action)
    requires Enabled(s, a) && IsOther(a)
    ensures OthersLeave(s, Apply(s, a))
  {
    if OfPlugin(a) {
      PluginLeaves(s, a);
    }
  }

  lemma DoExtends(t: Trace, a: Action)
    requires t.Valid()
    ensures Do(t, a).Valid()
  {
    assert (t.run + [a])[..|t.run|] == t.run;
  }

  lemma {:induction false} Others(t: Trace, others: seq<Action>)
    requires t.Valid() && OthersOnly(others)
    ensures DoAll(t, others).Valid() && OthersLeave(t.state, DoAll(t, others).state)
    decreases |others|
  {
    if others != [] {
      var a := others[0];
      assert a in others;
      DoExtends(t, a);
      if Enabled(t.state, a) {
        OtherStep(t.state, a);
      }
      assert forall b | b in others[1..] :: b in others;
      Others(Do(t, a), others[1..]);
    }
  }

  // ---------- The loop ----------

  /** The loop about to send the outcome of a request. */
  function ReplyOf(seqNo: nat, asked: Option<Request>, reply: Result<Arm, Refusal>): Pc {
    match reply
    case Ok(arm) => Replying(asked, Response(seqNo, None, Some(arm)))
    case Err(why) => Replying(asked, Refuse(seqNo, why))
  }

  /** The events on the wire, without the threads that sent them. */
  function EventsOf(wire: seq<Sent>): seq<Events.Event> {
    seq(|wire|, i requires 0 <= i < |wire| => wire[i].event)
  }

  lemma EventsOfSnoc(wire: seq<Sent>, sent: Sent)
    ensures EventsOf(wire + [sent]) == EventsOf(wire) + [sent.event]
  {
  }

  /** The events another thread's step puts on the wire. */
  function Pushed(s: State, a: Action): seq<Events.Event>
    requires Enabled(s, a)
  {
    if a.Push? && a.accepted then [a.event]
    else if a.PushEnd? && a.accepted then [s.workers[a.worker].phase.last]
    else []
  }

  lemma SocketStep(s: State, a: Action)
    requires Enabled(s, a) && IsOther(a)
    ensures var next := Apply(s, a);
            && next.greeted == s.greeted
            && next.running == (s.running && !a.ClearFlag? && !a.LoseDevice?)
            && EventsOf(next.wire) == EventsOf(s.wire) + Pushed(s, a)
  {
    if Pushed(s, a) != [] {
      EventsOfSnoc(s.wire, Sent(a.worker, Pushed(s, a)[0]));
    }
  }

  class Server {
    const events: Events.Events
    var greeted: bool
    /** Everything outside the loop's own variables, and where the loop is. */
    var world: State
    ghost var run: seq<Action>

    ghost predicate Consistent()
      reads this, events
    {
      && After(run) == Some(world)
      && world.running == events.running
      && EventsOf(world.wire) == events.wire
    }

    ghost predicate Valid()
      reads this, events
    {
      Consistent() && world.greeted == greeted
    }

    ghost function Now(): Trace
      reads this
    {
      Trace(run, world)
    }

    constructor (events: Events.Events)
      requires !events.running && events.wire == []
      ensures Valid() && this.events == events && Now() == Trace([], START) && fresh(this)
    {
      this.events := events;
      greeted, world, run := false, START, [];
    }

    /** One atomic step of the machine. */
    method Step(a: Action)
      requires After(run) == Some(world) && Enabled(world, a)
      modifies this`world, this`run
      ensures Now() == Do(old(Now()), a) && After(run) == Some(world)
    {
      DoExtends(Now(), a);
      world := Apply(world, a);
      run := run + [a];
    }

    /** A step of another thread, on the shared flag and the event socket. */
    method Perform(a: Action)
      requires Valid() && IsOther(a) && Enabled(world, a)
      modifies this`world, this`run, events
      ensures Valid() && Now() == Do(old(Now()), a)
    {
      SocketStep(world, a);
      match a {
        case Push(_, event, accepted) =>
          var _ := events.Send(event, accepted);
        case ClearFlag(_, event) =>
          events.Lower(event);
        case LoseDevice =>
          events.Lower(Events.DeviceLost);
        case PushEnd(w, accepted) =>
          var _ := events.Push(world.workers[w].phase.last, accepted);
        case _ =>
      }
      Step(a);
    }

    /** The other threads act; those of their steps that are possible take place. */
    method Interfere(others: seq<Action>)
      requires Valid() && OthersOnly(others)
      modifies this`world, this`run, events
      ensures Valid() && Now() == DoAll(old(Now()), others)
      ensures OthersLeave(old(world), world) && (events.running ==> old(events.running))
    {
      for i := 0 to |others|
        invariant Valid() && DoAll(Now(), others[i..]) == DoAll(old(Now()), others)
      {
        assert others[i] in others && others[i..][1..] == others[i + 1..];
        if Enabled(world, others[i]) {
          Perform(others[i]);
        }
      }
      Others(old(Now()), others);
    }

    /** A handler runs: its own steps and everybody else's happen, then it returns. */
    method Handle(round: Round)
      requires Valid() && round.Valid() && world.pc.Handling?
      modifies this`world, this`run, events
      ensures Consistent() && Now() == AfterHandler(old(Now()), round)
      ensures var pc := old(world.pc);
              && world.pc == Handled(pc.seqNo, pc.request, round.handlerOk)
              && world.greeted == (greeted || (round.handlerOk && pc.request.Hello?))
      ensures events.running ==> old(events.running)
    {
      Interfere(round.inHandler);
      Step(HandlerDone(round.handlerOk));
    }

    method Hello(seqNo: nat, request: Request, round: Round) returns (reply: Result<Arm, Refusal>)
      requires Valid() && round.Valid() && world.pc == Received(seqNo, Some(request)) && request.Hello?
      modifies this`world, this`run, this`greeted, events
      ensures Valid() && Now() == Decided(Do(old(Now()), Check), round)
      ensures world.pc == ReplyOf(seqNo, Some(request), reply)
      ensures reply == if old(greeted) then Err(Invalid) else if round.handlerOk then Ok(HelloResult) else Err(Plugin)
      ensures greeted == (old(greeted) || reply.Ok?)
    {
      Step(Check);
      if greeted {
        return Err(Invalid);
      }
      Handle(round);
      if !round.handlerOk {
        return Err(Plugin);
      }
      greeted := true;
      return Ok(ArmOf(request));
    }

    method Configure(seqNo: nat, request: Request, round: Round) returns (reply: Result<Arm, Refusal>)
      requires Valid() && round.Valid() && world.pc == Received(seqNo, Some(request)) && greeted && Configures(request)
      modifies this`world, this`run, events
      ensures Valid() && Now() == Decided(Do(old(Now()), Check), round)
      ensures world.pc == ReplyOf(seqNo, Some(request), reply)
      ensures reply == if old(events.running) then Err(Busy)
                       else if round.handlerOk then Ok(ArmOf(request)) else Err(Plugin)
      ensures reply.Ok? ==> reply.value == if request.Describe? then Description
                                           else if request.GetConfig? then GetConfigResult else SetConfigResult
      ensures reply != Err(Busy) ==> !events.running
    {
      var running := events.IsRunning();
      Step(Check);
      if running {
        return Err(Busy);
      }
      Handle(round);
      return if round.handlerOk then Ok(ArmOf(request)) else Err(Plugin);
    }

    method Start(seqNo: nat, request: Request, round: Round) returns (reply: Result<Arm, Refusal>)
      requires Valid() && round.Valid() && world.pc == Received(seqNo, Some(request))
      requires greeted && request.AcquireStart?
      modifies this`world, this`run, events
      ensures Valid() && Now() == Decided(Do(old(Now()), Check), round)
      ensures world.pc == ReplyOf(seqNo, Some(request), reply)
      ensures reply == if old(events.running) then Err(Busy)
                       else if round.handlerOk then Ok(AcquireStartDone) else Err(Plugin)
      ensures reply == Err(Plugin) ==> !events.running
    {
      var running := events.IsRunning();
      Step(Check);
      if running {
        return Err(Busy);
      }
      reply := RaiseAndStart(seqNo, request, round);
    }

    /** The part of AcquireStart after the flag was seen down. */
    method RaiseAndStart(seqNo: nat, request: Request, round: Round) returns (reply: Result<Arm, Refusal>)
      requires Valid() && round.Valid() && world.pc == SettingFlag(seqNo, request)
      requires greeted && request.AcquireStart?
      modifies this`world, this`run, events
      ensures Valid() && Now() == Decided(old(Now()), round)
      ensures world.pc == ReplyOf(seqNo, Some(request), reply)
      ensures reply == if round.handlerOk then Ok(AcquireStartDone) else Err(Plugin)
      ensures reply == Err(Plugin) ==> !events.running
    {
      Interfere(round.beforeSet);
      events.SetRunning(true);
      Step(SetFlag);
      Handle(round);
      if !round.handlerOk {
        Interfere(round.beforeClear);
        events.SetRunning(false);
        Step(ClearAfterError);
        return Err(Plugin);
      }
      return Ok(ArmOf(request));
    }

    method Stop(seqNo: nat, request: Request, round: Round) returns (reply: Result<Arm, Refusal>)
      requires Valid() && round.Valid() && world.pc == Received(seqNo, Some(request)) && greeted && request.AcquireStop?
      modifies this`world, this`run, events
      ensures Valid() && Now() == Decided(Do(old(Now()), Check), round)
      ensures world.pc == ReplyOf(seqNo, Some(request), reply)
      ensures reply == if old(events.running) && !round.handlerOk then Err(Plugin) else Ok(AcquireStopDone)
    {
      var running := events.IsRunning();
      Step(Check);
      if running {
        Handle(round);
        if !round.handlerOk {
          return Err(Plugin);
        }
      }
      return Ok(ArmOf(request));
    }

    method Reset(seqNo: nat, request: Request, round: Round) returns (reply: Result<Arm, Refusal>)
      requires Valid() && round.Valid() && world.pc == Received(seqNo, Some(request)) && greeted && request.Reset?
      modifies this`world, this`run, events
      ensures Valid() && Now() == Decided(Do(old(Now()), Check), round)
      ensures world.pc == ReplyOf(seqNo, Some(request), reply)
      ensures reply == if round.handlerOk then Ok(ResetDone) else Err(Plugin)
      ensures reply.Ok? ==> !events.running
    {
      Step(Check);
      Handle(round);
      if !round.handlerOk {
        return Err(Plugin);
      }
      Interfere(round.beforeClear);
      events.SetRunning(false);
      Step(ClearAfterReset);
      return Ok(ArmOf(request));
    }

    /** The answer to one request: a result arm, or an error. */
    method Dispatch(seqNo: nat, asked: Option<Request>, round: Round) returns (reply: Result<Arm, Refusal>)
      requires Valid() && round.Valid() && world.pc == Received(seqNo, asked)
      modifies this`world, this`run, this`greeted, events
      ensures Valid() && Now() == Decided(AfterCheck(old(Now()), round), round)
      ensures world.pc == ReplyOf(seqNo, asked, reply)
      ensures asked.None? || (!old(greeted) && !asked.value.Hello?) ==> reply == Err(Invalid)
      ensures old(greeted) && asked == Some(Shutdown) ==> reply == Ok(ShutdownDone)
      ensures greeted == (old(greeted) || (asked == Some(Request.Hello) && reply.Ok?))
    {
      Interfere(round.beforeCheck);
      if asked.None? {
        Step(Check);
        return Err(Invalid);
      }
      var request := asked.value;
      if !greeted && !request.Hello? {
        Step(Check);
        return Err(Invalid);
      }
      match request {
        case Hello =>
          reply := Hello(seqNo, request, round);
        case AcquireStart(_) =>
          reply := Start(seqNo, request, round);
        case AcquireStop =>
          reply := Stop(seqNo, request, round);
        case Reset =>
          reply := Reset(seqNo, request, round);
        case Shutdown =>
          Step(Check);
          reply := Ok(ArmOf(request));
        case _ =>
          reply := Configure(seqNo, request, round);
      }
    }

    /** Puts a reply on the control socket, unless the socket refuses it. */
    method Respond(round: Round) returns (ok: bool)
      requires Valid() && round.Valid() && world.pc.Replying?
      modifies this`world, this`run, events
      ensures Valid() && Now() == AfterReply(old(Now()), round) && ok == round.delivered
      ensures var pc := old(world.pc);
              if ok then
                && world.replies == old(world.replies) + [Answer(old(world.serving), pc.response)]
                && world.pc == if pc.asked == Some(Shutdown) && pc.response.error.None? then ShuttingDown else Idle
              else world.replies == old(world.replies) && world.pc.Broken?
    {
      Interfere(round.beforeReply);
      if round.delivered {
        Step(Reply);
      } else {
        Step(ReplyFails);
      }
      return round.delivered;
    }

    /** A request that was not decoded gets an error with number zero. */
    method RefuseGarbage(round: Round) returns (sent: bool)
      requires Valid() && round.Valid() && world.pc == Replying(None, Refuse(0, Invalid))
      modifies this`world, this`run, events
      ensures Valid() && Now() == Answered(old(Now()), round)
      ensures sent == round.delivered && if sent then world.pc.Idle? else world.pc.Broken?
    {
      sent := Respond(round);
    }

    /** A request that was decoded: its dispatch, its reply, and the end of the loop if it was Shutdown. */
    method Process(seqNo: nat, asked: Option<Request>, round: Round) returns (over: bool, clean: bool)
      requires Valid() && round.Valid() && world.pc == Received(seqNo, asked)
      modifies this`world, this`run, this`greeted, events
      ensures Valid() && Now() == Answered(old(Now()), round)
      ensures clean == round.delivered
      ensures over == (!round.delivered || (old(greeted) && asked == Some(Shutdown)))
      ensures world.pc.Idle? == !over && world.pc.Exited? == (over && clean) && world.pc.Broken? == !clean
    {
      var reply := Dispatch(seqNo, asked, round);
      var sent := Respond(round);
      if !sent {
        return true, false;
      }
      if asked == Some(Shutdown) && reply.Ok? {
        Interfere(round.beforeShutdown);
        Step(RunShutdown);
        return true, true;
      }
      return false, true;
    }

    /** A message is there: it is taken off the channel and answered. */
    method Take(round: Round) returns (over: bool, clean: bool)
      requires Valid() && round.Valid() && world.pc.Idle? && world.taken < |world.asked|
      modifies this`world, this`run, this`greeted, events
      ensures Valid() && Now() == Answered(Do(old(Now()), Receive), round)
      ensures clean == round.delivered
      ensures world.pc.Idle? == !over && world.pc.Exited? == (over && clean) && world.pc.Broken? == !clean
    {
      var message := world.asked[world.taken].message;
      Step(Receive);
      if message.Undecodable? {
        clean := RefuseGarbage(round);
        over := !clean;
      } else {
        over, clean := Process(message.seqNo, message.request, round);
      }
    }

    /** One turn of the loop: at most one request, and whether the loop is over and how. */
    method Turn(round: Round) returns (over: bool, clean: bool)
      requires Valid() && round.Valid() && world.pc.Idle?
      modifies this`world, this`run, this`greeted, events
      ensures Valid() && Now() == TurnOf(old(Now()), round)
      ensures round.input.Closed? ==> over && clean && world.pc.Exited?
      ensures round.input.Fails? ==> over && !clean && world.pc.Deaf?
      ensures over == !world.pc.Idle?
      ensures if over then EndedBy(round, clean, world.pc) else clean && round.input.Message?
    {
      Interfere(round.before);
      if round.input.Closed? {
        Step(Hangup);
        return true, true;
      }
      if round.input.Fails? {
        Step(ReceiveFails);
        return true, false;
      }
      if world.taken >= |world.asked| {
        return false, true;
      }
      over, clean := Take(round);
    }

    /**
     * Serves until the socket closes or breaks, a reply cannot be sent or an accepted Shutdown has been
     * answered. `served` rounds were needed: the last of them ended the loop, unless it is still serving.
     * The result is an error exactly if in that round the receive failed or the reply was not delivered.
     */
    method Serve(rounds: seq<Round>) returns (clean: bool, ghost served: nat)
      requires Valid() && world.pc.Idle?
      requires forall r | r in rounds :: r.Valid()
      modifies this`world, this`run, this`greeted, events
      ensures Valid() && Now() == ServeOf(old(Now()), rounds)
      ensures ServedTo(rounds, served, clean, world.pc) && (world.pc.Idle? ==> served == |rounds|)
      ensures !clean <==> !world.pc.Idle? && (rounds[served - 1].input.Fails?
                                              || (rounds[served - 1].input.Message? && !rounds[served - 1].delivered))
      ensures Gated(world) && world.shutdowns == Replies(run, ShutdownDone) <= 1
      ensures world.shutdowns == 1 ==> world.pc.Exited?
    {
      clean := true;
      var over := false;
      var i := 0;
      while i < |rounds| && !over
        invariant i <= |rounds|
        invariant Valid() && ServeOf(Now(), rounds[i..]) == ServeOf(old(Now()), rounds)
        invariant !over <==> world.pc.Idle?
        invariant ServedTo(rounds, i, clean, world.pc)
      {
        assert rounds[i] in rounds && rounds[i..][1..] == rounds[i + 1..];
        ServeStep(Now(), rounds[i..]);
        over, clean := Turn(rounds[i]);
        ServedOne(rounds, i, clean, world.pc);
        i := i + 1;
      }
      served := i;
      ServedMeans(rounds, i, clean, world.pc);
      ServedRun(run);
    }
  }

  /** `served` rounds have been needed; all before the last found the loop waiting, and so may the last. */
  predicate ServedTo(rounds: seq<Round>, served: nat, clean: bool, pc: Pc) {
    && served <= |rounds|
    && (forall i | 0 <= i < served - 1 :: rounds[i].input.Message?)
    && if pc.Idle? then clean && (served > 0 ==> rounds[served - 1].input.Message?)
       else served > 0 && EndedBy(rounds[served - 1], clean, pc)
  }

  lemma ServedOne(rounds: seq<Round>, served: nat, clean: bool, pc: Pc)
    requires served < |rounds| && ServedTo(rounds, served, true, Idle)
    requires if pc.Idle? then clean && rounds[served].input.Message? else EndedBy(rounds[served], clean, pc)
    ensures ServedTo(rounds, served + 1, clean, pc)
  {
  }

  lemma ServedMeans(rounds: seq<Round>, served: nat, clean: bool, pc: Pc)
    requires ServedTo(rounds, served, clean, pc)
    ensures !clean <==> !pc.Idle? && (rounds[served - 1].input.Fails?
                                      || (rounds[served - 1].input.Message? && !rounds[served - 1].delivered))
    ensures pc.Exited? || pc.Idle? <==> clean
  {
  }

  lemma {:induction false} ServeStep(t: Trace, rounds: seq<Round>)
    requires rounds != [] && t.state.pc.Idle?
    ensures ServeOf(t, rounds) == ServeOf(TurnOf(t, rounds[0]), rounds[1..])
  {
  }

  lemma ServedRun(run: seq<Action>)
    requires After(run).Some?
    ensures var s := After(run).value;
            && Gated(s) && s.shutdowns + (if s.pc.ShuttingDown? then 1 else 0) == Replies(run, ShutdownDone) <= 1
            && (s.shutdowns == 1 ==> s.pc.ShuttingDown? || s.pc.Exited?)
  {
    HandlersAreGated(run);
    ShutdownOnce(run);
  }

  /** How the loop ends in its last round. */
  predicate EndedBy(round: Round, clean: bool, pc: Pc) {
    match round.input
    case Closed => clean && pc.Exited?
    case Fails => !clean && pc.Deaf?
    case Message => if round.delivered then clean && pc.Exited? else !clean && pc.Broken?
  }

  // ---------- What the schedule means ----------

  /** A step of another thread takes place, in its turn, exactly if it is possible by then. */
  lemma {:induction false} OthersTakePlace(t: Trace, before: seq<Action>, a: Action, later: seq<Action>)
    ensures var u := DoAll(t, before);
            && (Enabled(u.state, a) ==>
                  DoAll(t, before + ([a] + later)) == DoAll(Trace(u.run + [a], Apply(u.state, a)), later))
            && (!Enabled(u.state, a) ==> DoAll(t, before + ([a] + later)) == DoAll(u, later))
    decreases |before|
  {
    if before == [] {
      assert [] + ([a] + later) == [a] + later && ([a] + later)[1..] == later;
    } else {
      assert (before + ([a] + later))[1..] == before[1..] + ([a] + later);
      OthersTakePlace(Do(t, before[0]), before[1..], a, later);
    }
  }

  /** What only a reply, a receive or the shutdown hook changes. */
  predicate SameLog(s: State, s': State) {
    s'.serving == s.serving && s'.replies == s.replies && s'.shutdowns == s.shutdowns
  }

  /** `u` is `t` after the others have acted and the loop has taken the step `a`. */
  predicate Stepped(t: Trace, others: seq<Action>, a: Action, u: Trace) {
    u.Valid() && u.run == DoAll(t, others).run + [a] && After(u.run) == Some(u.state)
  }

  lemma LoopStep(t: Trace, others: seq<Action>, a: Action)
    requires t.Valid() && OthersOnly(others) && Enabled(DoAll(t, others).state, a)
    ensures Stepped(t, others, a, Do(DoAll(t, others), a))
  {
    Others(t, others);
    DoExtends(DoAll(t, others), a);
  }

  /** The loop is done with its request and has neither answered it nor taken another. */
  predicate ReadyToReply(t: Trace, seqNo: nat, asked: Option<Request>, before: State) {
    && t.Valid() && t.state.pc.Replying? && SameLog(before, t.state)
    && t.state.pc.asked == asked && t.state.pc.response.seqNo == seqNo
  }

  lemma CheckStep(t: Trace, round: Round)
    requires t.Valid() && round.Valid() && t.state.pc.Received?
    ensures var u, pc := AfterCheck(t, round), t.state.pc;
            && Stepped(t, round.beforeCheck, Check, u) && SameLog(t.state, u.state)
            && u.state.pc == Checked(t.state.greeted, DoAll(t, round.beforeCheck).state.running, pc.seqNo, pc.asked)
  {
    Others(t, round.beforeCheck);
    LoopStep(t, round.beforeCheck, Check);
  }

  lemma SetStep(t: Trace, round: Round)
    requires t.Valid() && round.Valid() && t.state.pc.SettingFlag?
    ensures var u, pc := AfterSet(t, round), t.state.pc;
            && Stepped(t, round.beforeSet, SetFlag, u) && SameLog(t.state, u.state)
            && u.state.pc == Handling(pc.seqNo, pc.request, false)
  {
    Others(t, round.beforeSet);
    LoopStep(t, round.beforeSet, SetFlag);
  }

  lemma HandlerStep(t: Trace, round: Round)
    requires t.Valid() && round.Valid() && t.state.pc.Handling?
    ensures var u, pc := AfterHandler(t, round), t.state.pc;
            && Stepped(t, round.inHandler, HandlerDone(round.handlerOk), u) && SameLog(t.state, u.state)
            && u.state.pc == Handled(pc.seqNo, pc.request, round.handlerOk)
  {
    Others(t, round.inHandler);
    LoopStep(t, round.inHandler, HandlerDone(round.handlerOk));
  }

  lemma ClearStep(t: Trace, round: Round)
    requires t.Valid() && round.Valid() && (t.state.pc.ClearingAfterError? || t.state.pc.ClearingAfterReset?)
    ensures var u, pc := AfterClear(t, round), t.state.pc;
            && Stepped(t, round.beforeClear, if pc.ClearingAfterError? then ClearAfterError else ClearAfterReset, u)
            && ReadyToReply(u, pc.seqNo, Some(pc.request), t.state)
  {
    Others(t, round.beforeClear);
    LoopStep(t, round.beforeClear, if t.state.pc.ClearingAfterError? then ClearAfterError else ClearAfterReset);
  }

  lemma HandlerDecides(t: Trace, round: Round)
    requires t.Valid() && round.Valid() && t.state.pc.Handling?
    ensures var pc := t.state.pc;
            ReadyToReply(AfterClear(AfterHandler(t, round), round), pc.seqNo, Some(pc.request), t.state)
  {
    HandlerStep(t, round);
    var u := AfterHandler(t, round);
    if !u.state.pc.Replying? {
      ClearStep(u, round);
    }
  }

  /** Whatever the request and whatever the others do, the loop comes to answer it. */
  lemma RequestIsDecided(t: Trace, round: Round)
    requires t.Valid() && round.Valid() && t.state.pc.Received?
    ensures var pc := t.state.pc;
            ReadyToReply(Decided(AfterCheck(t, round), round), pc.seqNo, pc.asked, t.state)
  {
    CheckStep(t, round);
    var u := AfterCheck(t, round);
    if u.state.pc.SettingFlag? {
      SetStep(u, round);
      HandlerDecides(AfterSet(u, round), round);
    } else if u.state.pc.Handling? {
      HandlerDecides(u, round);
    }
  }

  /** Shutdown needs no handler: it is accepted exactly after Hello. */
  lemma ShutdownDecided(t: Trace, round: Round)
    requires t.Valid() && round.Valid() && t.state.pc.Received? && t.state.pc.asked == Some(Shutdown)
    ensures var pc := Decided(AfterCheck(t, round), round).state.pc;
            pc.Replying? && (pc.response.error.None? <==> t.state.greeted)
  {
    CheckStep(t, round);
  }

  lemma ReplyStep(t: Trace, round: Round)
    requires t.Valid() && round.Valid() && t.state.pc.Replying?
    ensures var u, pc := AfterReply(t, round), t.state.pc;
            && Stepped(t, round.beforeReply, if round.delivered then Reply else ReplyFails, u)
            && u.state.shutdowns == t.state.shutdowns
            && (round.delivered ==>
                  && u.state.replies == t.state.replies + [Answer(t.state.serving, pc.response)]
                  && u.state.pc ==
                     if pc.asked == Some(Shutdown) && pc.response.error.None? then ShuttingDown else Idle)
            && (!round.delivered ==>
                  u.state.replies == t.state.replies && u.state.pc == Broken(pc.asked, pc.response))
  {
    Others(t, round.beforeReply);
    if round.delivered {
      LoopStep(t, round.beforeReply, Reply);
    } else {
      LoopStep(t, round.beforeReply, ReplyFails);
    }
  }

  lemma ShutdownStep(t: Trace, round: Round)
    requires t.Valid() && round.Valid() && t.state.pc.ShuttingDown?
    ensures var u := AfterShutdown(t, round);
            && Stepped(t, round.beforeShutdown, RunShutdown, u)
            && u.state.replies == t.state.replies && u.state.shutdowns == t.state.shutdowns + 1 && u.state.pc.Exited?
  {
    Others(t, round.beforeShutdown);
    LoopStep(t, round.beforeShutdown, RunShutdown);
  }

  /** The number a reply to this message has to carry. */
  function NumberOf(message: Inbound): nat {
    match message
    case Undecodable => 0
    case Message(seqNo, _) => seqNo
  }

  function RequestIn(message: Inbound): Option<Request> {
    match message
    case Undecodable => None
    case Message(_, request) => request
  }

  /** A message that was taken off the channel has been decided on. */
  lemma MessageIsDecided(t: Trace, round: Round)
    requires t.Valid() && round.Valid() && t.state.pc.Idle? && t.state.taken < |t.state.asked|
    ensures var mail, received := t.state.asked[t.state.taken], Do(t, Receive);
            var u := Decided(AfterCheck(received, round), round);
            && received.run == t.run + [Receive] && received.state.serving == mail.call
            && SameLog(received.state, u.state) && received.state.greeted == t.state.greeted
            && received.state.replies == t.state.replies && received.state.shutdowns == t.state.shutdowns
            && ReadyToReply(u, NumberOf(mail.message), RequestIn(mail.message), received.state)
            && (RequestIn(mail.message) == Some(Shutdown) ==>
                  (u.state.pc.response.error.None? <==> t.state.greeted))
  {
    DoExtends(t, Receive);
    var received := Do(t, Receive);
    if received.state.pc.Received? {
      RequestIsDecided(received, round);
      if received.state.pc.asked == Some(Shutdown) {
        ShutdownDecided(received, round);
      }
    }
  }

  /** The mail a round finds once the others have acted is a Shutdown that will be accepted. */
  predicate AcceptedShutdown(s: State) {
    s.greeted && s.taken < |s.asked| && RequestIn(s.asked[s.taken].message) == Some(Shutdown)
  }

  /**
   * A round that finds a message answers it, whatever the request and whatever the others do in between:
   * exactly one reply is added to the channel if it can be delivered and none if not, it belongs to the
   * call that message came from, it carries the message's own number, and it is an error or the one arm
   * the request asks for. A message without a request is told that it is invalid.
   */
  lemma TurnAnswersOnce(t: Trace, round: Round)
    requires t.Valid() && round.Valid() && t.state.pc.Idle? && round.input.Message?
    requires var s := DoAll(t, round.before).state; s.taken < |s.asked|
    ensures var s := DoAll(t, round.before).state;
            var mail, replies := s.asked[s.taken], TurnOf(t, round).state.replies;
            if !round.delivered then replies == t.state.replies
            else
              && |replies| == |t.state.replies| + 1 && replies[..|t.state.replies|] == t.state.replies
              && replies[|t.state.replies|].call == mail.call
              && replies[|t.state.replies|].response.seqNo == NumberOf(mail.message)
              && Proper(RequestIn(mail.message), replies[|t.state.replies|].response)
              && (RequestIn(mail.message).None? ==> replies[|t.state.replies|].response.error == Some(Invalid))
  {
    var u := DoAll(t, round.before);
    Others(t, round.before);
    MessageIsDecided(u, round);
    var decided := Decided(AfterCheck(Do(u, Receive), round), round);
    ProperReplyAlways(decided.run);
    RefusalsExplained(decided.run);
    ReplyStep(decided, round);
    if AfterReply(decided, round).state.pc.ShuttingDown? {
      ShutdownStep(AfterReply(decided, round), round);
    }
  }

  /**
   * How a round ends: a closed socket ends the loop in order, a failed receive and a reply that cannot be
   * delivered end it in error, and an accepted Shutdown whose reply went out ends it with the hook run
   * once. After anything else the loop waits for the next message, and the hook has not run.
   */
  lemma TurnEnds(t: Trace, round: Round)
    requires t.Valid() && round.Valid() && t.state.pc.Idle?
    ensures var s, v := DoAll(t, round.before).state, TurnOf(t, round).state;
            var hooks := v.shutdowns - t.state.shutdowns;
            match round.input
            case Closed => v.pc.Exited? && hooks == 0
            case Fails => v.pc.Deaf? && hooks == 0
            case Message =>
              if s.taken >= |s.asked| then v == s && hooks == 0
              else if !round.delivered then v.pc.Broken? && hooks == 0
              else if AcceptedShutdown(s) then v.pc.Exited? && hooks == 1
              else v.pc.Idle? && hooks == 0
  {
    var u := DoAll(t, round.before);
    Others(t, round.before);
    if round.input.Message? && u.state.taken < |u.state.asked| {
      MessageIsDecided(u, round);
      var decided := Decided(AfterCheck(Do(u, Receive), round), round);
      ReplyStep(decided, round);
      if AfterReply(decided, round).state.pc.ShuttingDown? {
        ShutdownStep(AfterReply(decided, round), round);
      }
    }
  }
}
