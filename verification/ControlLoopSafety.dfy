/** What holds in every state a run of the control loop can reach, under any interleaving. */
module ControlLoopSafety {
  import opened Wrappers
  import opened Protocol
  import opened Events
  import opened ControlLoop

  // ---------- Results that need no cooperation from plugin or client ----------

  predicate Configures(request: Request) {
    request.Describe? || request.GetConfig? || request.SetConfig?
  }

  /** Which handlers can be running, and with what flag. */
  predicate Gated(s: State) {
    && (s.running ==> s.greeted)
    && (s.pc.SettingFlag? ==> s.greeted && !s.running && s.pc.request.AcquireStart?)
    && (s.pc.Handling? ==> s.greeted == !s.pc.request.Hello? && !s.pc.request.Shutdown?)
    && (s.pc.Handling? && Configures(s.pc.request) ==> !s.running)
    && (s.pc.ClearingAfterError? ==> s.greeted && s.pc.request.AcquireStart?)
    && (s.pc.ClearingAfterReset? ==> s.greeted && s.pc.request.Reset?)
  }

  lemma GatedLoopStep(s: State, a: Action)
    requires Gated(s) && Enabled(s, a) && OfLoop(a)
    ensures Gated(Apply(s, a))
  {
  }

  lemma GatedStep(s: State, a: Action)
    requires Gated(s) && Enabled(s, a)
    ensures Gated(Apply(s, a))
  {
    if OfLoop(a) {
      GatedLoopStep(s, a);
    }
  }

  /**
   * No handler but Hello's runs before Hello has succeeded, and Hello's never runs again; the flag is
   * only ever set afterwards. Describe and the two configuration handlers have the flag down for as
   * long as they run: no step of any thread can raise it under them.
   */
  lemma {:induction false} HandlersAreGated(run: seq<Action>)
    requires After(run).Some?
    ensures Gated(After(run).value)
    decreases |run|
  {
    if run != [] {
      HandlersAreGated(run[..|run| - 1]);
      GatedStep(After(run[..|run| - 1]).value, run[|run| - 1]);
    }
  }

  lemma GreetedNeverReverts(s: State, a: Action)
    requires Enabled(s, a) && s.greeted
    ensures Apply(s, a).greeted
  {
  }

  predicate AboutToReply(s: State, arm: Arm) {
    s.pc.Replying? && s.pc.response.result == Some(arm)
  }

  /** How many replies of this arm have been sent. */
  function Replies(run: seq<Action>, arm: Arm): nat
    decreases |run|
  {
    if run == [] then 0 else
      var earlier, a := run[..|run| - 1], run[|run| - 1];
      var before := After(earlier);
      Replies(earlier, arm) + if a.Reply? && before.Some? && AboutToReply(before.value, arm) then 1 else 0
  }

  lemma OneHelloStep(s: State, a: Action)
    requires Gated(s) && Enabled(s, a) && (AboutToReply(s, HelloResult) ==> s.greeted)
    ensures AboutToReply(Apply(s, a), HelloResult) ==> Apply(s, a).greeted
    ensures AboutToReply(Apply(s, a), HelloResult) ==> (AboutToReply(s, HelloResult) && !a.Reply?) || !s.greeted
  {
  }

  /** At most one Hello is ever answered with a result, and none before the device is there. */
  lemma {:induction false} OneHello(run: seq<Action>)
    requires After(run).Some?
    ensures var s := After(run).value;
            && Replies(run, HelloResult) <= 1
            && (Replies(run, HelloResult) == 1 || AboutToReply(s, HelloResult) ==> s.greeted)
            && (AboutToReply(s, HelloResult) ==> Replies(run, HelloResult) == 0)
    decreases |run|
  {
    if run != [] {
      var earlier, a := run[..|run| - 1], run[|run| - 1];
      HandlersAreGated(earlier);
      OneHello(earlier);
      OneHelloStep(After(earlier).value, a);
      if After(earlier).value.greeted {
        GreetedNeverReverts(After(earlier).value, a);
      }
    }
  }

  /** Whether a terminal send has begun since the loop last raised the flag. */
  predicate ClearedSinceSet(run: seq<Action>) {
    run == [] || ClearedAfter(ClearedSinceSet(run[..|run| - 1]), run[|run| - 1])
  }

  predicate ClearedAfter(cleared: bool, a: Action) {
    !a.SetFlag? && (a.ClearFlag? || a.LoseDevice? || cleared)
  }

  predicate RepliesToStart(s: State) {
    s.pc.Replying? && s.pc.asked.Some? && s.pc.asked.value.AcquireStart?
  }

  predicate StartFlag(s: State, cleared: bool) {
    && (InStartHandler(s.pc) ==> s.running == !cleared)
    && (RepliesToStart(s) && s.pc.response.error.None? ==> s.running == !cleared)
    && (RepliesToStart(s) && s.pc.response.error == Some(Plugin) ==> !s.running)
  }

  lemma StartFlagLoopStep(s: State, a: Action, cleared: bool)
    requires Gated(s) && Enabled(s, a) && StartFlag(s, cleared) && OfLoop(a)
    ensures StartFlag(Apply(s, a), ClearedAfter(cleared, a))
  {
  }

  lemma StartFlagStep(s: State, a: Action, cleared: bool)
    requires Gated(s) && Enabled(s, a) && StartFlag(s, cleared)
    ensures StartFlag(Apply(s, a), ClearedAfter(cleared, a))
  {
    if OfLoop(a) {
      StartFlagLoopStep(s, a, cleared);
    }
  }

  lemma {:induction false} StartFlagAlways(run: seq<Action>)
    requires After(run).Some?
    ensures StartFlag(After(run).value, ClearedSinceSet(run))
    decreases |run|
  {
    if run != [] {
      var earlier := run[..|run| - 1];
      HandlersAreGated(earlier);
      StartFlagAlways(earlier);
      StartFlagStep(After(earlier).value, run[|run| - 1], ClearedSinceSet(earlier));
    }
  }

  /**
   * The start race: when AcquireStart is answered with success the flag is up exactly if no terminal
   * send began since it was raised, including one that began before the handler returned. When the
   * handler failed the flag is down.
   */
  lemma StartRace(run: seq<Action>)
    requires After(run).Some? && RepliesToStart(After(run).value)
    ensures var s := After(run).value;
            && (s.pc.response.error.None? ==> (s.running <==> !ClearedSinceSet(run)))
            && (s.pc.response.error == Some(Plugin) ==> !s.running)
  {
    StartFlagAlways(run);
  }

  predicate BusyReply(pc: Pc) {
    pc.Replying? && pc.response.error == Some(Busy)
  }

  /** Requests the loop itself refuses while a capture runs. */
  predicate NeedsReady(request: Request) {
    Configures(request) || request.AcquireStart?
  }

  /** Why the loop refuses, and what a reset leaves behind. */
  predicate Explained(s: State) {
    s.pc.Replying? ==>
      && (BusyReply(s.pc) ==> s.pc.asked.Some? && NeedsReady(s.pc.asked.value))
      && (s.pc.response.error == Some(Invalid) ==> s.pc.asked.None? || s.pc.asked.value.Hello? == s.greeted)
      && (s.pc.asked.Some? && !s.pc.asked.value.Hello? && !s.greeted ==> s.pc.response.error == Some(Invalid))
      && (s.pc.asked.None? ==> s.pc.response.error == Some(Invalid))
      && (s.greeted && s.pc.asked == Some(Shutdown) ==> s.pc.response.error.None?)
      && (s.pc.asked == Some(Reset) && s.pc.response.error.None? ==> !s.running)
  }

  lemma ExplainedStep(s: State, a: Action)
    requires Explained(s) && Gated(s) && Enabled(s, a)
    ensures Explained(Apply(s, a))
  {
  }

  /**
   * After Hello only a request that needs an idle plugin is ever refused as busy and only a second Hello
   * or an empty message as invalid: stop and reset fail only if their own handler does, and shutdown
   * never fails. A successful reset leaves the flag down.
   */
  lemma {:induction false} RefusalsExplained(run: seq<Action>)
    requires After(run).Some?
    ensures Explained(After(run).value)
    decreases |run|
  {
    if run != [] {
      var earlier := run[..|run| - 1];
      RefusalsExplained(earlier);
      HandlersAreGated(earlier);
      ExplainedStep(After(earlier).value, run[|run| - 1]);
    }
  }

  // ---------- The order of the loop's steps ----------

  /** The step the loop took last, if it has taken one. */
  function LastOfLoop(run: seq<Action>): Option<Action>
    decreases |run|
  {
    if run == [] then None
    else if OfLoop(run[|run| - 1]) then Some(run[|run| - 1])
    else LastOfLoop(run[..|run| - 1])
  }

  /** What the loop must have done last to stand where it stands. */
  predicate StandsAfter(pc: Pc, last: Option<Action>) {
    match pc
    case Received(_, _) => last == Some(Receive)
    case SettingFlag(_, _) => last == Some(Check)
    case Handling(_, request, _) => last == Some(if request.AcquireStart? then SetFlag else Check)
    case ClearingAfterError(_, _) => last == Some(HandlerDone(false))
    case ClearingAfterReset(_, _) => last == Some(HandlerDone(true))
    case Replying(asked, response) =>
      && (asked.None? ==> last == Some(Receive) || last == Some(Check))
      && (IsStart(asked) && response.error == Some(Plugin) ==> last == Some(ClearAfterError))
      && (IsStart(asked) && response.error.None? ==> last == Some(HandlerDone(true)))
      && (asked == Some(Reset) && response.error == Some(Plugin) ==> last == Some(HandlerDone(false)))
      && (asked == Some(Reset) && response.error.None? ==> last == Some(ClearAfterReset))
      && (asked == Some(Shutdown) || BusyReply(pc) ==> last == Some(Check))
    case ShuttingDown => last == Some(Reply)
    case _ => true
  }

  lemma FollowsStep(s: State, a: Action, last: Option<Action>)
    requires Gated(s) && Enabled(s, a) && StandsAfter(s.pc, last)
    ensures StandsAfter(Apply(s, a).pc, if OfLoop(a) then Some(a) else last)
  {
    if OfLoop(a) {
      FollowsLoopStep(s, a);
    }
  }

  lemma FollowsLoopStep(s: State, a: Action)
    requires Gated(s) && Enabled(s, a) && OfLoop(a)
    ensures StandsAfter(Apply(s, a).pc, Some(a))
  {
  }

  /**
   * The loop looks at the flag before anything else and raises it before the start handler runs. It
   * lowers it only right after the handler of a start has failed or that of a reset has succeeded, and
   * answers that request next. Shutdown is accepted and Busy said on the strength of the look alone.
   */
  lemma {:induction false} StepsInOrder(run: seq<Action>)
    requires After(run).Some?
    ensures StandsAfter(After(run).value.pc, LastOfLoop(run))
    decreases |run|
  {
    if run != [] {
      var earlier := run[..|run| - 1];
      StepsInOrder(earlier);
      HandlersAreGated(earlier);
      FollowsStep(After(earlier).value, run[|run| - 1], LastOfLoop(earlier));
    }
  }

  // ---------- What a raised flag means, whatever resets do ----------

  predicate LastIsLive(s: State) {
    s.workers != [] && Live(s.workers[|s.workers| - 1])
  }

  /** A raised flag is that of the start under way or of the newest capture. */
  predicate RaisedForLast(s: State) {
    s.running ==> StartWindow(s.pc) || LastIsLive(s)
  }

  lemma RaisedForLastStep(s: State, a: Action)
    requires RaisedForLast(s) && Gated(s) && Enabled(s, a) && Contract(s, a)
    ensures RaisedForLast(Apply(s, a))
  {
  }

  /**
   * Under the contract alone, with resets that return at once and devices lost at any time: the flag is
   * up only while a start is between raising it and its worker, or the newest capture has not begun its
   * terminal event.
   */
  lemma {:induction false} RaisedMeansLive(run: seq<Action>)
    requires After(run).Some? && Keeps(run, Contract)
    ensures RaisedForLast(After(run).value)
    decreases |run|
  {
    if run != [] {
      RaisedMeansLive(run[..|run| - 1]);
      HandlersAreGated(run[..|run| - 1]);
      RaisedForLastStep(After(run[..|run| - 1]).value, run[|run| - 1]);
    }
  }

  lemma BusyIffRunning(s: State)
    requires Gated(s) && s.pc.Received?
    ensures BusyReply(Apply(s, Check).pc) <==> s.pc.asked.Some? && NeedsReady(s.pc.asked.value) && s.running
  {
  }

  /** So the loop says Busy only while the newest capture is live. */
  lemma BusyMeansLive(run: seq<Action>)
    requires After(run).Some? && Keeps(run, Contract) && After(run).value.pc.Received?
    ensures var s := After(run).value;
            BusyReply(Apply(s, Check).pc) ==> NeedsReady(s.pc.asked.value) && LastIsLive(s) && AnyLive(s)
  {
    RaisedMeansLive(run);
    HandlersAreGated(run);
    BusyIffRunning(After(run).value);
  }

  // ---------- Mutual exclusion, for plugins that spare the flag of a running capture ----------

  predicate Exclusive(s: State) {
    && (forall i | 0 <= i < |s.workers| - 1 :: !Live(s.workers[i]))
    && (s.running <==> StartWindow(s.pc) || LastIsLive(s))
    && !(StartWindow(s.pc) && LastIsLive(s))
    && (s.pc.SettingFlag? ==> !LastIsLive(s))
  }

  lemma ExclusiveLoopStep(s: State, a: Action)
    requires Exclusive(s) && Gated(s) && Enabled(s, a) && Contract(s, a) && ResetWaits(s, a) && OfLoop(a)
    ensures Exclusive(Apply(s, a))
  {
    assert Apply(s, a).workers == s.workers;
    if a.ClearAfterReset? {
      assert s.workers != [] ==> !Live(s.workers[|s.workers| - 1]);
    }
  }

  lemma ExclusivePluginStep(s: State, a: Action)
    requires Exclusive(s) && Enabled(s, a) && Contract(s, a) && LossWaits(s, a) && OfPlugin(a)
    ensures Exclusive(Apply(s, a))
  {
  }

  lemma ExclusiveStep(s: State, a: Action)
    requires Exclusive(s) && Gated(s) && Enabled(s, a) && Contract(s, a) && ResetWaits(s, a) && LossWaits(s, a)
    ensures Exclusive(Apply(s, a))
  {
    if OfLoop(a) {
      ExclusiveLoopStep(s, a);
    } else if OfPlugin(a) {
      ExclusivePluginStep(s, a);
    }
  }

  lemma {:induction false} ExclusiveAlways(run: seq<Action>)
    requires ByContract(run)
    ensures Exclusive(After(run).value)
    decreases |run|
  {
    if run != [] {
      var earlier := run[..|run| - 1];
      ExclusiveAlways(earlier);
      HandlersAreGated(earlier);
      ExclusiveStep(After(earlier).value, run[|run| - 1]);
    }
  }

  /**
   * The flag is up exactly while the loop is inside its start window or a worker has not begun its
   * terminal event, never both, and there is never more than one such worker.
   */
  predicate Exclusion(s: State) {
    && (s.running <==> StartWindow(s.pc) || AnyLive(s))
    && !(StartWindow(s.pc) && AnyLive(s))
    && forall i, j | 0 <= i < |s.workers| && 0 <= j < |s.workers| && Live(s.workers[i]) && Live(s.workers[j]) :: i == j
  }

  lemma ExclusiveMeans(s: State)
    requires Exclusive(s)
    ensures Exclusion(s)
  {
    assert AnyLive(s) <==> LastIsLive(s);
  }

  lemma MutualExclusion(run: seq<Action>)
    requires ByContract(run)
    ensures Exclusion(After(run).value)
  {
    ExclusiveAlways(run);
    ExclusiveMeans(After(run).value);
  }

  /** Whoever did not wait has lowered the flag of a capture that is still running or being started. */
  lemma HasteBreaks(s: State, a: Action)
    requires Enabled(s, a) && !(ResetWaits(s, a) && LossWaits(s, a))
    ensures !Exclusion(Apply(s, a))
  {
    assert AnyLive(Apply(s, a)) || StartWindow(Apply(s, a).pc);
  }

  predicate ExclusionThroughout(run: seq<Action>)
    requires After(run).Some?
    decreases |run|
  {
    Exclusion(After(run).value) && (run == [] || ExclusionThroughout(run[..|run| - 1]))
  }

  /**
   * Waiting is all it takes: given the contract, the flag means what it should in every state of a run
   * exactly if no reset of the run cleared it while a worker was live, and no thread but a capture's own
   * reported the device lost while one was live or being started.
   */
  lemma {:induction false} ExclusionIffNoHaste(run: seq<Action>)
    requires After(run).Some? && Keeps(run, Contract)
    ensures ExclusionThroughout(run) <==> Keeps(run, ResetWaits) && Keeps(run, LossWaits)
    decreases |run|
  {
    if run == [] {
      MutualExclusion(run);
    } else {
      var earlier, a := run[..|run| - 1], run[|run| - 1];
      ExclusionIffNoHaste(earlier);
      if ByContract(run) {
        MutualExclusion(run);
      } else if ByContract(earlier) {
        HasteBreaks(After(earlier).value, a);
      }
    }
  }

  // ---------- Back to ready ----------

  /** A terminal event on the wire belongs to a worker that has nothing left to do. */
  predicate EndsAreFinal(s: State) {
    forall j | 0 <= j < |s.wire| && IsTerminal(s.wire[j].event) ::
      s.wire[j].worker < |s.workers| && s.workers[s.wire[j].worker].phase == Closed(true)
  }

  /** What a thread between the halves of a terminal send will push is a terminal event. */
  predicate ClosingWithEnd(s: State) {
    forall i | 0 <= i < |s.workers| && s.workers[i].phase.Closing? :: IsTerminal(s.workers[i].phase.last)
  }

  lemma ClosingWithEndStep(s: State, a: Action)
    requires ClosingWithEnd(s) && Enabled(s, a)
    ensures ClosingWithEnd(Apply(s, a))
  {
  }

  lemma EndsAreFinalStep(s: State, a: Action)
    requires EndsAreFinal(s) && Enabled(s, a) && Contract(s, a)
    ensures EndsAreFinal(Apply(s, a))
  {
  }

  lemma {:induction false} EndsAreFinalAlways(run: seq<Action>)
    requires After(run).Some? && Keeps(run, Contract)
    ensures EndsAreFinal(After(run).value) && ClosingWithEnd(After(run).value)
    decreases |run|
  {
    if run != [] {
      var before, a := After(run[..|run| - 1]).value, run[|run| - 1];
      EndsAreFinalAlways(run[..|run| - 1]);
      EndsAreFinalStep(before, a);
      ClosingWithEndStep(before, a);
    }
  }

  /**
   * The loop refuses a request as busy exactly if the request needs an idle plugin and a capture has
   * not begun its terminal event.
   */
  lemma BusyIffLive(run: seq<Action>)
    requires ByContract(run) && After(run).value.pc.Received?
    ensures var s := After(run).value;
            BusyReply(Apply(s, Check).pc) <==> s.pc.asked.Some? && NeedsReady(s.pc.asked.value) && AnyLive(s)
  {
    HandlersAreGated(run);
    BusyIffRunning(After(run).value);
    MutualExclusion(run);
  }

  /**
   * Once the terminal event of the newest capture is on the wire, the plugin is ready, whatever resets
   * do: the flag is down unless a start is under way, and no request is refused as busy. If nobody lowers
   * the flag of a running capture, no worker is live and the flag is up exactly while a start is under way.
   */
  lemma TerminalMeansReady(run: seq<Action>, j: nat)
    requires After(run).Some? && Keeps(run, Contract)
    requires var s := After(run).value;
             j < |s.wire| && IsTerminal(s.wire[j].event) && s.wire[j].worker + 1 == |s.workers|
    ensures var s := After(run).value;
            && (s.running ==> StartWindow(s.pc))
            && (s.pc.Received? ==> !s.running && !BusyReply(Apply(s, Check).pc))
            && (ByContract(run) ==> !AnyLive(s) && (s.running <==> StartWindow(s.pc)))
  {
    var s := After(run).value;
    EndsAreFinalAlways(run);
    EndedNotLive(s, j);
    RaisedMeansLive(run);
    HandlersAreGated(run);
    EndedIsReady(s);
    if ByContract(run) {
      ExclusiveAlways(run);
      EndedIsIdle(s);
    }
  }

  lemma EndedNotLive(s: State, j: nat)
    requires EndsAreFinal(s) && j < |s.wire| && IsTerminal(s.wire[j].event) && s.wire[j].worker + 1 == |s.workers|
    ensures !LastIsLive(s)
  {
  }

  lemma EndedIsReady(s: State)
    requires !LastIsLive(s) && RaisedForLast(s) && Gated(s)
    ensures s.running ==> StartWindow(s.pc)
    ensures s.pc.Received? ==> !s.running && !BusyReply(Apply(s, Check).pc)
  {
    if s.pc.Received? {
      BusyIffRunning(s);
    }
  }

  lemma EndedIsIdle(s: State)
    requires !LastIsLive(s) && Exclusive(s)
    ensures !AnyLive(s) && (s.running <==> StartWindow(s.pc))
  {
  }

  /**
   * The stop race: a stop that arrives after the newest capture has begun to end by itself succeeds at
   * once and the handler is not bothered, whatever resets do. If nobody lowers the flag of a running
   * capture, the handler is asked in every other case, whatever happens while it runs.
   */
  lemma StopRace(run: seq<Action>)
    requires After(run).Some? && Keeps(run, Contract)
    requires var s := After(run).value;
             s.greeted && s.pc.Received? && s.pc.asked == Some(AcquireStop)
    ensures var s := After(run).value;
            var asks, succeeds :=
              Handling(s.pc.seqNo, AcquireStop, false), Replying(Some(AcquireStop), Accept(s.pc.seqNo, AcquireStop));
            && Apply(s, Check).pc in {asks, succeeds}
            && (!LastIsLive(s) ==> Apply(s, Check).pc == succeeds)
            && (ByContract(run) ==> Apply(s, Check).pc == if AnyLive(s) then asks else succeeds)
  {
    RaisedMeansLive(run);
    StopAsksIffRunning(After(run).value);
    if ByContract(run) {
      MutualExclusion(run);
    }
  }

  lemma StopAsksIffRunning(s: State)
    requires s.greeted && s.pc.Received? && s.pc.asked == Some(AcquireStop)
    ensures Apply(s, Check).pc ==
            if s.running then Handling(s.pc.seqNo, AcquireStop, false)
            else Replying(Some(AcquireStop), Accept(s.pc.seqNo, AcquireStop))
  {
  }
}
