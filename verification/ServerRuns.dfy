/**
 * The rounds that `serve` goes through are exactly the runs of the machine in ControlLoop: every schedule
 * is a run, and every run in which the loop is between two requests, or over, is a schedule.
 */
module ServerRuns {
  import opened Wrappers
  import opened Protocol
  import opened ControlLoop
  import opened Server

  const BEGINNING := Trace([], START)
  const NO_ROUND := Round([], Input.Message, [], [], [], true, [], [], true, [])

  predicate Over(pc: Pc) {
    pc.Exited? || pc.Deaf? || pc.Broken?
  }

  /** The loop has no request in hand. */
  predicate Settled(pc: Pc) {
    pc.Idle? || Over(pc)
  }

  predicate AllValid(rounds: seq<Round>) {
    forall r | r in rounds :: r.Valid()
  }

  // ---------- Schedules, one more at a time ----------

  lemma {:induction false} DoAllSnoc(t: Trace, actions: seq<Action>, a: Action)
    ensures DoAll(t, actions + [a]) == Do(DoAll(t, actions), a)
    decreases |actions|
  {
    if actions == [] {
      assert [] + [a] == [a];
      assert DoAll(t, [a]) == DoAll(Do(t, a), [a][1..]);
    } else {
      assert (actions + [a])[1..] == actions[1..] + [a];
      DoAllSnoc(Do(t, actions[0]), actions[1..], a);
    }
  }

  lemma {:induction false} ServeSnoc(t: Trace, rounds: seq<Round>, round: Round)
    requires ServeOf(t, rounds).state.pc.Idle?
    ensures ServeOf(t, rounds + [round]) == TurnOf(ServeOf(t, rounds), round)
    decreases |rounds|
  {
    if rounds == [] {
      assert [] + [round] == [round];
      ServeNothing(TurnOf(t, round));
      assert [round][1..] == [];
    } else {
      assert (rounds + [round])[1..] == rounds[1..] + [round];
      ServeSnoc(TurnOf(t, rounds[0]), rounds[1..], round);
    }
  }

  lemma ServeNothing(t: Trace)
    ensures ServeOf(t, []) == t
  {
  }

  lemma OthersOnlySnoc(others: seq<Action>, a: Action)
    requires OthersOnly(others) && IsOther(a)
    ensures OthersOnly(others + [a])
  {
  }

  // ---------- Every schedule is a run ----------

  lemma TurnIsRun(t: Trace, round: Round)
    requires t.Valid() && round.Valid() && t.state.pc.Idle?
    ensures TurnOf(t, round).Valid() && Settled(TurnOf(t, round).state.pc)
  {
    var u := DoAll(t, round.before);
    Others(t, round.before);
    TurnEnds(t, round);
    if round.input.Closed? {
      DoExtends(u, Hangup);
    } else if round.input.Fails? {
      DoExtends(u, ReceiveFails);
    } else if u.state.taken < |u.state.asked| {
      MessageIsDecided(u, round);
      var decided := Decided(AfterCheck(Do(u, Receive), round), round);
      ReplyStep(decided, round);
      if AfterReply(decided, round).state.pc.ShuttingDown? {
        ShutdownStep(AfterReply(decided, round), round);
      }
    }
  }

  lemma {:induction false} ServeIsRun(t: Trace, rounds: seq<Round>)
    requires t.Valid() && AllValid(rounds) && Settled(t.state.pc)
    ensures ServeOf(t, rounds).Valid() && Settled(ServeOf(t, rounds).state.pc)
    decreases |rounds|
  {
    if rounds != [] && t.state.pc.Idle? {
      assert rounds[0] in rounds && forall r | r in rounds[1..] :: r in rounds;
      TurnIsRun(t, rounds[0]);
      ServeIsRun(TurnOf(t, rounds[0]), rounds[1..]);
    }
  }

  // ---------- Every run is a schedule ----------

  function Taken(b: Trace, r: Round): Trace {
    Do(DoAll(b, r.before), Receive)
  }

  /** Where the loop came to the place `pc` in round `r`. */
  function Reached(b: Trace, r: Round, pc: Pc): Trace {
    match pc
    case Idle => b
    case Received(_, _) => Taken(b, r)
    case SettingFlag(_, _) => AfterCheck(Taken(b, r), r)
    case Handling(_, _, _) => AfterSet(AfterCheck(Taken(b, r), r), r)
    case ClearingAfterError(_, _) => AfterHandler(AfterSet(AfterCheck(Taken(b, r), r), r), r)
    case ClearingAfterReset(_, _) => AfterHandler(AfterSet(AfterCheck(Taken(b, r), r), r), r)
    case Replying(_, _) => Decided(AfterCheck(Taken(b, r), r), r)
    case ShuttingDown => AfterReply(Decided(AfterCheck(Taken(b, r), r), r), r)
    case _ => TurnOf(b, r)
  }

  /** What the others do while it is there. */
  function Meanwhile(r: Round, pc: Pc): seq<Action> {
    match pc
    case Idle => r.before
    case Received(_, _) => r.beforeCheck
    case SettingFlag(_, _) => r.beforeSet
    case Handling(_, _, _) => r.inHandler
    case ClearingAfterError(_, _) => r.beforeClear
    case ClearingAfterReset(_, _) => r.beforeClear
    case Replying(_, _) => r.beforeReply
    case ShuttingDown => r.beforeShutdown
    case _ => []
  }

  /** What has been done of round `r` when the loop stands at `pc`. */
  function UpTo(b: Trace, r: Round, pc: Pc): Trace {
    DoAll(Reached(b, r, pc), Meanwhile(r, pc))
  }

  /** Round `r`, from `b`, has come as far as `t`, whose loop is not over. */
  predicate InRound(b: Trace, r: Round, t: Trace) {
    && b.Valid() && b.state.pc.Idle? && r.Valid() && r.input.Message?
    && !Over(t.state.pc) && t == UpTo(b, r, t.state.pc)
    && (!t.state.pc.Idle? ==> DoAll(b, r.before).state.taken < |DoAll(b, r.before).state.asked|)
  }

  /** The others are given one more step wherever the loop stands. */
  function WithOther(r: Round, pc: Pc, a: Action): Round {
    match pc
    case Idle => r.(before := r.before + [a])
    case Received(_, _) => r.(beforeCheck := r.beforeCheck + [a])
    case SettingFlag(_, _) => r.(beforeSet := r.beforeSet + [a])
    case Handling(_, _, _) => r.(inHandler := r.inHandler + [a])
    case ClearingAfterError(_, _) => r.(beforeClear := r.beforeClear + [a])
    case ClearingAfterReset(_, _) => r.(beforeClear := r.beforeClear + [a])
    case Replying(_, _) => r.(beforeReply := r.beforeReply + [a])
    case ShuttingDown => r.(beforeShutdown := r.beforeShutdown + [a])
    case _ => r
  }

  lemma WithOtherValid(r: Round, pc: Pc, a: Action)
    requires r.Valid() && IsOther(a)
    ensures WithOther(r, pc, a).Valid() && WithOther(r, pc, a).input == r.input
  {
  }

  /** Where the loop came to does not depend on what the others do from there on. */
  lemma ReachedSame(b: Trace, r: Round, pc: Pc, a: Action)
    requires !Over(pc)
    ensures Reached(b, WithOther(r, pc, a), pc) == Reached(b, r, pc)
  {
    if pc.Replying? {
      var r' := r.(beforeReply := r.beforeReply + [a]);
      assert Decided(AfterCheck(Taken(b, r'), r'), r') == Decided(AfterCheck(Taken(b, r), r), r);
    } else if pc.ShuttingDown? {
      RepliedSame(b, r, r.(beforeShutdown := r.beforeShutdown + [a]));
    }
  }

  lemma RepliedSame(b: Trace, r: Round, r': Round)
    requires r' == r.(beforeShutdown := r'.beforeShutdown)
    ensures AfterReply(Decided(AfterCheck(Taken(b, r'), r'), r'), r') ==
            AfterReply(Decided(AfterCheck(Taken(b, r), r), r), r)
  {
    assert Decided(AfterCheck(Taken(b, r'), r'), r') == Decided(AfterCheck(Taken(b, r), r), r);
  }

  lemma MeanwhileMore(r: Round, pc: Pc, a: Action)
    requires !Over(pc)
    ensures Meanwhile(WithOther(r, pc, a), pc) == Meanwhile(r, pc) + [a]
  {
  }

  lemma UpToOther(b: Trace, r: Round, pc: Pc, a: Action)
    requires !Over(pc)
    ensures UpTo(b, WithOther(r, pc, a), pc) == Do(UpTo(b, r, pc), a)
  {
    ReachedSame(b, r, pc, a);
    MeanwhileMore(r, pc, a);
    DoAllSnoc(Reached(b, r, pc), Meanwhile(r, pc), a);
  }

  lemma UpToSpawned(b: Trace, r: Round, before: Pc, after: Pc)
    requires SamePlace(before, after)
    ensures UpTo(b, r, after) == UpTo(b, r, before) && (Over(after) <==> Over(before))
  {
  }

  /** A step of another thread is one more entry in the round. */
  lemma OtherInRound(b: Trace, r: Round, t: Trace, a: Action)
    requires InRound(b, r, t) && IsOther(a) && Enabled(t.state, a)
    ensures InRound(b, WithOther(r, t.state.pc, a), Do(t, a))
  {
    var pc, next := t.state.pc, Do(t, a);
    WithOtherValid(r, pc, a);
    UpToOther(b, r, pc, a);
    OtherStep(t.state, a);
    UpToSpawned(b, WithOther(r, pc, a), pc, next.state.pc);
  }

  lemma Waited(x: Trace, others: seq<Action>, a: Action)
    requires x.Valid() && OthersOnly(others)
    ensures DoAll(x, others).Valid() && Do(DoAll(x, others), a).Valid()
    ensures SamePlace(x.state.pc, DoAll(x, others).state.pc)
  {
    Others(x, others);
    DoExtends(DoAll(x, others), a);
  }

  /** Every point on the way through a round is a run. */
  lemma TakenValid(b: Trace, r: Round)
    requires b.Valid() && r.Valid()
    ensures Taken(b, r).Valid()
  {
    Waited(b, r.before, Receive);
  }

  lemma CheckedValid(b: Trace, r: Round)
    requires b.Valid() && r.Valid()
    ensures AfterCheck(Taken(b, r), r).Valid()
  {
    TakenValid(b, r);
    Waited(Taken(b, r), r.beforeCheck, Check);
  }

  lemma SetValid(b: Trace, r: Round)
    requires b.Valid() && r.Valid()
    ensures AfterSet(AfterCheck(Taken(b, r), r), r).Valid()
  {
    CheckedValid(b, r);
    Waited(AfterCheck(Taken(b, r), r), r.beforeSet, SetFlag);
  }

  lemma HandledValid(b: Trace, r: Round)
    requires b.Valid() && r.Valid()
    ensures AfterHandler(AfterSet(AfterCheck(Taken(b, r), r), r), r).Valid()
  {
    SetValid(b, r);
    Waited(AfterSet(AfterCheck(Taken(b, r), r), r), r.inHandler, HandlerDone(r.handlerOk));
  }

  lemma DecidedValid(b: Trace, r: Round)
    requires b.Valid() && r.Valid()
    ensures Decided(AfterCheck(Taken(b, r), r), r).Valid()
  {
    var x := AfterHandler(AfterSet(AfterCheck(Taken(b, r), r), r), r);
    HandledValid(b, r);
    Waited(x, r.beforeClear, ClearAfterError);
    Waited(x, r.beforeClear, ClearAfterReset);
  }

  lemma RepliedValid(b: Trace, r: Round)
    requires b.Valid() && r.Valid()
    ensures AfterReply(Decided(AfterCheck(Taken(b, r), r), r), r).Valid()
  {
    var x := Decided(AfterCheck(Taken(b, r), r), r);
    DecidedValid(b, r);
    Waited(x, r.beforeReply, Reply);
    Waited(x, r.beforeReply, ReplyFails);
  }

  // ---------- The loop's own steps ----------

  lemma ReceiveInRound(b: Trace, r: Round, t: Trace)
    requires InRound(b, r, t) && Enabled(t.state, Receive)
    ensures InRound(b, r.(beforeCheck := [], beforeReply := []), Do(t, Receive))
  {
  }

  lemma CheckInRound(b: Trace, r: Round, t: Trace)
    requires InRound(b, r, t) && Enabled(t.state, Check)
    ensures InRound(b, r.(beforeSet := [], inHandler := [], beforeReply := []), Do(t, Check))
  {
    TakenValid(b, r);
    Waited(Taken(b, r), r.beforeCheck, Check);
    assert Do(t, Check) == AfterCheck(Taken(b, r), r);
    CheckedPlace(b, r.(beforeSet := [], inHandler := [], beforeReply := []));
  }

  /** From the look at the flag the loop goes on to the flag, to a handler or to its reply. */
  lemma CheckedPlace(b: Trace, r: Round)
    requires r.beforeSet == [] && r.inHandler == [] && r.beforeReply == []
    requires var pc := AfterCheck(Taken(b, r), r).state.pc; pc.SettingFlag? || pc.Handling? || pc.Replying?
    ensures var u := AfterCheck(Taken(b, r), r); UpTo(b, r, u.state.pc) == u
  {
  }

  lemma SetInRound(b: Trace, r: Round, t: Trace)
    requires InRound(b, r, t) && Enabled(t.state, SetFlag)
    ensures InRound(b, r.(inHandler := []), Do(t, SetFlag))
  {
    CheckedValid(b, r);
    Waited(AfterCheck(Taken(b, r), r), r.beforeSet, SetFlag);
    assert Do(t, SetFlag) == AfterSet(AfterCheck(Taken(b, r), r), r);
  }

  lemma HandlerInRound(b: Trace, r: Round, t: Trace, ok: bool)
    requires InRound(b, r, t) && Enabled(t.state, HandlerDone(ok))
    ensures InRound(b, r.(handlerOk := ok, beforeClear := [], beforeReply := []), Do(t, HandlerDone(ok)))
  {
    var r' := r.(handlerOk := ok, beforeClear := [], beforeReply := []);
    SetValid(b, r);
    Waited(AfterSet(AfterCheck(Taken(b, r), r), r), r.inHandler, HandlerDone(ok));
    assert AfterSet(AfterCheck(Taken(b, r'), r'), r') == AfterSet(AfterCheck(Taken(b, r), r), r);
    assert Do(t, HandlerDone(ok)) == AfterHandler(AfterSet(AfterCheck(Taken(b, r'), r'), r'), r');
  }

  lemma ClearInRound(b: Trace, r: Round, t: Trace, a: Action)
    requires InRound(b, r, t) && Enabled(t.state, a) && (a.ClearAfterError? || a.ClearAfterReset?)
    ensures InRound(b, r.(beforeReply := []), Do(t, a))
  {
    var x := AfterHandler(AfterSet(AfterCheck(Taken(b, r), r), r), r);
    HandledValid(b, r);
    Waited(x, r.beforeClear, a);
    assert Do(t, a) == AfterClear(x, r);
  }

  /** A reply that goes out ends the round, unless it accepts a Shutdown. */
  lemma ReplyInRound(b: Trace, r: Round, t: Trace)
    requires InRound(b, r, t) && Enabled(t.state, Reply)
    ensures var r', next := r.(delivered := true, beforeShutdown := []), Do(t, Reply);
            if next.state.pc.Idle? then r'.Valid() && TurnOf(b, r') == next else InRound(b, r', next)
  {
    var r' := r.(delivered := true, beforeShutdown := []);
    var x := Decided(AfterCheck(Taken(b, r), r), r);
    DecidedValid(b, r);
    Waited(x, r.beforeReply, Reply);
    assert Decided(AfterCheck(Taken(b, r'), r'), r') == x;
    assert Do(t, Reply) == AfterReply(x, r');
  }

  lemma ReplyFailsEnds(b: Trace, r: Round, t: Trace)
    requires InRound(b, r, t) && Enabled(t.state, ReplyFails)
    ensures r.(delivered := false).Valid() && TurnOf(b, r.(delivered := false)) == Do(t, ReplyFails)
  {
    var r' := r.(delivered := false);
    var x := Decided(AfterCheck(Taken(b, r), r), r);
    DecidedValid(b, r);
    Waited(x, r.beforeReply, ReplyFails);
    assert Decided(AfterCheck(Taken(b, r'), r'), r') == x;
    assert Do(t, ReplyFails) == AfterReply(x, r');
  }

  lemma ShutdownEnds(b: Trace, r: Round, t: Trace)
    requires InRound(b, r, t) && Enabled(t.state, RunShutdown)
    ensures TurnOf(b, r) == Do(t, RunShutdown)
  {
    var x := AfterReply(Decided(AfterCheck(Taken(b, r), r), r), r);
    RepliedValid(b, r);
    Waited(x, r.beforeShutdown, RunShutdown);
  }

  /** The step of the loop that ends round `r'`, begun as `r`. */
  lemma LoopEndsRound(b: Trace, r: Round, t: Trace, a: Action) returns (r': Round)
    requires InRound(b, r, t) && Enabled(t.state, a) && OfLoop(a) && Settled(Apply(t.state, a).pc)
    ensures r'.Valid() && TurnOf(b, r') == Do(t, a)
  {
    match a
    case Hangup => r' := r.(input := Input.Closed);
    case ReceiveFails => r' := r.(input := Input.Fails);
    case Reply =>
      ReplyInRound(b, r, t);
      r' := r.(delivered := true, beforeShutdown := []);
    case ReplyFails =>
      ReplyFailsEnds(b, r, t);
      r' := r.(delivered := false);
    case RunShutdown =>
      ShutdownEnds(b, r, t);
      r' := r;
  }

  /** Any other step of the loop is one further on in its round. */
  lemma LoopInRound(b: Trace, r: Round, t: Trace, a: Action) returns (r': Round)
    requires InRound(b, r, t) && Enabled(t.state, a) && OfLoop(a) && !Settled(Apply(t.state, a).pc)
    ensures InRound(b, r', Do(t, a))
  {
    match a
    case Receive =>
      ReceiveInRound(b, r, t);
      r' := r.(beforeCheck := [], beforeReply := []);
    case Check =>
      CheckInRound(b, r, t);
      r' := r.(beforeSet := [], inHandler := [], beforeReply := []);
    case SetFlag =>
      SetInRound(b, r, t);
      r' := r.(inHandler := []);
    case HandlerDone(ok) =>
      HandlerInRound(b, r, t, ok);
      r' := r.(handlerOk := ok, beforeClear := [], beforeReply := []);
    case ClearAfterError =>
      ClearInRound(b, r, t, a);
      r' := r.(beforeReply := []);
    case ClearAfterReset =>
      ClearInRound(b, r, t, a);
      r' := r.(beforeReply := []);
    case Reply =>
      ReplyInRound(b, r, t);
      r' := r.(delivered := true, beforeShutdown := []);
  }

  // ---------- Whole runs ----------

  /** `t` is where the loop comes to after `rounds` and so much of round `r`, or after it is over. */
  predicate Scheduled(rounds: seq<Round>, r: Round, tail: seq<Action>, t: Trace) {
    && AllValid(rounds) && OthersOnly(tail)
    && var b := ServeOf(BEGINNING, rounds);
       if Over(t.state.pc) then DoAll(b, tail) == t else InRound(b, r, t)
  }

  lemma AllValidSnoc(rounds: seq<Round>, r: Round)
    requires AllValid(rounds) && r.Valid()
    ensures AllValid(rounds + [r])
  {
  }

  /** A schedule for a run gives one for the run with one step more. */
  lemma OneMoreStep(rounds: seq<Round>, r: Round, tail: seq<Action>, t: Trace, a: Action)
    returns (rounds': seq<Round>, r': Round, tail': seq<Action>)
    requires Scheduled(rounds, r, tail, t) && t.Valid() && Enabled(t.state, a)
    ensures Scheduled(rounds', r', tail', Do(t, a))
  {
    var b := ServeOf(BEGINNING, rounds);
    rounds', r', tail' := rounds, r, [];
    DoExtends(t, a);
    if Over(t.state.pc) {
      DoAllSnoc(b, tail, a);
      OthersOnlySnoc(tail, a);
      tail' := tail + [a];
    } else if IsOther(a) {
      OtherInRound(b, r, t, a);
      r' := WithOther(r, t.state.pc, a);
    } else if Settled(Apply(t.state, a).pc) {
      var last := LoopEndsRound(b, r, t, a);
      ServeSnoc(BEGINNING, rounds, last);
      AllValidSnoc(rounds, last);
      rounds', r' := rounds + [last], NO_ROUND;
    } else {
      r' := LoopInRound(b, r, t, a);
    }
  }

  lemma {:induction false} EveryRunIsScheduled(run: seq<Action>)
    returns (rounds: seq<Round>, r: Round, tail: seq<Action>)
    requires After(run).Some?
    ensures Scheduled(rounds, r, tail, Trace(run, After(run).value))
    decreases |run|
  {
    if run == [] {
      rounds, r, tail := [], NO_ROUND, [];
      ServeNothing(BEGINNING);
    } else {
      var earlier, a := run[..|run| - 1], run[|run| - 1];
      rounds, r, tail := EveryRunIsScheduled(earlier);
      assert earlier + [a] == run;
      rounds, r, tail := OneMoreStep(rounds, r, tail, Trace(earlier, After(earlier).value), a);
    }
  }

  /**
   * What `serve` can do, exactly: a list of steps is one that some rounds, and some steps of the others
   * after them, lead through if and only if it is a run of the machine in which the loop has no request
   * in hand. So the machine allows nothing that the loop cannot do, and the loop nothing that the
   * machine does not allow.
   */
  lemma ServedIffRun(run: seq<Action>)
    ensures (exists rounds, tail :: && AllValid(rounds) && OthersOnly(tail)
                                    && DoAll(ServeOf(BEGINNING, rounds), tail).run == run) <==>
            After(run).Some? && Settled(After(run).value.pc)
  {
    forall rounds, tail | AllValid(rounds) && OthersOnly(tail) && DoAll(ServeOf(BEGINNING, rounds), tail).run == run
      ensures After(run).Some? && Settled(After(run).value.pc)
    {
      ServeIsRun(BEGINNING, rounds);
      Others(ServeOf(BEGINNING, rounds), tail);
    }
    if After(run).Some? && Settled(After(run).value.pc) {
      var rounds, r, tail := EveryRunIsScheduled(run);
      var last := if After(run).value.pc.Idle? then r.before else tail;
      assert DoAll(ServeOf(BEGINNING, rounds), last).run == run;
      assert AllValid(rounds) && OthersOnly(last);
    }
  }
}
