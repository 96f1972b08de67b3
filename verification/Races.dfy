/**
 * What goes wrong when a rule is not kept: concrete runs the code allows, one for each rule that the
 * theorems on the flag and on wire order take besides the contract.
 */
module Races {
  import opened Wrappers
  import opened Protocol
  import opened Events
  import opened ControlLoop
  import opened CaptureLog
  import opened WireOrder

  /** Everything a well-behaved plugin and client keep to. */
  predicate Careful(s: State, a: Action) {
    CarefulPlugin(s, a) && TriesBeginFirst(s, a) && Discipline(s, a)
  }

  predicate CarefulPlugin(s: State, a: Action) {
    Contract(s, a) && ResetWaits(s, a) && LossWaits(s, a)
  }

  lemma {:induction false} Weaken(run: seq<Action>, rule: (State, Action) -> bool, weaker: (State, Action) -> bool)
    requires Keeps(run, rule) && forall s, a | rule(s, a) :: weaker(s, a)
    ensures Keeps(run, weaker)
    decreases |run|
  {
    if run != [] {
      Weaken(run[..|run| - 1], rule, weaker);
    }
  }

  predicate Reaches(run: seq<Action>, s: State, rule: (State, Action) -> bool) {
    After(run) == Some(s) && Keeps(run, rule)
  }

  lemma Extend(run: seq<Action>, s: State, a: Action, rule: (State, Action) -> bool)
    returns (longer: seq<Action>, next: State)
    requires Reaches(run, s, rule) && Enabled(s, a) && rule(s, a)
    ensures longer == run + [a] && next == Apply(s, a) && Reaches(longer, next, rule)
  {
    longer, next := run + [a], Apply(s, a);
    assert longer[..|longer| - 1] == run;
  }

  // ---------- Whole requests ----------

  /** Nothing is on the control channel. */
  predicate QuietChannel(s: State) {
    s.taken == |s.asked| && s.read == |s.replies|
  }

  predicate Resting(s: State) {
    s.pc.Idle? && s.waiting.None? && QuietChannel(s)
  }

  /** The loop is on a request of a waiting client. */
  predicate Engaged(s: State) {
    s.waiting.Some? && QuietChannel(s)
  }

  predicate SameCaptures(s: State, s': State) {
    s'.running == s.running && s'.workers == s.workers && s'.wire == s.wire && s'.eventsRead == s.eventsRead
  }

  /** The loop's and the client's own steps are bound by no rule, apart from asking. */
  ghost predicate LetsLoopRun(rule: (State, Action) -> bool) {
    && (forall s :: rule(s, Receive) && rule(s, Check) && rule(s, SetFlag))
    && (forall s :: rule(s, Reply) && rule(s, TakeReply))
  }

  /** A resting client asks, and the loop has looked at the flag. */
  lemma Requested(run: seq<Action>, s: State, request: Request, rule: (State, Action) -> bool)
    returns (longer: seq<Action>, next: State)
    requires Reaches(run, s, rule) && Resting(s) && LetsLoopRun(rule) && rule(s, Ask(Typed(request), true))
    ensures Reaches(longer, next, rule) && Engaged(next) && SameCaptures(s, next) && next.greeted == s.greeted
    ensures next.pc == Checked(s.greeted, s.running, next.calls % SEQ_LIMIT, Some(request))
  {
    longer, next := Extend(run, s, Ask(Typed(request), true), rule);
    longer, next := Extend(longer, next, Receive, rule);
    longer, next := Extend(longer, next, Check, rule);
  }

  /** The loop answers, and the client takes the reply. */
  lemma Answered(run: seq<Action>, s: State, rule: (State, Action) -> bool) returns (longer: seq<Action>, next: State)
    requires Reaches(run, s, rule) && Engaged(s) && s.pc.Replying? && s.pc.asked != Some(Shutdown) && LetsLoopRun(rule)
    ensures Reaches(longer, next, rule) && Resting(next) && SameCaptures(s, next) && next.greeted == s.greeted
  {
    longer, next := Extend(run, s, Reply, rule);
    longer, next := Extend(longer, next, TakeReply, rule);
  }

  lemma Greet(rule: (State, Action) -> bool) returns (run: seq<Action>, s: State)
    requires LetsLoopRun(rule) && rule(START, Ask(Typed(Request.Hello), true))
    requires forall s: State | s.pc.Handling? && s.pc.request.Hello? :: rule(s, HandlerDone(true))
    ensures Reaches(run, s, rule) && Resting(s) && SameCaptures(START, s) && s.greeted
  {
    assert Reaches([], START, rule);
    run, s := Requested([], START, Request.Hello, rule);
    run, s := Extend(run, s, HandlerDone(true), rule);
    run, s := Answered(run, s, rule);
  }

  /** A reset that does not wait for anybody. */
  lemma HastyReset(run: seq<Action>, s: State) returns (longer: seq<Action>, next: State)
    requires Reaches(run, s, Contract) && Resting(s) && s.greeted
    ensures Reaches(longer, next, Contract) && Resting(next) && next.greeted && !next.running
    ensures next.workers == s.workers && next.wire == s.wire
  {
    longer, next := Requested(run, s, Request.Reset, Contract);
    longer, next := Extend(longer, next, HandlerDone(true), Contract);
    longer, next := Extend(longer, next, ClearAfterReset, Contract);
    longer, next := Answered(longer, next, Contract);
  }

  /** Whoever may ask for a capture while the flag is down gets one. */
  lemma StartCapture(run: seq<Action>, s: State, id: nat, rule: (State, Action) -> bool)
    returns (longer: seq<Action>, next: State)
    requires Reaches(run, s, rule) && Resting(s) && s.greeted && !s.running && LetsLoopRun(rule)
    requires rule(s, Ask(Typed(AcquireStart(id)), true))
    requires forall s, a | Contract(s, a) && (a.Spawn? || a.HandlerDone?) :: rule(s, a)
    ensures Reaches(longer, next, rule) && Resting(next) && next.greeted && next.running
    ensures next.workers == s.workers + [Worker(id, Fresh, false)] && next.wire == s.wire
  {
    longer, next := Requested(run, s, AcquireStart(id), rule);
    longer, next := Extend(longer, next, SetFlag, rule);
    longer, next := Extend(longer, next, Spawn(id), rule);
    longer, next := Extend(longer, next, HandlerDone(true), rule);
    longer, next := Answered(longer, next, rule);
  }

  /** A lone worker announces its capture, and lowers the flag on its way to its terminal event. */
  lemma BeginAndClose(run: seq<Action>, s: State, id: nat, rule: (State, Action) -> bool)
    returns (longer: seq<Action>, next: State)
    requires Reaches(run, s, rule) && s.workers == [Worker(id, Fresh, false)] && s.wire == []
    requires forall s, a | Contract(s, a) && (a.Push? || a.ClearFlag?) :: rule(s, a)
    ensures Reaches(longer, next, rule)
    ensures next == s.(running := false, workers := [Worker(id, Closing(CaptureEnd(id)), true)],
                       wire := [Sent(0, CaptureBegin(id))])
  {
    longer, next := Extend(run, s, Push(0, CaptureBegin(id), true), rule);
    longer, next := Extend(longer, next, ClearFlag(0, CaptureEnd(id)), rule);
  }

  // ---------- A reset that does not wait ----------

  /** The first capture begins and is abandoned by a reset. */
  lemma AbandonedCapture() returns (run: seq<Action>, s: State)
    ensures Reaches(run, s, Contract) && Resting(s) && s.greeted && !s.running
    ensures s.workers == [Worker(1, Open, true)]
  {
    run, s := Greet(Contract);
    run, s := StartCapture(run, s, 1, Contract);
    run, s := Extend(run, s, Push(0, CaptureBegin(1), true), Contract);
    run, s := HastyReset(run, s);
  }

  /**
   * A plugin that keeps the contract but whose reset does not wait for its worker: the abandoned
   * worker's terminal event lowers the flag of the capture started since, and a running plugin takes
   * itself for idle.
   */
  lemma LateEndLowersNewFlag()
    ensures exists run :: After(run).Some? && Keeps(run, Contract) && AnyLive(After(run).value)
                          && !After(run).value.running && After(run).value.pc.Idle?
  {
    var run, s := AbandonedCapture();
    run, s := StartCapture(run, s, 2, Contract);
    run, s := Extend(run, s, ClearFlag(0, CaptureEnd(1)), Contract);
    assert Live(s.workers[1]);
    assert After(run).Some? && Keeps(run, Contract) && AnyLive(After(run).value);
  }

  lemma OutOfTurnWire()
    ensures Scan([Sent(1, CaptureBegin(2)), Sent(1, CaptureEnd(2)), Sent(0, CaptureBegin(1))]).None?
  {
    var begin, end := Sent(1, CaptureBegin(2)), Sent(1, CaptureEnd(2));
    ScanSnoc([], begin);
    ScanSnoc([begin], end);
    ScanSnoc([begin, end], Sent(0, CaptureBegin(1)));
    assert [] + [begin] == [begin];
    assert [begin] + [end] == [begin, end];
    assert [begin, end] + [Sent(0, CaptureBegin(1))] == [begin, end, Sent(0, CaptureBegin(1))];
  }

  /** Two captures, the first abandoned before it has begun. */
  lemma TwoFreshWorkers() returns (run: seq<Action>, s: State)
    ensures Reaches(run, s, Contract) && s.wire == []
    ensures s.workers == [Worker(1, Fresh, false), Worker(2, Fresh, false)]
  {
    run, s := Greet(Contract);
    run, s := StartCapture(run, s, 1, Contract);
    run, s := HastyReset(run, s);
    run, s := StartCapture(run, s, 2, Contract);
  }

  lemma SecondClosing() returns (run: seq<Action>, s: State)
    ensures Reaches(run, s, Contract)
    ensures s.workers == [Worker(1, Fresh, false), Worker(2, Closing(CaptureEnd(2)), true)]
    ensures s.wire == [Sent(1, CaptureBegin(2))]
  {
    run, s := TwoFreshWorkers();
    run, s := Extend(run, s, Push(1, CaptureBegin(2), true), Contract);
    run, s := Extend(run, s, ClearFlag(1, CaptureEnd(2)), Contract);
  }

  lemma SecondBeginsAndEnds() returns (run: seq<Action>, s: State)
    ensures Reaches(run, s, Contract)
    ensures s.workers == [Worker(1, Fresh, false), Worker(2, Closed(true), true)]
    ensures s.wire == [Sent(1, CaptureBegin(2)), Sent(1, CaptureEnd(2))]
  {
    run, s := SecondClosing();
    run, s := Extend(run, s, PushEnd(1, true), Contract);
  }

  /** The abandoned capture begins on the wire after the one started since has ended. */
  lemma AbandonedCaptureBeginsLate()
    ensures exists run :: After(run).Some? && Keeps(run, Contract) && Keeps(run, BeginsAlone)
                          && Keeps(run, AnnouncedFirst) && Scan(After(run).value.wire).None?
  {
    var run, s := SecondBeginsAndEnds();
    WireOrderOfTurn(run, s);
    var longer, next := Extend(run, s, Push(0, CaptureBegin(1), true), Contract);
    OutOfTurnWire();
    assert next.wire == [Sent(1, CaptureBegin(2)), Sent(1, CaptureEnd(2)), Sent(0, CaptureBegin(1))];
    assert longer[..|longer| - 1] == run;
    assert BeginsAlone(s, longer[|longer| - 1]) && AnnouncedFirst(s, longer[|longer| - 1]);
    assert After(longer).Some? && Keeps(longer, Contract) && Keeps(longer, BeginsAlone);
  }

  /** Up to there the wire is in order, so every rule of wire order has been kept. */
  lemma WireOrderOfTurn(run: seq<Action>, s: State)
    requires Reaches(run, s, Contract) && s.wire == [Sent(1, CaptureBegin(2)), Sent(1, CaptureEnd(2))]
    ensures Keeps(run, BeginsAlone) && Keeps(run, AnnouncedFirst)
  {
    ScanSnoc([], Sent(1, CaptureBegin(2)));
    ScanSnoc([Sent(1, CaptureBegin(2))], Sent(1, CaptureEnd(2)));
    assert [] + [Sent(1, CaptureBegin(2))] == [Sent(1, CaptureBegin(2))];
    assert [Sent(1, CaptureBegin(2))] + [Sent(1, CaptureEnd(2))] == s.wire;
    WireOrderIff(run);
  }

  // ---------- A device lost behind a capture's back ----------

  /** A thread that is not the capture's own reports the device lost, and a running plugin takes itself for idle. */
  lemma LostDeviceLowersFlag()
    ensures exists run :: After(run).Some? && Keeps(run, Contract) && Keeps(run, ResetWaits)
                          && AnyLive(After(run).value) && !After(run).value.running
  {
    var run, s := Greet(Patience);
    run, s := StartCapture(run, s, 1, Patience);
    run, s := Extend(run, s, LoseDevice, Patience);
    assert Live(s.workers[0]);
    Weaken(run, Patience, Contract);
    Weaken(run, Patience, ResetWaits);
    assert After(run).Some? && Keeps(run, Contract) && AnyLive(After(run).value);
  }

  predicate Patience(s: State, a: Action) {
    Contract(s, a) && ResetWaits(s, a)
  }

  // ---------- A client that does not wait ----------

  /** A first capture has begun, and lowered the flag on its way to its terminal event. */
  lemma FirstCaptureClosing() returns (run: seq<Action>, s: State)
    ensures Reaches(run, s, CarefulPlugin) && Resting(s) && s.greeted && !s.running
    ensures s.workers == [Worker(1, Closing(CaptureEnd(1)), true)] && s.wire == [Sent(0, CaptureBegin(1))]
  {
    run, s := Greet(CarefulPlugin);
    run, s := StartCapture(run, s, 1, CarefulPlugin);
    run, s := BeginAndClose(run, s, 1, CarefulPlugin);
  }

  /** Before that event is pushed the next start is accepted, and its capture begins. */
  lemma SecondCaptureOpen() returns (run: seq<Action>, s: State)
    ensures Reaches(run, s, CarefulPlugin)
    ensures s.workers == [Worker(1, Closing(CaptureEnd(1)), true), Worker(2, Open, true)]
    ensures s.wire == [Sent(0, CaptureBegin(1)), Sent(1, CaptureBegin(2))]
  {
    run, s := FirstCaptureClosing();
    run, s := StartCapture(run, s, 2, CarefulPlugin);
    run, s := Extend(run, s, Push(1, CaptureBegin(2), true), CarefulPlugin);
  }

  lemma OverlappingWire()
    ensures Scan([Sent(0, CaptureBegin(1)), Sent(1, CaptureBegin(2)), Sent(0, CaptureEnd(1))]).None?
  {
    var first, second := Sent(0, CaptureBegin(1)), Sent(1, CaptureBegin(2));
    ScanSnoc([], first);
    ScanSnoc([first], second);
    ScanSnoc([first, second], Sent(0, CaptureEnd(1)));
    assert [] + [first] == [first];
    assert [first] + [second] == [first, second];
    assert [first, second] + [Sent(0, CaptureEnd(1))] == [first, second, Sent(0, CaptureEnd(1))];
  }

  /**
   * A client that does not wait for the terminal event: the plugin answers as ready between the two
   * halves of the terminal send, and the next capture begins on the wire before the last one has ended.
   */
  lemma CapturesOverlapWithoutWaiting()
    ensures exists run :: ByContract(run) && Scan(After(run).value.wire).None?
                          && After(run).value.wire ==
                             [Sent(0, CaptureBegin(1)), Sent(1, CaptureBegin(2)), Sent(0, CaptureEnd(1))]
  {
    var run, s := SecondCaptureOpen();
    run, s := Extend(run, s, PushEnd(0, true), CarefulPlugin);
    OverlappingWire();
    Weaken(run, CarefulPlugin, Contract);
    Weaken(run, CarefulPlugin, ResetWaits);
    Weaken(run, CarefulPlugin, LossWaits);
    assert ByContract(run) && Scan(After(run).value.wire).None?;
  }

  // ---------- A client that forgets a start it gave up on ----------

  /** All that is asked of both, except for waiting until no start is on its way. */
  predicate CarefulReader(s: State, a: Action) {
    CarefulPlugin(s, a) && ReadsEndFirst(s, a)
  }

  /** A start waits on the channel, and the loop is free to accept it. */
  predicate StartWaits(s: State, id: nat) {
    && s.pc.Idle? && s.greeted && !s.running && s.taken < |s.asked|
    && s.asked[s.taken].message.Message? && s.asked[s.taken].message.request == Some(AcquireStart(id))
  }

  lemma TakeStart(run: seq<Action>, s: State, id: nat) returns (longer: seq<Action>, next: State)
    requires Reaches(run, s, CarefulReader) && StartWaits(s, id)
    ensures Reaches(longer, next, CarefulReader)
    ensures next.pc.SettingFlag? && next.pc.request == AcquireStart(id)
    ensures next == s.(pc := next.pc, serving := next.serving, taken := s.taken + 1)
  {
    longer, next := Extend(run, s, Receive, CarefulReader);
    longer, next := Extend(longer, next, Check, CarefulReader);
  }

  lemma RunStart(run: seq<Action>, s: State, id: nat) returns (longer: seq<Action>, next: State)
    requires Reaches(run, s, CarefulReader) && s.pc.SettingFlag? && s.pc.request == AcquireStart(id)
    ensures Reaches(longer, next, CarefulReader) && next.pc.Replying? && next.pc.asked == Some(AcquireStart(id))
    ensures next == s.(pc := next.pc, running := true, workers := s.workers + [Worker(id, Fresh, false)])
  {
    longer, next := Extend(run, s, SetFlag, CarefulReader);
    longer, next := Extend(longer, next, Spawn(id), CarefulReader);
    longer, next := Extend(longer, next, HandlerDone(true), CarefulReader);
  }

  /** The loop accepts a start that nobody waits for any more. */
  lemma ServeStart(run: seq<Action>, s: State, id: nat) returns (longer: seq<Action>, next: State)
    requires Reaches(run, s, CarefulReader) && StartWaits(s, id)
    ensures Reaches(longer, next, CarefulReader)
    ensures next == s.(serving := next.serving, replies := next.replies, taken := s.taken + 1, running := true,
                       workers := s.workers + [Worker(id, Fresh, false)])
  {
    longer, next := TakeStart(run, s, id);
    longer, next := RunStart(longer, next, id);
    longer, next := Extend(longer, next, Reply, CarefulReader);
  }

  /** A start is asked for, and the call times out. */
  lemma ForgetStart(run: seq<Action>, s: State, id: nat) returns (longer: seq<Action>, next: State)
    requires Reaches(run, s, CarefulReader) && s.waiting.None? && s.workers == []
    ensures Reaches(longer, next, CarefulReader)
    ensures |next.asked| == |s.asked| + 1
    ensures next.asked[|s.asked|].message.Message? && next.asked[|s.asked|].message.request == Some(AcquireStart(id))
    ensures next == s.(calls := s.calls + 1, asked := s.asked + [next.asked[|s.asked|]])
  {
    longer, next := Extend(run, s, Ask(Typed(AcquireStart(id)), true), CarefulReader);
    longer, next := Extend(longer, next, GiveUp, CarefulReader);
  }

  /** Two starts are given up on, and wait on the channel. */
  lemma TwoForgotten() returns (run: seq<Action>, s: State)
    ensures Reaches(run, s, CarefulReader) && StartWaits(s, 1) && s.workers == [] && s.wire == []
    ensures StartWaits(s.(taken := s.taken + 1), 2)
  {
    run, s := Greet(CarefulReader);
    run, s := ForgetStart(run, s, 1);
    run, s := ForgetStart(run, s, 2);
  }

  /** The loop accepts the first, and its capture is about to end. */
  lemma FirstOfTwoCloses() returns (run: seq<Action>, s: State)
    ensures Reaches(run, s, CarefulReader) && StartWaits(s, 2)
    ensures s.workers == [Worker(1, Closing(CaptureEnd(1)), true)] && s.wire == [Sent(0, CaptureBegin(1))]
  {
    run, s := TwoForgotten();
    run, s := ServeStart(run, s, 1);
    run, s := BeginAndClose(run, s, 1, CarefulReader);
  }

  /** The loop accepts the second as well. */
  lemma SecondOfTwoBegins() returns (run: seq<Action>, s: State)
    ensures Reaches(run, s, CarefulReader)
    ensures s.workers == [Worker(1, Closing(CaptureEnd(1)), true), Worker(2, Open, true)]
    ensures s.wire == [Sent(0, CaptureBegin(1)), Sent(1, CaptureBegin(2))]
  {
    run, s := FirstOfTwoCloses();
    run, s := ServeStart(run, s, 2);
    run, s := Extend(run, s, Push(1, CaptureBegin(2), true), CarefulReader);
  }

  /**
   * A client that reads the terminal event before it asks again, but whose call for the start before
   * timed out: the loop accepts both starts, and the captures overlap on the wire.
   */
  lemma CapturesOverlapAfterTimeout()
    ensures exists run :: ByContract(run) && Keeps(run, ReadsEndFirst) && Scan(After(run).value.wire).None?
  {
    var run, s := SecondOfTwoBegins();
    run, s := Extend(run, s, PushEnd(0, true), CarefulReader);
    OverlappingWire();
    Weaken(run, CarefulReader, Contract);
    Weaken(run, CarefulReader, ResetWaits);
    Weaken(run, CarefulReader, LossWaits);
    Weaken(run, CarefulReader, ReadsEndFirst);
    assert s.wire == [Sent(0, CaptureBegin(1)), Sent(1, CaptureBegin(2)), Sent(0, CaptureEnd(1))];
    assert ByContract(run) && Keeps(run, ReadsEndFirst) && Scan(After(run).value.wire).None?;
  }

  // ---------- A CaptureBegin that is refused ----------

  lemma CarefulCapture() returns (run: seq<Action>, s: State)
    ensures Reaches(run, s, Careful) && s.workers == [Worker(1, Fresh, false)] && s.wire == []
  {
    run, s := Greet(Careful);
    assert !StartPending(s);
    run, s := StartCapture(run, s, 1, Careful);
  }

  lemma RefusedCapture() returns (run: seq<Action>, s: State)
    ensures Reaches(run, s, Careful) && s.workers == [Worker(1, Open, false)] && s.wire == []
  {
    run, s := CarefulCapture();
    run, s := Extend(run, s, Push(0, CaptureBegin(1), false), Careful);
  }

  lemma RefusedCaptureEnds() returns (run: seq<Action>, s: State)
    ensures Reaches(run, s, Careful) && s.wire == [Sent(0, CaptureEnd(1))]
  {
    run, s := RefusedCapture();
    run, s := Extend(run, s, ClearFlag(0, CaptureEnd(1)), Careful);
    run, s := Extend(run, s, PushEnd(0, true), Careful);
  }

  lemma StrayEnd()
    ensures Scan([Sent(0, CaptureEnd(1))]).None?
  {
    ScanSnoc([], Sent(0, CaptureEnd(1)));
    assert [] + [Sent(0, CaptureEnd(1))] == [Sent(0, CaptureEnd(1))];
  }

  /**
   * Plugin and client do all that is asked of them, but the socket refuses the CaptureBegin and takes
   * the terminal event: the wire holds the end of a capture that never began.
   */
  lemma RefusedBeginStrays()
    ensures exists run :: ByContract(run) && Keeps(run, TriesBeginFirst) && Keeps(run, Discipline)
                          && Scan(After(run).value.wire).None?
                          && After(run).value.wire == [Sent(0, CaptureEnd(1))]
  {
    var run, s := RefusedCaptureEnds();
    StrayEnd();
    Weaken(run, Careful, Contract);
    Weaken(run, Careful, ResetWaits);
    Weaken(run, Careful, LossWaits);
    Weaken(run, Careful, TriesBeginFirst);
    Weaken(run, Careful, Discipline);
    assert ByContract(run) && Scan(After(run).value.wire).None?;
  }

  // ---------- A CaptureBegin that is not tried ----------

  predicate CarefulSocket(s: State, a: Action) {
    CarefulPlugin(s, a) && BeginsAccepted(s, a)
  }

  lemma UntriedCapture() returns (run: seq<Action>, s: State)
    ensures Reaches(run, s, CarefulSocket) && s.workers == [Worker(1, Fresh, false)] && s.wire == []
  {
    run, s := Greet(CarefulSocket);
    run, s := StartCapture(run, s, 1, CarefulSocket);
  }

  lemma EarlyEnd() returns (run: seq<Action>, s: State)
    ensures Reaches(run, s, CarefulSocket) && s.wire == [Sent(0, CaptureEnd(1))]
  {
    run, s := UntriedCapture();
    run, s := Extend(run, s, ClearFlag(0, CaptureEnd(1)), CarefulSocket);
    run, s := Extend(run, s, PushEnd(0, true), CarefulSocket);
  }

  /** No CaptureBegin is refused, but a capture fails before it has tried to begin. */
  lemma EarlyEndStrays()
    ensures exists run :: ByContract(run) && Keeps(run, BeginsAccepted) && Scan(After(run).value.wire).None?
  {
    var run, s := EarlyEnd();
    StrayEnd();
    Weaken(run, CarefulSocket, Contract);
    Weaken(run, CarefulSocket, ResetWaits);
    Weaken(run, CarefulSocket, LossWaits);
    Weaken(run, CarefulSocket, BeginsAccepted);
    assert ByContract(run) && Keeps(run, BeginsAccepted) && Scan(After(run).value.wire).None?;
  }
}
