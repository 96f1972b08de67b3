/** Requests and replies keep step over whole sessions. */
module Lockstep {
  import opened Wrappers
  import opened Protocol
  import opened ControlLoop
  import opened ControlLoopSafety

  /** A reply carries either an error or the one arm its request asks for, never both or neither. */
  predicate Proper(asked: Option<Request>, response: Response) {
    if response.error.Some? then response.result.None?
    else asked.Some? && response.result == Some(ArmOf(asked.value))
  }

  predicate ProperReply(s: State) {
    s.pc.Replying? ==> Proper(s.pc.asked, s.pc.response)
  }

  lemma ProperReplyStep(s: State, a: Action)
    requires ProperReply(s) && Enabled(s, a)
    ensures ProperReply(Apply(s, a))
  {
  }

  lemma {:induction false} ProperReplyAlways(run: seq<Action>)
    requires After(run).Some?
    ensures ProperReply(After(run).value)
    decreases |run|
  {
    if run != [] {
      ProperReplyAlways(run[..|run| - 1]);
      ProperReplyStep(After(run[..|run| - 1]).value, run[|run| - 1]);
    }
  }

  // ---------- The typed client and the real server ----------

  /** The client uses its typed calls only. */
  predicate AsksTyped(s: State, a: Action) {
    a.Ask? ==> a.question.Typed?
  }

  /** The request the loop is working on, if it is working on one. */
  function InHand(pc: Pc): Option<(nat, Option<Request>)> {
    match pc
    case Received(seqNo, asked) => Some((seqNo, asked))
    case SettingFlag(seqNo, request) => Some((seqNo, Some(request)))
    case Handling(seqNo, request, _) => Some((seqNo, Some(request)))
    case ClearingAfterError(seqNo, request) => Some((seqNo, Some(request)))
    case ClearingAfterReset(seqNo, request) => Some((seqNo, Some(request)))
    case Replying(asked, response) => Some((response.seqNo, asked))
    case _ => None
  }

  /** `call` is one of the client's calls and `seqNo` the number it went out with. */
  predicate Numbered(s: State, call: nat, seqNo: nat) {
    call <= s.calls && seqNo == call % SEQ_LIMIT
  }

  /** `call` is the call the client is in. */
  predicate IsCurrentCall(s: State, call: nat) {
    s.waiting.Some? && s.waiting.value.Typed? && call == s.calls
  }

  predicate FaithfulMail(s: State, mail: Mail) {
    && mail.message.Message? && Numbered(s, mail.call, mail.message.seqNo)
    && (IsCurrentCall(s, mail.call) ==> mail.message.request == Some(s.waiting.value.request))
  }

  predicate FaithfulAnswer(s: State, answer: Answer) {
    && Numbered(s, answer.call, answer.response.seqNo)
    && (IsCurrentCall(s, answer.call) ==> Proper(Some(s.waiting.value.request), answer.response))
  }

  predicate FaithfulLoop(s: State) {
    InHand(s.pc).Some? ==>
      && Numbered(s, s.serving, InHand(s.pc).value.0)
      && (IsCurrentCall(s, s.serving) ==> InHand(s.pc).value.1 == Some(s.waiting.value.request))
  }

  /** Wherever a request or its reply is, it still carries the number of its call and the right arm. */
  predicate InLockstep(s: State) {
    && (s.waiting.Some? ==> s.waiting.value.Typed?)
    && (forall i | 0 <= i < |s.asked| :: FaithfulMail(s, s.asked[i]))
    && FaithfulLoop(s)
    && (forall i | 0 <= i < |s.replies| :: FaithfulAnswer(s, s.replies[i]))
  }

  lemma MailStep(s: State, a: Action)
    requires InLockstep(s) && Enabled(s, a) && AsksTyped(s, a)
    ensures var next := Apply(s, a);
            forall i | 0 <= i < |next.asked| :: FaithfulMail(next, next.asked[i])
  {
    var next := Apply(s, a);
    forall i | 0 <= i < |next.asked| ensures FaithfulMail(next, next.asked[i]) {
      assert i < |s.asked| ==> FaithfulMail(s, next.asked[i]);
    }
  }

  lemma AnswerStep(s: State, a: Action)
    requires InLockstep(s) && ProperReply(s) && Enabled(s, a) && AsksTyped(s, a)
    ensures var next := Apply(s, a);
            forall i | 0 <= i < |next.replies| :: FaithfulAnswer(next, next.replies[i])
  {
    var next := Apply(s, a);
    forall i | 0 <= i < |next.replies| ensures FaithfulAnswer(next, next.replies[i]) {
      assert i < |s.replies| ==> FaithfulAnswer(s, next.replies[i]);
    }
  }

  lemma LoopMoves(s: State, a: Action)
    requires InLockstep(s) && Enabled(s, a) && OfLoop(a)
    ensures FaithfulLoop(Apply(s, a))
  {
    if a.Receive? {
      assert FaithfulMail(s, s.asked[s.taken]);
    }
  }

  lemma LoopRests(s: State, a: Action)
    requires InLockstep(s) && Enabled(s, a) && !OfLoop(a) && AsksTyped(s, a)
    ensures FaithfulLoop(Apply(s, a))
  {
    assert InHand(Apply(s, a).pc) == InHand(s.pc);
  }

  lemma LockstepStep(s: State, a: Action)
    requires InLockstep(s) && ProperReply(s) && Enabled(s, a) && AsksTyped(s, a)
    ensures InLockstep(Apply(s, a))
  {
    MailStep(s, a);
    AnswerStep(s, a);
    if OfLoop(a) {
      LoopMoves(s, a);
    } else {
      LoopRests(s, a);
    }
  }

  lemma {:induction false} LockstepAlways(run: seq<Action>)
    requires After(run).Some? && Keeps(run, AsksTyped)
    ensures InLockstep(After(run).value)
    decreases |run|
  {
    if run != [] {
      var earlier := run[..|run| - 1];
      LockstepAlways(earlier);
      ProperReplyAlways(earlier);
      LockstepStep(After(earlier).value, run[|run| - 1]);
    }
  }

  /** How many calls ago the reply the client reads next was asked for. */
  function Age(s: State): int
    requires Enabled(s, TakeReply)
  {
    s.calls - s.replies[s.read].call
  }

  /** What the typed call makes of that reply. */
  function Taken(s: State): Result<Arm, ClientError>
    requires Enabled(s, TakeReply) && s.waiting.value.Typed?
  {
    JudgeTyped(s.waiting.value.request, s.calls % SEQ_LIMIT, s.replies[s.read].response)
  }

  lemma TakenByAge(s: State)
    requires Enabled(s, TakeReply) && s.waiting.value.Typed? && FaithfulAnswer(s, s.replies[s.read])
    ensures Age(s) >= 0 && (Taken(s) == Err(SeqMismatch) <==> Age(s) % 0x1_0000_0000 != 0)
    ensures Age(s) == 0 ==>
              Taken(s) == match s.replies[s.read].response.error
                          case None => Ok(ArmOf(s.waiting.value.request))
                          case Some(why) => Err(Remote(why))
  {
    SameNumber(s.replies[s.read].call, s.calls);
  }

  /**
   * Over any session, with calls that time out, requests and replies that get lost and old replies still
   * on the channel: a typed call that reads the reply to itself ends in its own result arm or the
   * server's own error. One that reads the reply to an earlier call ends in a sequence mismatch, unless a
   * multiple of 2^32 calls lies between.
   */
  lemma TypedCallsSucceedOrAreRefused(run: seq<Action>)
    requires After(run).Some? && Keeps(run, AsksTyped) && Enabled(After(run).value, TakeReply)
    ensures var s := After(run).value;
            && s.waiting.value.Typed? && Age(s) >= 0
            && (Taken(s) == Err(SeqMismatch) <==> Age(s) % 0x1_0000_0000 != 0)
            && (Age(s) == 0 ==>
                  Taken(s) == match s.replies[s.read].response.error
                              case None => Ok(ArmOf(s.waiting.value.request))
                              case Some(why) => Err(Remote(why)))
  {
    var s := After(run).value;
    LockstepAlways(run);
    assert FaithfulAnswer(s, s.replies[s.read]);
    TakenByAge(s);
  }

  /**
   * The number check by itself: a reply to the call `age` calls back is turned away unless the age is a
   * multiple of 2^32; in particular every reply to one of the 2^32 - 1 calls before is.
   */
  lemma StaleReplyRejected(call: nat, age: nat, response: Response)
    requires response.seqNo == call % 0x1_0000_0000
    ensures Judge((call + age) % 0x1_0000_0000, response) == Err(SeqMismatch) <==> age % 0x1_0000_0000 != 0
  {
    SameNumber(call, call + age);
  }

  // ---------- Whatever a client sends ----------

  /** What a question looks like on the channel: a request without an arm is numbered, garbage carries nothing. */
  predicate Carries(question: Question, call: nat, message: Inbound) {
    match question
    case Typed(request) => message == Message(call % SEQ_LIMIT, Some(request))
    case NoArm => message == Message(call % SEQ_LIMIT, None)
    case Garbage => message.Undecodable?
  }

  /** The answer it gets: what has no arm is refused under its number, what cannot be decoded under zero. */
  predicate Fits(question: Question, call: nat, response: Response) {
    match question
    case Typed(request) => response.seqNo == call % SEQ_LIMIT && Proper(Some(request), response)
    case NoArm => response == Response(call % SEQ_LIMIT, Some(Invalid), None)
    case Garbage => response == Response(0, Some(Invalid), None)
  }

  /** The loop is on a message that carries the question. */
  predicate InHandFor(question: Question, call: nat, pc: Pc) {
    if pc.Replying? then
      Fits(question, call, pc.response) && (question.Typed? ==> pc.asked == Some(question.request))
    else InHand(pc).Some? ==>
      && !question.Garbage? && InHand(pc).value.0 == call % SEQ_LIMIT
      && InHand(pc).value.1 == if question.Typed? then Some(question.request) else None
  }

  /** `call` is the call the client waits for, typed or not. */
  predicate Awaited(s: State, call: nat) {
    s.waiting.Some? && call == s.calls
  }

  predicate Conversing(s: State) {
    && (forall i | 0 <= i < |s.asked| :: s.asked[i].call <= s.calls)
    && (forall i | 0 <= i < |s.asked| && Awaited(s, s.asked[i].call) ::
          Carries(s.waiting.value, s.calls, s.asked[i].message))
    && s.serving <= s.calls
    && (Awaited(s, s.serving) ==> InHandFor(s.waiting.value, s.calls, s.pc))
    && (forall i | 0 <= i < |s.replies| :: s.replies[i].call <= s.calls)
    && (forall i | 0 <= i < |s.replies| && Awaited(s, s.replies[i].call) ::
          Fits(s.waiting.value, s.calls, s.replies[i].response))
  }

  lemma ConversingClientStep(s: State, a: Action)
    requires Conversing(s) && Enabled(s, a) && OfClient(a)
    ensures Conversing(Apply(s, a))
  {
  }

  lemma ConversingLoopStep(s: State, a: Action)
    requires Conversing(s) && Enabled(s, a) && OfLoop(a)
    ensures Conversing(Apply(s, a))
  {
  }

  lemma ConversingPluginStep(s: State, a: Action)
    requires Conversing(s) && Enabled(s, a) && OfPlugin(a)
    ensures Conversing(Apply(s, a))
  {
  }

  lemma {:induction false} ConversingAlways(run: seq<Action>)
    requires After(run).Some?
    ensures Conversing(After(run).value)
    decreases |run|
  {
    if run != [] {
      var before, a := After(run[..|run| - 1]).value, run[|run| - 1];
      ConversingAlways(run[..|run| - 1]);
      if OfClient(a) {
        ConversingClientStep(before, a);
      } else if OfLoop(a) {
        ConversingLoopStep(before, a);
      } else {
        ConversingPluginStep(before, a);
      }
    }
  }

  /**
   * Over any session, whatever the client puts on the channel and whatever gets lost: the reply to the
   * call it is in fits what it sent. A request without an arm and a message that cannot be decoded are
   * told that they are invalid, the first under its own number and the second under zero.
   */
  lemma EveryQuestionFits(run: seq<Action>)
    requires After(run).Some? && Enabled(After(run).value, TakeReply)
    ensures var s := After(run).value;
            Age(s) >= 0 && (Age(s) == 0 ==> Fits(s.waiting.value, s.calls, s.replies[s.read].response))
  {
    ConversingAlways(run);
  }

  /** How many steps of a run the client has taken that are of one kind. */
  function Count(run: seq<Action>, kind: Action -> bool): nat {
    if run == [] then 0 else Count(run[..|run| - 1], kind) + if kind(run[|run| - 1]) then 1 else 0
  }

  predicate IsAsk(a: Action) {
    a.Ask?
  }

  predicate IsSentAsk(a: Action) {
    a.Ask? && a.sent
  }

  predicate IsRead(a: Action) {
    a.ReadEvent?
  }

  predicate OffRequests(a: Action) {
    a.Receive? || a.LoseRequest?
  }

  predicate OffReplies(a: Action) {
    a.TakeReply? || a.LoseReply?
  }

  lemma CountStep(s: State, a: Action)
    requires Enabled(s, a)
    ensures var next := Apply(s, a);
            && next.calls == s.calls + (if IsAsk(a) then 1 else 0)
            && |next.asked| == |s.asked| + (if IsSentAsk(a) then 1 else 0)
            && next.eventsRead == s.eventsRead + (if IsRead(a) then 1 else 0)
            && next.taken == s.taken + (if OffRequests(a) then 1 else 0)
            && next.read == s.read + (if OffReplies(a) then 1 else 0)
            && (s.taken <= |s.asked| ==> next.taken <= |next.asked|)
            && (s.read <= |s.replies| ==> next.read <= |next.replies|)
            && (s.eventsRead <= |s.wire| ==> next.eventsRead <= |next.wire|)
  {
  }

  /**
   * Every call counts, even one whose request could not be sent, and the channel holds those that were.
   * Requests, replies and events leave their channels one by one in the order they came, read or lost,
   * and none before it is there.
   */
  lemma {:induction false} CallsCount(run: seq<Action>)
    requires After(run).Some?
    ensures var s := After(run).value;
            && s.calls == Count(run, IsAsk) && |s.asked| == Count(run, IsSentAsk)
            && s.taken == Count(run, OffRequests) <= |s.asked|
            && s.read == Count(run, OffReplies) <= |s.replies|
            && s.eventsRead == Count(run, IsRead) <= |s.wire|
    decreases |run|
  {
    if run != [] {
      CallsCount(run[..|run| - 1]);
      CountStep(After(run[..|run| - 1]).value, run[|run| - 1]);
    }
  }

  // ---------- One answer for each request ----------

  /** The calls whose requests the loop has taken off the channel, in order. */
  function CallsReceived(run: seq<Action>): seq<nat>
    decreases |run|
  {
    if run == [] then [] else
      var earlier, a := run[..|run| - 1], run[|run| - 1];
      var before := After(earlier);
      CallsReceived(earlier) +
      if a.Receive? && before.Some? && Enabled(before.value, a) then [before.value.asked[before.value.taken].call]
      else []
  }

  function CallsAnswered(replies: seq<Answer>): seq<nat> {
    seq(|replies|, i requires 0 <= i < |replies| => replies[i].call)
  }

  /** The call the loop owes an answer to, if it owes one. */
  function Owed(s: State): seq<nat> {
    if InHand(s.pc).Some? || s.pc.Broken? then [s.serving] else []
  }

  lemma AnsweredLoopStep(s: State, a: Action)
    requires Enabled(s, a) && OfLoop(a)
    ensures var next := Apply(s, a);
            CallsAnswered(next.replies) + Owed(next) ==
            CallsAnswered(s.replies) + Owed(s) + if a.Receive? then [s.asked[s.taken].call] else []
  {
  }

  lemma OwedElsewhere(s: State, a: Action)
    requires Enabled(s, a) && !OfLoop(a)
    ensures var next := Apply(s, a); next.replies == s.replies && Owed(next) == Owed(s)
  {
  }

  lemma AnsweredStep(s: State, a: Action)
    requires Enabled(s, a)
    ensures var next := Apply(s, a);
            CallsAnswered(next.replies) + Owed(next) ==
            CallsAnswered(s.replies) + Owed(s) + if a.Receive? then [s.asked[s.taken].call] else []
  {
    if OfLoop(a) {
      AnsweredLoopStep(s, a);
    } else {
      OwedElsewhere(s, a);
    }
  }

  /**
   * Every request the loop takes is answered once and in order, whether it could be decoded or not; only
   * the last one can still be without its answer.
   */
  lemma {:induction false} AnsweredInOrder(run: seq<Action>)
    requires After(run).Some?
    ensures var s := After(run).value;
            CallsReceived(run) == CallsAnswered(s.replies) + Owed(s)
    decreases |run|
  {
    if run != [] {
      AnsweredInOrder(run[..|run| - 1]);
      AnsweredStep(After(run[..|run| - 1]).value, run[|run| - 1]);
    }
  }

  // ---------- A client whose calls never time out ----------

  predicate NeverGivesUp(s: State, a: Action) {
    !a.GiveUp?
  }

  /** How many requests are on their way, being answered or on their way back. */
  function InFlight(s: State): int {
    |s.asked| - s.taken + (if InHand(s.pc).Some? then 1 else 0) + |s.replies| - s.read
  }

  /** At most one, and it belongs to the call the client is in. */
  predicate OneAtATime(s: State) {
    && s.taken <= |s.asked| && s.read <= |s.replies|
    && InFlight(s) <= (if s.waiting.Some? then 1 else 0)
    && (forall i | s.taken <= i < |s.asked| :: s.asked[i].call == s.calls)
    && (InHand(s.pc).Some? ==> s.serving == s.calls)
    && (forall i | s.read <= i < |s.replies| :: s.replies[i].call == s.calls)
  }

  lemma OneAtATimeClientStep(s: State, a: Action)
    requires OneAtATime(s) && Enabled(s, a) && NeverGivesUp(s, a) && OfClient(a)
    ensures OneAtATime(Apply(s, a))
  {
  }

  lemma OneAtATimeLoopStep(s: State, a: Action)
    requires OneAtATime(s) && Enabled(s, a) && OfLoop(a)
    ensures OneAtATime(Apply(s, a))
  {
  }

  lemma OneAtATimeStep(s: State, a: Action)
    requires OneAtATime(s) && Enabled(s, a) && NeverGivesUp(s, a)
    ensures OneAtATime(Apply(s, a))
  {
    if OfClient(a) {
      OneAtATimeClientStep(s, a);
    } else if OfLoop(a) {
      OneAtATimeLoopStep(s, a);
    }
  }

  lemma {:induction false} OneAtATimeAlways(run: seq<Action>)
    requires After(run).Some? && Keeps(run, NeverGivesUp)
    ensures OneAtATime(After(run).value)
    decreases |run|
  {
    if run != [] {
      OneAtATimeAlways(run[..|run| - 1]);
      OneAtATimeStep(After(run[..|run| - 1]).value, run[|run| - 1]);
    }
  }

  /**
   * A client that waits for its replies never sees an old one, so no call of it ends in a mismatch, a
   * wrong arm or an empty reply; and when it asks for a capture, no start of its own is still pending.
   */
  lemma PatientClient(run: seq<Action>)
    requires After(run).Some? && Keeps(run, NeverGivesUp)
    ensures var s := After(run).value;
            && (Enabled(s, TakeReply) ==> Age(s) == 0)
            && (s.waiting.None? ==> !StartPending(s))
  {
    OneAtATimeAlways(run);
  }

  /** So for such a client reading the terminal event first is the whole discipline. */
  lemma {:induction false} PatientDiscipline(run: seq<Action>)
    requires After(run).Some? && Keeps(run, NeverGivesUp) && Keeps(run, ReadsEndFirst)
    ensures Keeps(run, Discipline)
    decreases |run|
  {
    if run != [] {
      PatientDiscipline(run[..|run| - 1]);
      PatientClient(run[..|run| - 1]);
    }
  }

  // ---------- Shutdown ----------

  function Leaving(s: State): nat {
    s.shutdowns + if s.pc.ShuttingDown? then 1 else 0
  }

  lemma LeavingStep(s: State, a: Action)
    requires Enabled(s, a) && ProperReply(s) && (Leaving(s) > 0 ==> s.pc.ShuttingDown? || s.pc.Exited?)
    ensures Leaving(Apply(s, a)) == Leaving(s) + if a.Reply? && AboutToReply(s, ShutdownDone) then 1 else 0
    ensures Leaving(Apply(s, a)) > 0 ==> Apply(s, a).pc.ShuttingDown? || Apply(s, a).pc.Exited?
  {
  }

  /**
   * The plugin's shutdown hook runs at most once, only after an accepted Shutdown was answered, and
   * then the loop is over.
   */
  lemma {:induction false} ShutdownOnce(run: seq<Action>)
    requires After(run).Some?
    ensures var s := After(run).value;
            && Leaving(s) == Replies(run, ShutdownDone) <= 1
            && (Leaving(s) == 1 ==> s.pc.ShuttingDown? || s.pc.Exited?)
    decreases |run|
  {
    if run != [] {
      var earlier := run[..|run| - 1];
      ProperReplyAlways(earlier);
      ShutdownOnce(earlier);
      LeavingStep(After(earlier).value, run[|run| - 1]);
    }
  }
}
