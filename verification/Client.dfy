/** The frontend's half of the control channel, in both languages. */
module Client {
  import opened Wrappers
  import opened Protocol
  import opened ControlLoop
  import opened Lockstep
  import Args

  /** What the socket does with one request: a send or a receive may fail, or a reply comes back. */
  datatype Exchange = SendFails | ReceiveFails | Replied(response: Response)

  function Outcome(seqNo: nat, exchange: Exchange): Result<Arm, ClientError> {
    if exchange.Replied? then Judge(seqNo, exchange.response) else Err(Transport)
  }

  function TypedOutcome(request: Request, seqNo: nat, exchange: Exchange): Result<Arm, ClientError> {
    if exchange.Replied? then JudgeTyped(request, seqNo, exchange.response) else Err(Transport)
  }

  class CaptureClient {
    var seqNo: nat
    var captureId: nat
    /** How many requests were made, and the capture ids handed out. */
    ghost var calls: nat
    ghost var issued: seq<nat>

    ghost predicate Valid()
      reads this
    {
      && seqNo == calls % 0x1_0000_0000
      && (forall i | 0 <= i < |issued| :: issued[i] <= captureId)
      && forall i, j | 0 <= i < j < |issued| :: issued[i] != issued[j]
    }

    constructor ()
      ensures Valid() && calls == 0 && issued == []
    {
      seqNo, captureId, calls, issued := 0, 0, 0, [];
    }

    /** No capture id is ever handed out twice. */
    method NextCaptureId() returns (id: nat)
      requires Valid()
      modifies this`captureId, this`issued
      ensures Valid() && issued == old(issued) + [id] && id !in old(issued)
    {
      captureId := captureId + 1;
      issued := issued + [captureId];
      return captureId;
    }

    /** The number moves on even if the send fails, so no later request reuses it at once. */
    method Request(exchange: Exchange) returns (r: Result<Arm, ClientError>)
      requires Valid()
      modifies this`seqNo, this`calls
      ensures Valid() && calls == old(calls) + 1 && r == Outcome(calls % SEQ_LIMIT, exchange)
    {
      WrapOnce(calls);
      seqNo := (seqNo + 1) % SEQ_LIMIT;
      calls := calls + 1;
      var sent := seqNo;
      if exchange.SendFails? || exchange.ReceiveFails? {
        return Err(Transport);
      }
      var response := exchange.response;
      if response.seqNo != sent {
        return Err(SeqMismatch);
      }
      match (response.error, response.result) {
        case (Some(e), _) => return Err(Remote(e));
        case (None, Some(arm)) => return Ok(arm);
        case (None, None) => return Err(EmptyReply);
      }
    }

    /** Every typed call: send the request, accept its one arm. */
    method Call(request: Request, exchange: Exchange) returns (r: Result<Arm, ClientError>)
      requires Valid()
      modifies this`seqNo, this`calls
      ensures Valid() && calls == old(calls) + 1 && r == TypedOutcome(request, calls % SEQ_LIMIT, exchange)
      ensures r.Ok? <==> exchange == Replied(Response(calls % SEQ_LIMIT, None, Some(ArmOf(request))))
      ensures r.Ok? ==> r.value == ArmOf(request)
      ensures r == Err(Transport) <==> !exchange.Replied?
      ensures r == Err(SeqMismatch) <==> exchange.Replied? && exchange.response.seqNo != calls % SEQ_LIMIT
      ensures exchange.Replied? && exchange.response.seqNo == calls % 0x1_0000_0000 ==>
                match (exchange.response.error, exchange.response.result)
                case (Some(why), _) => r == Err(Remote(why))
                case (None, None) => r == Err(EmptyReply)
                case (None, Some(arm)) => arm != ArmOf(request) ==> r == Err(WrongArm(arm))
    {
      r := Request(exchange);
      if r.Ok? && r.value != ArmOf(request) {
        return Err(WrongArm(r.value));
      }
    }

    /**
     * A call in a session with the real control loop, in which any earlier calls may have timed out. `s`
     * is where the session stands when the reply is read; the loop's side has already counted this call.
     */
    method CallInSession(request: Request, s: State, ghost run: seq<Action>) returns (r: Result<Arm, ClientError>)
      requires Valid() && After(run) == Some(s) && Keeps(run, AsksTyped)
      requires s.waiting == Some(Typed(request)) && s.read < |s.replies| && s.calls == calls + 1
      modifies this`seqNo, this`calls
      ensures Valid() && calls == s.calls
      ensures Age(s) % SEQ_LIMIT != 0 <==> r == Err(SeqMismatch)
      ensures Age(s) == 0 ==> r == Ok(ArmOf(request)) || (r.Err? && r.error.Remote?)
      ensures Keeps(run, NeverGivesUp) ==> Age(s) == 0
    {
      r := Call(request, Replied(s.replies[s.read].response));
      TypedCallsSucceedOrAreRefused(run);
      if Keeps(run, NeverGivesUp) {
        PatientClient(run);
      }
    }
  }

  /** What remains of the plugin process as the C++ client sees it. */
  datatype Child = Running | Reaped | Killed

  class CppClient {
    var seqNo: nat
    var pid: int
    var stdinOpen: bool
    var child: Child
    ghost var calls: nat

    ghost predicate Valid()
      reads this
    {
      seqNo == calls % 0x1_0000_0000 && (stdinOpen ==> pid > 0)
    }

    constructor Launched(pid: int)
      requires pid > 0
      ensures Valid() && this.pid == pid && stdinOpen && calls == 0 && child == Running
    {
      this.pid, stdinOpen, seqNo, child, calls := pid, true, 0, Running, 0;
    }

    method Request(exchange: Exchange) returns (r: Result<Arm, ClientError>)
      requires Valid()
      modifies this`seqNo, this`calls
      ensures Valid() && calls == old(calls) + 1 && r == Outcome(calls % SEQ_LIMIT, exchange)
    {
      WrapOnce(calls);
      calls := calls + 1;
      seqNo := (seqNo + 1) % SEQ_LIMIT;
      var sent := seqNo;
      if !exchange.Replied? {
        return Err(Transport);
      }
      var response := exchange.response;
      if response.seqNo != sent {
        return Err(SeqMismatch);
      }
      if response.error.Some? {
        return Err(Remote(response.error.value));
      }
      if response.result.None? {
        return Err(EmptyReply);
      }
      return Ok(response.result.value);
    }

    method Call(request: Request, exchange: Exchange) returns (r: Result<Arm, ClientError>)
      requires Valid()
      modifies this`seqNo, this`calls
      ensures Valid() && calls == old(calls) + 1 && r == TypedOutcome(request, calls % SEQ_LIMIT, exchange)
      ensures r.Ok? <==> exchange == Replied(Response(calls % SEQ_LIMIT, None, Some(ArmOf(request))))
      ensures r.Ok? ==> r.value == ArmOf(request)
      ensures r == Err(Transport) <==> !exchange.Replied?
      ensures r == Err(SeqMismatch) <==> exchange.Replied? && exchange.response.seqNo != calls % SEQ_LIMIT
      ensures exchange.Replied? && exchange.response.seqNo == calls % 0x1_0000_0000 ==>
                match (exchange.response.error, exchange.response.result)
                case (Some(why), _) => r == Err(Remote(why))
                case (None, None) => r == Err(EmptyReply)
                case (None, Some(arm)) => arm != ArmOf(request) ==> r == Err(WrongArm(arm))
    {
      r := Request(exchange);
      if r.Ok? && r.value != ArmOf(request) {
        return Err(WrongArm(r.value));
      }
    }

    method Terminate()
      modifies this`pid, this`stdinOpen, this`child
      ensures pid <= 0 && !stdinOpen
      ensures child == if old(pid) > 0 then Killed else old(child)
      ensures old(pid) <= 0 ==> pid == old(pid)
    {
      stdinOpen := false;
      if pid > 0 {
        child := Killed;
        pid := -1;
      }
    }

    /**
     * Whatever the plugin answers, afterwards the process is gone and its stdin closed: reaped if it
     * accepted, killed if it did not. A second call does nothing, not even send.
     */
    method Shutdown(exchange: Exchange) returns (r: Result<(), ClientError>)
      requires Valid()
      modifies this
      ensures Valid() && pid <= 0 && !stdinOpen
      ensures old(pid) <= 0 ==> r == Ok(()) && calls == old(calls) && child == old(child)
      ensures old(pid) > 0 ==>
                var outcome := TypedOutcome(Protocol.Request.Shutdown, calls % SEQ_LIMIT, exchange);
                && calls == old(calls) + 1
                && (outcome.Ok? ==> r == Ok(()) && child == Reaped)
                && (outcome.Err? ==> r == Err(outcome.error) && child == Killed)
      ensures old(pid) > 0 ==>
                && (r.Ok? <==> exchange == Replied(Response(calls % SEQ_LIMIT, None, Some(ShutdownDone))))
                && child == if r.Ok? then Reaped else Killed
    {
      if pid <= 0 {
        return Ok(());
      }
      var reply := Call(Protocol.Request.Shutdown, exchange);
      if reply.Err? {
        Terminate();
        return Err(reply.error);
      }
      stdinOpen := false;
      child := Reaped;
      pid := -1;
      return Ok(());
    }
  }

  // ---------- The command line a plugin is launched with ----------

  datatype LaunchError = EmptyArgv

  function Appended(device: string, control: string, events: string): seq<string> {
    ["--device", device, "--control", control, "--events", events]
  }

  /**
   * The plugin gets the frontend's own argv first, and its own parser finds the three strings after it,
   * whatever characters they contain. If the frontend's argv already sets some of the flags, the appended
   * ones win.
   */
  method LaunchArgv(argv: seq<string>, device: string, control: string, events: string)
    returns (r: Result<seq<string>, LaunchError>)
    ensures r == Err(EmptyArgv) <==> argv == []
    ensures r.Ok? ==> argv <= r.value && |r.value| == |argv| + 6
    ensures r.Ok? ==> Args.Parse(r.value[|argv|..]) == Ok(Args.Args(device, control, events))
    ensures r.Ok? ==> forall settings | Args.Print(settings) == argv[1..] ::
                        Args.Parse(r.value[1..]) == Ok(Args.Args(device, control, events))
  {
    if argv == [] {
      return Err(EmptyArgv);
    }
    var full := argv + ["--device", device];
    full := full + ["--control", control];
    full := full + ["--events", events];
    ghost var appended := Appended(device, control, events);
    assert full == argv + appended && full[|argv|..] == appended && full[1..] == argv[1..] + appended;
    ArgvRoundTrip([], device, control, events);
    assert Args.Print([]) + appended == appended;
    forall settings | Args.Print(settings) == argv[1..]
      ensures Args.Parse(full[1..]) == Ok(Args.Args(device, control, events))
    {
      ArgvRoundTrip(settings, device, control, events);
    }
    return Ok(full);
  }

  /** The three strings a plugin is launched with. */
  function Launched(device: string, control: string, events: string): seq<Args.Setting> {
    [Args.Setting(Args.Device, device, false), Args.Setting(Args.Control, control, false),
     Args.Setting(Args.Events, events, false)]
  }

  /** A plugin recovers the three strings it was launched with, whatever stands before them. */
  lemma ArgvRoundTrip(settings: seq<Args.Setting>, device: string, control: string, events: string)
    ensures Args.Parse(Args.Print(settings) + Appended(device, control, events)) ==
            Ok(Args.Args(device, control, events))
  {
    var last := Launched(device, control, events);
    PrintThree(last[0], last[1], last[2]);
    PrintAppend(settings, last);
    Args.ParsePrint(settings + last);
    LastOfThree(settings, last[0], last[1], last[2]);
  }

  lemma {:induction false} PrintAppend(a: seq<Args.Setting>, b: seq<Args.Setting>)
    ensures Args.Print(a + b) == Args.Print(a) + Args.Print(b)
    decreases |a|
  {
    if a == [] {
      assert a + b == b;
    } else {
      assert a + b == [a[0]] + (a[1..] + b) && a == [a[0]] + a[1..];
      Args.PrintCons(a[0], a[1..] + b);
      Args.PrintCons(a[0], a[1..]);
      PrintAppend(a[1..], b);
    }
  }

  lemma LastOfSnoc(settings: seq<Args.Setting>, s: Args.Setting, flag: Args.Flag)
    ensures Args.LastOf(settings + [s], flag) == if s.flag == flag then Some(s.value) else Args.LastOf(settings, flag)
  {
    assert (settings + [s])[..|settings|] == settings;
  }

  lemma LastOfThree(settings: seq<Args.Setting>, d: Args.Setting, c: Args.Setting, e: Args.Setting)
    requires d.flag.Device? && c.flag.Control? && e.flag.Events?
    ensures Args.LastOf(settings + [d, c, e], Args.Device) == Some(d.value)
    ensures Args.LastOf(settings + [d, c, e], Args.Control) == Some(c.value)
    ensures Args.LastOf(settings + [d, c, e], Args.Events) == Some(e.value)
  {
    assert settings + [d, c, e] == settings + [d] + [c] + [e];
    LastOfSnoc(settings, d, Args.Device);
    LastOfSnoc(settings + [d], c, Args.Device);
    LastOfSnoc(settings + [d], c, Args.Control);
    LastOfSnoc(settings + [d] + [c], e, Args.Device);
    LastOfSnoc(settings + [d] + [c], e, Args.Control);
    LastOfSnoc(settings + [d] + [c], e, Args.Events);
  }

  lemma PrintThree(d: Args.Setting, c: Args.Setting, e: Args.Setting)
    requires !d.inline && !c.inline && !e.inline
    ensures Args.Print([d, c, e]) ==
            [Args.Name(d.flag), d.value, Args.Name(c.flag), c.value, Args.Name(e.flag), e.value]
  {
    assert [d, c, e][1..] == [c, e] && [c, e][1..] == [e] && [e][1..] == [];
    assert Args.Print([e]) == [Args.Name(e.flag), e.value];
    assert Args.Print([c, e]) == [Args.Name(c.flag), c.value, Args.Name(e.flag), e.value];
  }
}
