/** Requests, replies, and what a client makes of a reply. */
module Protocol {
  import opened Wrappers

  datatype Request =
    | Hello
    | Describe
    | GetConfig
    | SetConfig
    | AcquireStart(captureId: nat)
    | AcquireStop
    | Reset
    | Shutdown

  /** The result arm of a reply, without its contents. */
  datatype Arm =
    | HelloResult
    | Description
    | GetConfigResult
    | SetConfigResult
    | AcquireStartDone
    | AcquireStopDone
    | ResetDone
    | ShutdownDone

  /** Every request has exactly one legal reply arm. */
  function ArmOf(request: Request): Arm {
    match request
    case Hello => HelloResult
    case Describe => Description
    case GetConfig => GetConfigResult
    case SetConfig => SetConfigResult
    case AcquireStart(_) => AcquireStartDone
    case AcquireStop => AcquireStopDone
    case Reset => ResetDone
    case Shutdown => ShutdownDone
  }

  /** `Plugin` stands for whatever error a plugin's own handler returned. */
  datatype Refusal = Invalid | Busy | Plugin

  datatype Response = Response(seqNo: nat, error: Option<Refusal>, result: Option<Arm>)

  function Accept(seqNo: nat, request: Request): Response {
    Response(seqNo, None, Some(ArmOf(request)))
  }

  function Refuse(seqNo: nat, why: Refusal): Response {
    Response(seqNo, Some(why), None)
  }

  /** A message on the control socket; one that cannot be decoded carries nothing. */
  datatype Inbound = Undecodable | Message(seqNo: nat, request: Option<Request>)

  const SEQ_LIMIT: nat := 0x1_0000_0000

  /** Request numbers are 32 bits wide and wrap. */
  function NextSeq(seqNo: nat): nat {
    (seqNo + 1) % SEQ_LIMIT
  }

  lemma WrapOnce(n: nat)
    ensures NextSeq(n % SEQ_LIMIT) == (n + 1) % SEQ_LIMIT
  {
  }

  /** Two calls have the same number exactly if a multiple of 2^32 calls lies between them. */
  lemma SameNumber(earlier: nat, later: nat)
    requires earlier <= later
    ensures earlier % SEQ_LIMIT == later % SEQ_LIMIT <==> (later - earlier) % SEQ_LIMIT == 0
  {
  }

  datatype ClientError = Transport | SeqMismatch | Remote(why: Refusal) | EmptyReply | WrongArm(got: Arm)

  /** The checks on any reply, in order. */
  function Judge(seqNo: nat, response: Response): Result<Arm, ClientError> {
    if response.seqNo != seqNo then Err(SeqMismatch)
    else if response.error.Some? then Err(Remote(response.error.value))
    else if response.result.Some? then Ok(response.result.value)
    else Err(EmptyReply)
  }

  /** The checks of the typed call for `request`. */
  function JudgeTyped(request: Request, seqNo: nat, response: Response): Result<Arm, ClientError> {
    match Judge(seqNo, response)
    case Err(e) => Err(e)
    case Ok(arm) => if arm == ArmOf(request) then Ok(arm) else Err(WrongArm(arm))
  }
}
