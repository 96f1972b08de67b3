/**
 * Any number of senders pushing onto one wire, their pushes interleaved in any order and failing at
 * any point, and the receiver that takes each stream out of the mixture again.
 */
module StreamRuns {
  import opened Wrappers
  import opened ByteStrings
  import opened Payload
  import opened Chunking

  datatype Key = Key(captureId: nat, acquisition: nat, stream: nat)

  function KeyOf(data: CaptureData): Key {
    Key(data.captureId, data.acquisition, data.stream)
  }

  function SenderKey(sender: Sender): Key {
    Key(sender.captureId, sender.acquisition, sender.stream)
  }

  /** `pending` is what the call a sender is in has not pushed yet; it is empty between calls. */
  datatype State = State(senders: map<Key, Sender>, pending: map<Key, Bytes>, wire: seq<CaptureData>)

  datatype Action =
    | Call(key: Key, packed: Bytes)
    | PushChunk(key: Key)
    | Fail(key: Key)
    | Transition(key: Key)
    | Foreign(data: CaptureData)

  /** Fresh senders, each under its own key. */
  predicate Init(s: State) {
    && s.pending.Keys == s.senders.Keys
    && s.wire == []
    && forall k | k in s.senders ::
         && s.senders[k].Chunkable() && SenderKey(s.senders[k]) == k
         && s.senders[k].seqNo == 0 && s.senders[k].firstSample == 0
         && s.pending[k] == []
  }

  predicate Enabled(s: State, a: Action) {
    match a
    case Call(k, packed) =>
      && k in s.senders && k in s.pending && s.senders[k].Chunkable()
      && s.pending[k] == []
    case PushChunk(k) => k in s.senders && k in s.pending && s.senders[k].Chunkable() && s.pending[k] != []
    case Fail(k) => k in s.senders && k in s.pending && s.pending[k] != []
    case Transition(k) => k in s.senders && k in s.pending && s.pending[k] == []
    case Foreign(data) => KeyOf(data) !in s.senders
  }

  function Apply(s: State, a: Action): State
    requires Enabled(s, a)
  {
    match a
    case Call(k, packed) => s.(pending := s.pending[k := packed])
    case PushChunk(k) =>
      var part := Head(s.pending[k], s.senders[k].unitsize);
      s.(senders := s.senders[k := Advance(s.senders[k], part)],
         pending := s.pending[k := s.pending[k][|part|..]],
         wire := s.wire + [Chunk(s.senders[k], part)])
    case Fail(k) => s.(pending := s.pending[k := []])
    case Transition(k) => s.(senders := s.senders[k := s.senders[k].(encoding := ENCODING_TRANSITION)])
    case Foreign(data) => s.(wire := s.wire + [data])
  }

  /** The state after a run, if every action of it was possible when its turn came. */
  function After(s: State, run: seq<Action>): Option<State>
    decreases |run|
  {
    if run == [] then Some(s) else
      var before := After(s, run[..|run| - 1]);
      if before.Some? && Enabled(before.value, run[|run| - 1]) then Some(Apply(before.value, run[|run| - 1]))
      else None
  }

  function ByKey(wire: seq<CaptureData>, key: Key): seq<CaptureData> {
    if wire == [] then [] else
      var last := wire[|wire| - 1];
      ByKey(wire[..|wire| - 1], key) + if KeyOf(last) == key then [last] else []
  }

  lemma ByKeySnoc(wire: seq<CaptureData>, data: CaptureData, key: Key)
    ensures ByKey(wire + [data], key) == ByKey(wire, key) + if KeyOf(data) == key then [data] else []
  {
    assert (wire + [data])[..|wire|] == wire;
  }

  /** What a receiver of this stream has after draining everything on the wire so far. */
  function Received(s: State, key: Key): Result<Receiver, DrainError>
    requires key in s.senders
  {
    Drain(ByKey(s.wire, key), s.senders[key].unitsize)
  }

  /** The receiver accepts the stream and stands exactly where the sender's counters say. */
  predicate InStep(s: State, key: Key) {
    && key in s.senders && key in s.pending
    && s.senders[key].Chunkable() && SenderKey(s.senders[key]) == key
    && Received(s, key).Ok?
    && Received(s, key).value.seqNo == s.senders[key].seqNo
    && Received(s, key).value.firstSample == s.senders[key].firstSample
  }

  /** What the sender's present encoding keeps of a buffer. */
  function KeptBy(sender: Sender, packed: Bytes): Bytes
    requires sender.Valid()
  {
    Kept(sender.encoding, sender.unitsize, packed)
  }

  /** Samples received, and what will be received of the call under way. */
  function InFlight(s: State, key: Key): Bytes
    requires InStep(s, key)
  {
    Received(s, key).value.samples + KeptBy(s.senders[key], s.pending[key])
  }

  /** A sender never changes its sample size. */
  predicate SameFormat(s: State, s': State, key: Key) {
    key in s.senders && key in s'.senders && s'.senders[key].unitsize == s.senders[key].unitsize
  }

  lemma PushKeepsStep(s: State, key: Key)
    requires InStep(s, key) && Enabled(s, PushChunk(key))
    ensures InStep(Apply(s, PushChunk(key)), key)
    ensures InFlight(Apply(s, PushChunk(key)), key) == InFlight(s, key)
  {
    var sender, receiver := s.senders[key], Received(s, key).value;
    var part := Head(s.pending[key], sender.unitsize);
    PushReceives(s, key);
    HeadKeeps(sender.encoding, sender.unitsize, s.pending[key]);
    Assoc(receiver.samples, KeptBy(sender, part), KeptBy(sender, s.pending[key][|part|..]));
  }

  /** What a push does for the receiver of the stream. */
  lemma PushReceives(s: State, key: Key)
    requires InStep(s, key) && Enabled(s, PushChunk(key))
    ensures var sender, receiver := s.senders[key], Received(s, key).value;
            var part := Head(s.pending[key], sender.unitsize);
            Received(Apply(s, PushChunk(key)), key) ==
            Ok(Receiver(Advance(sender, part).seqNo, Advance(sender, part).firstSample,
                        receiver.samples + KeptBy(sender, part)))
  {
    var sender := s.senders[key];
    var part := Head(s.pending[key], sender.unitsize);
    ByKeySnoc(s.wire, Chunk(sender, part), key);
    DrainSnoc(ByKey(s.wire, key), Chunk(sender, part), sender.unitsize);
    ReceiveChunk(Received(s, key).value, sender, part);
  }

  lemma ForeignKeepsStep(s: State, key: Key, data: CaptureData, s': State)
    requires InStep(s, key) && KeyOf(data) != key
    requires s'.wire == s.wire + [data] && key in s'.senders && key in s'.pending
    requires s'.senders[key] == s.senders[key] && s'.pending[key] == s.pending[key]
    ensures InStep(s', key) && InFlight(s', key) == InFlight(s, key)
  {
    ByKeySnoc(s.wire, data, key);
    assert ByKey(s.wire, key) + [] == ByKey(s.wire, key);
  }

  lemma KeptOfNothing(sender: Sender, samples: Bytes)
    requires sender.Valid()
    ensures KeptBy(sender, []) == [] && samples + KeptBy(sender, []) == samples
  {
    AlignedEmpty(sender.unitsize);
  }

  predicate KeysMatch(s: State) {
    forall k | k in s.senders :: SenderKey(s.senders[k]) == k
  }

  /** Calls, failures and a switch of the encoding touch neither the wire nor the counters. */
  lemma PendingKeepsStep(s: State, a: Action, key: Key)
    requires InStep(s, key) && Enabled(s, a) && (a.Call? || a.Fail? || a.Transition?)
    ensures InStep(Apply(s, a), key)
    ensures InFlight(Apply(s, a), key) ==
            if a.Call? && a.key == key then Received(s, key).value.samples + KeptBy(s.senders[key], a.packed)
            else if a == Fail(key) then Received(s, key).value.samples
            else InFlight(s, key)
  {
    var next := Apply(s, a);
    assert Received(next, key) == Received(s, key);
    if a == Fail(key) || a == Transition(key) {
      KeptOfNothing(s.senders[key], Received(s, key).value.samples);
      KeptOfNothing(next.senders[key], Received(s, key).value.samples);
    }
  }

  lemma FormatKept(s: State, a: Action, key: Key)
    requires key in s.senders && Enabled(s, a) && KeysMatch(s)
    ensures SameFormat(s, Apply(s, a), key) && KeysMatch(Apply(s, a))
  {
  }

  /** Whatever any thread does next, the stream stays in step; only calls and failures change what is in flight. */
  lemma StepKeepsStep(s: State, a: Action, key: Key)
    requires InStep(s, key) && Enabled(s, a) && KeysMatch(s)
    ensures InStep(Apply(s, a), key) && SameFormat(s, Apply(s, a), key) && KeysMatch(Apply(s, a))
    ensures InFlight(Apply(s, a), key) ==
            if a.Call? && a.key == key then Received(s, key).value.samples + KeptBy(s.senders[key], a.packed)
            else if a == Fail(key) then Received(s, key).value.samples
            else InFlight(s, key)
  {
    FormatKept(s, a, key);
    if a.Call? || a.Fail? || a.Transition? {
      PendingKeepsStep(s, a, key);
    } else if a.Foreign? {
      ForeignKeepsStep(s, key, a.data, Apply(s, a));
    } else if a.key == key {
      PushKeepsStep(s, key);
    } else {
      ForeignKeepsStep(s, key, Chunk(s.senders[a.key], Head(s.pending[a.key], s.senders[a.key].unitsize)), Apply(s, a));
    }
  }

  predicate Calls(s: State, a: Action, key: Key) {
    a.Call? && a.key == key && Enabled(s, a)
  }

  /** What is kept of everything the calls on one stream were given, in order, each in its time's encoding. */
  function Inputs(s0: State, run: seq<Action>, key: Key): Bytes
    decreases |run|
  {
    if run == [] then [] else
      var earlier, a := run[..|run| - 1], run[|run| - 1];
      var before := After(s0, earlier);
      Inputs(s0, earlier, key) +
      if before.Some? && Calls(before.value, a, key) then KeptBy(before.value.senders[key], a.packed) else []
  }

  lemma {:induction false} RunKeepsStep(s0: State, run: seq<Action>, key: Key)
    requires Init(s0) && key in s0.senders && After(s0, run).Some?
    ensures var s := After(s0, run).value; InStep(s, key) && SameFormat(s0, s, key) && KeysMatch(s)
    decreases |run|
  {
    if run != [] {
      RunKeepsStep(s0, run[..|run| - 1], key);
      StepKeepsStep(After(s0, run[..|run| - 1]).value, run[|run| - 1], key);
    }
  }

  /**
   * End to end: whatever the interleaving, if no push of this stream failed, the receiver has exactly
   * what is kept of the buffers handed to `send`, but for those a call still under way has not pushed.
   * Its labels run 0, 1, 2, ... with no gap. The sender may switch to run-length at any time.
   */
  lemma {:induction false} StreamFidelity(s0: State, run: seq<Action>, key: Key)
    requires Init(s0) && key in s0.senders && After(s0, run).Some? && Fail(key) !in run
    ensures var s := After(s0, run).value;
            && InStep(s, key)
            && InFlight(s, key) == Inputs(s0, run, key)
            && forall i | 0 <= i < |ByKey(s.wire, key)| ::
                 && ByKey(s.wire, key)[i].seqNo == i
                 && ByKey(s.wire, key)[i].firstSample == SampleSum(ByKey(s.wire, key)[..i])
    decreases |run|
  {
    var s := After(s0, run).value;
    RunKeepsStep(s0, run, key);
    DrainMeans(ByKey(s.wire, key), s.senders[key].unitsize);
    if run == [] {
      KeptOfNothing(s0.senders[key], []);
    } else {
      var earlier, a := run[..|run| - 1], run[|run| - 1];
      var before := After(s0, earlier).value;
      StreamFidelity(s0, earlier, key);
      RunKeepsStep(s0, earlier, key);
      StepKeepsStep(before, a, key);
      assert Inputs(s0, earlier, key) + [] == Inputs(s0, earlier, key);
      if a.Call? && a.key == key {
        KeptOfNothing(before.senders[key], Received(before, key).value.samples);
      }
    }
  }

  /** A sender is packed or run-length from the start, and run-length for good once it was switched. */
  lemma {:induction false} SwitchIsForGood(s0: State, run: seq<Action>, key: Key)
    requires Init(s0) && key in s0.senders && After(s0, run).Some?
    ensures var s := After(s0, run).value;
            && key in s.senders
            && s.senders[key].encoding ==
               if Transition(key) in run then ENCODING_TRANSITION else s0.senders[key].encoding
    decreases |run|
  {
    if run != [] {
      var earlier, a := run[..|run| - 1], run[|run| - 1];
      SwitchIsForGood(s0, earlier, key);
      assert run == earlier + [a];
    }
  }

  // ---------- When nothing of the buffers is lost ----------

  /** Every step of the run is one the rule allows for this stream in the state it was taken in. */
  predicate Keeps(s0: State, run: seq<Action>, key: Key, rule: (State, Action, Key) -> bool)
    decreases |run|
  {
    run == [] ||
    var earlier := run[..|run| - 1];
    && Keeps(s0, earlier, key, rule)
    && (After(s0, earlier).Some? ==> rule(After(s0, earlier).value, run[|run| - 1], key))
  }

  /** Everything the calls on one stream were given, in order. */
  function RawInputs(run: seq<Action>, key: Key): Bytes {
    if run == [] then [] else
      var last := run[|run| - 1];
      RawInputs(run[..|run| - 1], key) + if last.Call? && last.key == key then last.packed else []
  }

  /** The buffer handed to a call is packed or ends on a whole sample. */
  predicate LosesNothing(s: State, a: Action, key: Key) {
    Calls(s, a, key) ==>
      s.senders[key].encoding == ENCODING_PACKED || Aligned(a.packed, s.senders[key].unitsize)
  }

  lemma KeptLength(sender: Sender, packed: Bytes)
    requires sender.Valid()
    ensures |KeptBy(sender, packed)| <= |packed|
    ensures |KeptBy(sender, packed)| == |packed| <==>
            sender.encoding == ENCODING_PACKED || Aligned(packed, sender.unitsize)
    ensures |KeptBy(sender, packed)| == |packed| ==> KeptBy(sender, packed) == packed
  {
    WholeIsPrefix(packed, sender.unitsize);
  }

  /** What is kept of the buffers is all of them, byte for byte, exactly if no call loses a partial sample. */
  lemma {:induction false} InputsAreRaw(s0: State, run: seq<Action>, key: Key)
    requires Init(s0) && key in s0.senders && After(s0, run).Some?
    ensures |Inputs(s0, run, key)| <= |RawInputs(run, key)|
    ensures Inputs(s0, run, key) == RawInputs(run, key) <==> Keeps(s0, run, key, LosesNothing)
    ensures |Inputs(s0, run, key)| == |RawInputs(run, key)| ==> Inputs(s0, run, key) == RawInputs(run, key)
    decreases |run|
  {
    if run != [] {
      var earlier, a := run[..|run| - 1], run[|run| - 1];
      InputsAreRaw(s0, earlier, key);
      RunKeepsStep(s0, earlier, key);
      if a.Call? && a.key == key {
        KeptLength(After(s0, earlier).value.senders[key], a.packed);
      }
    }
  }

  // ---------- What the sample counter measures ----------

  /** The sample counter counts every byte kept of the buffer. */
  predicate Measured(sender: Sender, packed: Bytes)
    requires sender.Valid()
  {
    sender.encoding == ENCODING_TRANSITION || Aligned(packed, sender.unitsize)
  }

  lemma MeasuredMeans(sender: Sender, packed: Bytes)
    requires sender.Valid()
    ensures |KeptBy(sender, packed)| >= Offset(SampleCount(packed, sender.unitsize), sender.unitsize)
    ensures |KeptBy(sender, packed)| == Offset(SampleCount(packed, sender.unitsize), sender.unitsize) <==>
            Measured(sender, packed)
    ensures KeptBy(sender, packed) <= packed
  {
    WholeIsPrefix(packed, sender.unitsize);
    AlignedJoins(packed, sender.unitsize);
  }

  /** The part that is pushed is run-length or ends on a whole sample. */
  predicate MeasuresParts(s: State, a: Action, key: Key) {
    a == PushChunk(key) && Enabled(s, a) ==>
      Measured(s.senders[key], Head(s.pending[key], s.senders[key].unitsize))
  }

  /** How far a stream's sample counter says its samples reach. */
  function Counted(s: State, key: Key): nat
    requires key in s.senders
  {
    Offset(s.senders[key].firstSample, s.senders[key].unitsize)
  }

  lemma OthersKeepReceived(s: State, a: Action, key: Key)
    requires InStep(s, key) && Enabled(s, a) && a != PushChunk(key)
    requires a.PushChunk? ==> SenderKey(s.senders[a.key]) == a.key
    ensures key in Apply(s, a).senders && Received(Apply(s, a), key) == Received(s, key)
    ensures Counted(Apply(s, a), key) == Counted(s, key)
  {
    if a.PushChunk? {
      ByKeySnoc(s.wire, Chunk(s.senders[a.key], Head(s.pending[a.key], s.senders[a.key].unitsize)), key);
    } else if a.Foreign? {
      ByKeySnoc(s.wire, a.data, key);
    }
    assert ByKey(s.wire, key) + [] == ByKey(s.wire, key);
  }

  /** A push adds what is kept of a part to what is received, and the part's samples to the counter. */
  lemma PushAdds(s: State, key: Key)
    requires InStep(s, key) && Enabled(s, PushChunk(key))
    ensures var sender, next := s.senders[key], Apply(s, PushChunk(key));
            var part := Head(s.pending[key], sender.unitsize);
            && InStep(next, key)
            && |Received(next, key).value.samples| == |Received(s, key).value.samples| + |KeptBy(sender, part)|
            && Counted(next, key) == Counted(s, key) + Offset(SampleCount(part, sender.unitsize), sender.unitsize)
  {
    var sender := s.senders[key];
    var part := Head(s.pending[key], sender.unitsize);
    PushKeepsStep(s, key);
    PushReceives(s, key);
    OffsetAdd(sender.firstSample, SampleCount(part, sender.unitsize), sender.unitsize);
  }

  /** By how much the receiver is ahead of the counter. */
  function Ahead(s: State, key: Key): int
    requires InStep(s, key)
  {
    |Received(s, key).value.samples| - Counted(s, key)
  }

  lemma PushCounts(s: State, key: Key)
    requires InStep(s, key) && Enabled(s, PushChunk(key))
    ensures var next := Apply(s, PushChunk(key));
            && InStep(next, key) && Ahead(next, key) >= Ahead(s, key)
            && (Ahead(next, key) == Ahead(s, key) <==> MeasuresParts(s, PushChunk(key), key))
  {
    PushAdds(s, key);
    MeasuredMeans(s.senders[key], Head(s.pending[key], s.senders[key].unitsize));
  }

  /**
   * The counter never runs ahead of what was received, and it measures all of it exactly if every part
   * pushed so far was run-length or ended on a whole sample.
   */
  lemma {:induction false} CounterMeasures(s0: State, run: seq<Action>, key: Key)
    requires Init(s0) && key in s0.senders && After(s0, run).Some?
    ensures var s := After(s0, run).value;
            && InStep(s, key) && Ahead(s, key) >= 0
            && (Ahead(s, key) == 0 <==> Keeps(s0, run, key, MeasuresParts))
    decreases |run|
  {
    RunKeepsStep(s0, run, key);
    if run != [] {
      var earlier, a := run[..|run| - 1], run[|run| - 1];
      var before := After(s0, earlier).value;
      CounterMeasures(s0, earlier, key);
      RunKeepsStep(s0, earlier, key);
      if a == PushChunk(key) {
        PushCounts(before, key);
      } else {
        OthersKeepReceived(before, a, key);
      }
    }
  }

  predicate MeasuresCalls(s: State, a: Action, key: Key) {
    Calls(s, a, key) ==> Measured(s.senders[key], a.packed)
  }

  lemma MeasuredStep(s: State, a: Action, key: Key)
    requires key in s.senders && key in s.pending && s.senders[key].Chunkable() && Enabled(s, a)
    requires Measured(s.senders[key], s.pending[key]) && MeasuresCalls(s, a, key)
    ensures var next := Apply(s, a);
            && MeasuresParts(s, a, key)
            && key in next.senders && key in next.pending && next.senders[key].Chunkable()
            && Measured(next.senders[key], next.pending[key])
  {
    AlignedEmpty(s.senders[key].unitsize);
    HeadKeeps(s.senders[key].encoding, s.senders[key].unitsize, s.pending[key]);
  }

  /** It is enough that every call was: cutting a buffer adds no partial samples. */
  lemma {:induction false} CallsMeasureParts(s0: State, run: seq<Action>, key: Key)
    requires Init(s0) && key in s0.senders && After(s0, run).Some? && Keeps(s0, run, key, MeasuresCalls)
    ensures Keeps(s0, run, key, MeasuresParts)
    ensures var s := After(s0, run).value;
            && key in s.senders && key in s.pending && s.senders[key].Chunkable()
            && Measured(s.senders[key], s.pending[key])
    decreases |run|
  {
    if run == [] {
      AlignedEmpty(s0.senders[key].unitsize);
    } else {
      CallsMeasureParts(s0, run[..|run| - 1], key);
      MeasuredStep(After(s0, run[..|run| - 1]).value, run[|run| - 1], key);
    }
  }

  // ---------- Resuming after failures ----------

  /** Every call is given the part of `source` that starts at the sender's own sample counter. */
  predicate ResumesFrom(s0: State, run: seq<Action>, key: Key, source: Bytes)
    decreases |run|
  {
    run == [] ||
    var earlier, a := run[..|run| - 1], run[|run| - 1];
    && ResumesFrom(s0, earlier, key, source)
    && var before := After(s0, earlier);
       before.Some? && Calls(before.value, a, key) ==>
         var at := Counted(before.value, key);
         at + |a.packed| <= |source| && a.packed == source[at..at + |a.packed|]
  }

  lemma {:induction false} ResumeKeepsPrefix(s0: State, run: seq<Action>, key: Key, source: Bytes)
    requires Init(s0) && key in s0.senders && After(s0, run).Some? && ResumesFrom(s0, run, key, source)
    requires Keeps(s0, run, key, MeasuresParts)
    ensures InStep(After(s0, run).value, key) && InFlight(After(s0, run).value, key) <= source
    decreases |run|
  {
    RunKeepsStep(s0, run, key);
    if run == [] {
      KeptOfNothing(s0.senders[key], []);
    } else {
      var earlier, a := run[..|run| - 1], run[|run| - 1];
      var before := After(s0, earlier).value;
      ResumeKeepsPrefix(s0, earlier, key, source);
      CounterMeasures(s0, earlier, key);
      RunKeepsStep(s0, earlier, key);
      StepKeepsStep(before, a, key);
      var received := Received(before, key).value.samples;
      PrefixOfWhole(received, KeptBy(before.senders[key], before.pending[key]), source);
      if a.Call? && a.key == key {
        MeasuredMeans(before.senders[key], a.packed);
        SliceExtends(received, a.packed, source);
        PrefixExtends(received, KeptBy(before.senders[key], a.packed), a.packed, source);
      }
    }
  }

  /**
   * Failures at any points are harmless to a plugin that goes on from the sender's sample counter: the
   * receiver has a gap-free prefix of the source, as long as the counter says, exactly if every part
   * pushed so far was run-length or ended on a whole sample.
   */
  lemma ResumeAfterFailure(s0: State, run: seq<Action>, key: Key, source: Bytes)
    requires Init(s0) && key in s0.senders && After(s0, run).Some? && ResumesFrom(s0, run, key, source)
    ensures var s := After(s0, run).value;
            && InStep(s, key)
            && s.senders[key].seqNo == |ByKey(s.wire, key)|
            && var n := s.senders[key].firstSample * s.senders[key].unitsize;
               Keeps(s0, run, key, MeasuresParts) <==> n <= |source| && Received(s, key).value.samples == source[..n]
  {
    var s := After(s0, run).value;
    CounterMeasures(s0, run, key);
    if Keeps(s0, run, key, MeasuresParts) {
      ResumeKeepsPrefix(s0, run, key, source);
      PrefixOfWhole(Received(s, key).value.samples, KeptBy(s.senders[key], s.pending[key]), source);
    }
    OffsetIsProduct(s.senders[key].firstSample, s.senders[key].unitsize);
    DrainMeans(ByKey(s.wire, key), s.senders[key].unitsize);
  }

  lemma PrefixOfWhole(a: Bytes, b: Bytes, source: Bytes)
    requires a + b <= source
    ensures a <= source && a == source[..|a|]
  {
  }

  lemma PrefixExtends(a: Bytes, b: Bytes, c: Bytes, source: Bytes)
    requires a + c <= source && b <= c
    ensures a + b <= source
  {
  }

  lemma SliceExtends(a: Bytes, b: Bytes, source: Bytes)
    requires a <= source && |a| + |b| <= |source| && b == source[|a|..|a| + |b|]
    ensures a + b <= source
  {
  }

  // ---------- A packed buffer that ends inside a sample ----------

  lemma AfterSnoc(s: State, run: seq<Action>, a: Action)
    requires After(s, run).Some? && Enabled(After(s, run).value, a)
    ensures After(s, run + [a]) == Some(Apply(After(s, run).value, a))
  {
    assert (run + [a])[..|run|] == run;
  }

  lemma ResumesSnoc(s0: State, run: seq<Action>, a: Action, key: Key, source: Bytes)
    requires After(s0, run).Some? && ResumesFrom(s0, run, key, source)
    requires var s := After(s0, run).value;
             Calls(s, a, key) ==>
               var at := Counted(s, key);
               at + |a.packed| <= |source| && a.packed == source[at..at + |a.packed|]
    ensures ResumesFrom(s0, run + [a], key, source)
  {
    assert (run + [a])[..|run|] == run;
  }

  /** A run goes on with a call whose buffer is one part, taken from the source where the counter stands. */
  lemma OneMoreCall(s0: State, run: seq<Action>, s: State, key: Key, packed: Bytes, source: Bytes)
    returns (longer: seq<Action>, next: State)
    requires After(s0, run) == Some(s) && ResumesFrom(s0, run, key, source)
    requires InStep(s, key) && s.pending[key] == []
    requires 0 < |packed| <= ChunkSize(s.senders[key].unitsize)
    requires Counted(s, key) + |packed| <= |source|
    requires packed == source[Counted(s, key)..Counted(s, key) + |packed|]
    ensures After(s0, longer) == Some(next) && ResumesFrom(s0, longer, key, source)
    ensures InStep(next, key) && next.pending[key] == [] && next.senders[key] == Advance(s.senders[key], packed)
    ensures Received(next, key).value.samples == Received(s, key).value.samples + KeptBy(s.senders[key], packed)
  {
    var asked := Apply(s, Call(key, packed));
    AfterSnoc(s0, run, Call(key, packed));
    ResumesSnoc(s0, run, Call(key, packed), key, source);
    PendingKeepsStep(s, Call(key, packed), key);
    assert asked.pending[key] == packed && Received(asked, key) == Received(s, key);
    assert Head(packed, s.senders[key].unitsize) == packed && packed[|packed|..] == [];
    PushKeepsStep(asked, key);
    PushReceives(asked, key);
    AfterSnoc(s0, run + [Call(key, packed)], PushChunk(key));
    ResumesSnoc(s0, run + [Call(key, packed)], PushChunk(key), key, source);
    longer, next := run + [Call(key, packed)] + [PushChunk(key)], Apply(asked, PushChunk(key));
  }

  const TAIL_KEY := Key(1, 0, 0)
  const TAIL_START :=
    State(map[TAIL_KEY := Sender(1, 0, 0, 2, ENCODING_PACKED, 0, 0)], map[TAIL_KEY := []], [])

  /** Three bytes sent packed as samples of two: the receiver has all three, the counter says one sample. */
  lemma PackedTailUncounted() returns (run: seq<Action>, s: State)
    ensures After(TAIL_START, run) == Some(s) && ResumesFrom(TAIL_START, run, TAIL_KEY, [1, 2, 3])
    ensures InStep(s, TAIL_KEY) && s.pending[TAIL_KEY] == []
    ensures s.senders[TAIL_KEY] == Sender(1, 0, 0, 2, ENCODING_PACKED, 1, 1)
    ensures Received(s, TAIL_KEY).value.samples == [1, 2, 3]
  {
    var source: Bytes := [1, 2, 3];
    assert Init(TAIL_START);
    RunKeepsStep(TAIL_START, [], TAIL_KEY);
    ChunkSizeMeans(2);
    assert source == source[0..3];
    run, s := OneMoreCall(TAIL_START, [], TAIL_START, TAIL_KEY, source, source);
    SamplesCount(source, 2);
  }

  lemma PackedTailResumed() returns (run: seq<Action>, s: State)
    ensures After(TAIL_START, run) == Some(s) && ResumesFrom(TAIL_START, run, TAIL_KEY, [1, 2, 3])
    ensures InStep(s, TAIL_KEY) && s.senders[TAIL_KEY] == Sender(1, 0, 0, 2, ENCODING_PACKED, 2, 1)
    ensures Received(s, TAIL_KEY).value.samples == [1, 2, 3] + [3]
  {
    var source: Bytes := [1, 2, 3];
    run, s := PackedTailUncounted();
    ChunkSizeMeans(2);
    assert Offset(1, 2) == 2 + Offset(0, 2) && source[2..3] == [3];
    run, s := OneMoreCall(TAIL_START, run, s, TAIL_KEY, [3], source);
    SamplesCount([3], 2);
  }

  /** Going on from the counter sends the third byte again: what was received is no prefix of the source. */
  lemma PackedTailSentAgain()
    ensures Init(TAIL_START) && TAIL_KEY in TAIL_START.senders
    ensures exists run ::
              && After(TAIL_START, run).Some? && ResumesFrom(TAIL_START, run, TAIL_KEY, [1, 2, 3])
              && TAIL_KEY in After(TAIL_START, run).value.senders
              && Received(After(TAIL_START, run).value, TAIL_KEY) == Ok(Receiver(2, 1, [1, 2, 3, 3]))
  {
    var run, s := PackedTailResumed();
    assert [1, 2, 3] + [3] == [1, 2, 3, 3];
    assert After(TAIL_START, run).Some? && ResumesFrom(TAIL_START, run, TAIL_KEY, [1, 2, 3]);
  }

  // ---------- One call of the sender is a piece of such a run ----------

  function Pushes(key: Key, n: nat): seq<Action> {
    if n == 0 then [] else Pushes(key, n - 1) + [PushChunk(key)]
  }

  /** `t` is `s` after the first `n` parts of the call under way were pushed. */
  predicate HasPushed(s: State, t: State, key: Key, n: nat)
    requires key in s.senders && key in s.pending && s.senders[key].Chunkable()
    requires n <= |Parts(s.pending[key], s.senders[key].unitsize)|
  {
    var parts := Parts(s.pending[key], s.senders[key].unitsize);
    && key in t.senders && key in t.pending
    && t.senders[key] == AdvanceAll(s.senders[key], parts[..n])
    && t.wire == s.wire + Chunks(s.senders[key], parts[..n])
    && Parts(t.pending[key], s.senders[key].unitsize) == parts[n..]
  }

  /**
   * `StreamSender.Send` that pushes `n` parts does to its sender and to the wire what `n` pushes of the
   * interleaved model do.
   */
  lemma {:induction false} CallIsRun(s: State, key: Key, n: nat)
    requires key in s.senders && key in s.pending && s.senders[key].Chunkable()
    requires n <= |Parts(s.pending[key], s.senders[key].unitsize)|
    ensures After(s, Pushes(key, n)).Some? && HasPushed(s, After(s, Pushes(key, n)).value, key, n)
    decreases n
  {
    if n == 0 {
      NonePushed(s, key);
    } else {
      CallIsRun(s, key, n - 1);
      OneMore(s, After(s, Pushes(key, n - 1)).value, key, n);
      AfterSnoc(s, Pushes(key, n - 1), PushChunk(key));
    }
  }

  lemma NonePushed(s: State, key: Key)
    requires key in s.senders && key in s.pending && s.senders[key].Chunkable()
    ensures HasPushed(s, s, key, 0)
  {
    var parts := Parts(s.pending[key], s.senders[key].unitsize);
    assert parts[..0] == [] && parts[0..] == parts;
    assert s.wire + [] == s.wire;
  }

  lemma OneMore(s: State, t: State, key: Key, n: nat)
    requires key in s.senders && key in s.pending && s.senders[key].Chunkable()
    requires 0 < n <= |Parts(s.pending[key], s.senders[key].unitsize)| && HasPushed(s, t, key, n - 1)
    ensures Enabled(t, PushChunk(key)) && HasPushed(s, Apply(t, PushChunk(key)), key, n)
  {
    var sender := s.senders[key];
    var parts := Parts(s.pending[key], sender.unitsize);
    AdvanceAllUnit(sender, parts[..n - 1]);
    OnePush(t, key, parts[n - 1..]);
    SplitAt(parts, n, parts[n - 1], parts[n..]);
    ChunksSnoc(sender, parts[..n - 1], parts[n - 1]);
    Assoc(s.wire, Chunks(sender, parts[..n - 1]), [Chunk(t.senders[key], parts[n - 1])]);
  }

  /** One push takes the first part that is left. */
  lemma OnePush(s: State, key: Key, parts: seq<Bytes>)
    requires key in s.senders && key in s.pending && s.senders[key].Chunkable()
    requires parts != [] && Parts(s.pending[key], s.senders[key].unitsize) == parts
    ensures Enabled(s, PushChunk(key))
    ensures var next := Apply(s, PushChunk(key));
            && key in next.senders && key in next.pending
            && next.senders[key] == Advance(s.senders[key], parts[0])
            && next.wire == s.wire + [Chunk(s.senders[key], parts[0])]
            && Parts(next.pending[key], s.senders[key].unitsize) == parts[1..]
  {
    var part := Head(s.pending[key], s.senders[key].unitsize);
    TailOfCons(part, Parts(s.pending[key][|part|..], s.senders[key].unitsize));
  }

  lemma {:induction false} AdvanceAllUnit(sender: Sender, parts: seq<Bytes>)
    requires sender.Valid()
    ensures AdvanceAll(sender, parts).unitsize == sender.unitsize
    decreases |parts|
  {
    if parts != [] {
      AdvanceAllUnit(Advance(sender, parts[0]), parts[1..]);
    }
  }

  lemma SplitAt<T>(s: seq<T>, n: nat, x: T, tail: seq<T>)
    requires 0 < n <= |s| && s[n - 1..] == [x] + tail
    ensures s[..n] == s[..n - 1] + [x] && s[n..] == tail
  {
    assert s[n - 1] == s[n - 1..][0];
    assert s[n..] == s[n - 1..][1..];
    TailOfCons(x, tail);
  }
}
