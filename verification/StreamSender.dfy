/** The sender a plugin's acquisition thread holds for one stream of one acquisition. */
module StreamSender {
  import opened Wrappers
  import opened ByteStrings
  import opened Payload
  import opened Transition
  import opened Chunking
  import opened Events
  import RustEncoding

  function DataEvents(chunks: seq<CaptureData>): seq<Event> {
    if chunks == [] then [] else [Data(chunks[0])] + DataEvents(chunks[1..])
  }

  datatype SendResult = Delivered | Refused | Aborted

  class StreamSender {
    const captureId: nat
    const acquisition: nat
    const stream: nat
    const unitsize: nat
    var encoding: int
    var seqNo: nat
    var firstSample: nat

    function State(): Sender
      reads this
    {
      Sender(captureId, acquisition, stream, unitsize, encoding, seqNo, firstSample)
    }

    constructor (captureId: nat, acquisition: nat, stream: nat, unitsize: nat)
      requires unitsize > 0
      ensures State() == Sender(captureId, acquisition, stream, unitsize, ENCODING_PACKED, 0, 0)
    {
      this.captureId, this.acquisition, this.stream := captureId, acquisition, stream;
      this.unitsize, this.encoding := unitsize, ENCODING_PACKED;
      this.seqNo, this.firstSample := 0, 0;
    }

    method Transition()
      modifies this`encoding
      ensures State() == old(State()).(encoding := ENCODING_TRANSITION)
    {
      encoding := ENCODING_TRANSITION;
    }

    /** The chunk that carries `part` at the sender's present position. */
    method Label(part: Bytes) returns (data: CaptureData)
      requires State().Valid()
      ensures data == Chunk(State(), part)
    {
      QuotientSmaller(|part|, unitsize);
      SamplesCount(part, unitsize);
      var samples := |part| / unitsize;
      var payload := part;
      if encoding == ENCODING_TRANSITION {
        payload := RustEncoding.EncodeTransition(part, unitsize);
      }
      data := CaptureData(captureId, acquisition, stream, seqNo, firstSample, samples,
                          encoding, CODEC_NONE, |payload|, payload);
    }

    /** Labels one part and sends it; the counters move on only if it got through. */
    method SendPart(events: Events, part: Bytes, accepted: bool) returns (ok: bool)
      requires State().Valid()
      modifies this`seqNo, this`firstSample, events
      ensures ok == accepted
      ensures State() == if ok then Advance(old(State()), part) else old(State())
      ensures events.wire == if ok then old(events.wire) + [Data(Chunk(old(State()), part))] else old(events.wire)
      ensures events.running == old(events.running)
    {
      var data := Label(part);
      ok := events.Send(Data(data), accepted);
      if ok {
        seqNo := seqNo + 1;
        firstSample := firstSample + data.sampleCount;
      }
    }

    /**
     * `budget` is how many pushes the socket still takes; the first one it refuses ends the call.
     * Whatever happens, the sender's counters describe exactly the chunks that reached the wire. The
     * program aborts, before it pushes anything, exactly if one sample is larger than a payload.
     */
    method Send(events: Events, packed: Bytes, budget: nat) returns (r: SendResult)
      requires State().Valid()
      modifies this`seqNo, this`firstSample, events
      ensures r.Aborted? <==> unitsize > MAX_PAYLOAD
      ensures r.Aborted? ==> State() == old(State()) && events.wire == old(events.wire)
      ensures !r.Aborted? ==>
                var parts := Parts(packed, unitsize);
                && r.Delivered? == (budget >= |parts|)
                && State() == AdvanceAll(old(State()), Sent(parts, budget))
                && events.wire == old(events.wire) + DataEvents(Chunks(old(State()), Sent(parts, budget)))
      ensures events.running == old(events.running)
    {
      ChunkSizeMeans(unitsize);
      if ChunkSize(unitsize) == 0 {
        return Aborted;
      }
      ghost var sender := State();
      ghost var outcome := Push(events.wire, sender, packed, budget);
      var rest, room := packed, budget;
      while rest != []
        invariant sender.Chunkable() && State() == sender
        invariant Push(events.wire, sender, rest, room) == outcome
        invariant events.running == old(events.running)
        decreases |rest|
      {
        var part := Head(rest, unitsize);
        PushStep(events.wire, sender, rest, room, Chunk(sender, part));
        var ok := SendPart(events, part, room > 0);
        if !ok {
          PushParts(old(events.wire), old(State()), packed, budget);
          return Refused;
        }
        sender := Advance(sender, part);
        rest := rest[|part|..];
        room := room - 1;
      }
      PushParts(old(events.wire), old(State()), packed, budget);
      return Delivered;
    }
  }

  // ---------- The sending loop as a function ----------

  datatype Outcome<W> = Outcome(wire: W, sender: Sender, ok: bool)

  /** What the loop leaves behind from where `rest` is still to be sent and the socket takes `budget` more. */
  function Push(wire: seq<Event>, sender: Sender, rest: Bytes, budget: nat): Outcome<seq<Event>>
    requires sender.Chunkable()
    decreases |rest|
  {
    if rest == [] then Outcome(wire, sender, true)
    else if budget == 0 then Outcome(wire, sender, false)
    else
      var part := Head(rest, sender.unitsize);
      Push(wire + [Data(Chunk(sender, part))], Advance(sender, part), rest[|part|..], budget - 1)
  }

  lemma PushStep(wire: seq<Event>, sender: Sender, rest: Bytes, budget: nat, data: CaptureData)
    requires sender.Chunkable() && rest != [] && data == Chunk(sender, Head(rest, sender.unitsize))
    ensures budget == 0 ==> Push(wire, sender, rest, budget) == Outcome(wire, sender, false)
    ensures budget > 0 ==>
              var part := Head(rest, sender.unitsize);
              Push(wire, sender, rest, budget) ==
              Push(wire + [Data(data)], Advance(sender, part), rest[|part|..], budget - 1)
  {
  }

  /** The parts that reach the wire when it takes only `budget` of them. */
  function Sent(parts: seq<Bytes>, budget: nat): seq<Bytes> {
    if budget < |parts| then parts[..budget] else parts
  }

  lemma {:induction false} PushParts(wire: seq<Event>, sender: Sender, rest: Bytes, budget: nat)
    requires sender.Chunkable()
    ensures var parts := Parts(rest, sender.unitsize);
            Push(wire, sender, rest, budget) ==
            Outcome(wire + DataEvents(Chunks(sender, Sent(parts, budget))),
                    AdvanceAll(sender, Sent(parts, budget)), budget >= |parts|)
    decreases |rest|
  {
    var parts := Parts(rest, sender.unitsize);
    if rest == [] || budget == 0 {
      assert Sent(parts, budget) == [];
      assert wire + DataEvents([]) == wire;
    } else {
      var part := Head(rest, sender.unitsize);
      var tail := rest[|part|..];
      PushParts(wire + [Data(Chunk(sender, part))], Advance(sender, part), tail, budget - 1);
      var later := Sent(Parts(tail, sender.unitsize), budget - 1);
      SentCons(part, Parts(tail, sender.unitsize), budget);
      ChunksCons(sender, part, later);
      Assoc(wire, [Data(Chunk(sender, part))], DataEvents(Chunks(Advance(sender, part), later)));
    }
  }

  lemma SentCons(part: Bytes, parts: seq<Bytes>, budget: nat)
    requires budget > 0
    ensures Sent([part] + parts, budget) == [part] + Sent(parts, budget - 1)
  {
  }

  lemma ChunksCons(sender: Sender, part: Bytes, later: seq<Bytes>)
    requires sender.Valid()
    ensures Chunks(sender, [part] + later) == [Chunk(sender, part)] + Chunks(Advance(sender, part), later)
    ensures DataEvents(Chunks(sender, [part] + later)) ==
            [Data(Chunk(sender, part))] + DataEvents(Chunks(Advance(sender, part), later))
    ensures AdvanceAll(sender, [part] + later) == AdvanceAll(Advance(sender, part), later)
  {
    TailOfCons(part, later);
    TailOfCons(Chunk(sender, part), Chunks(Advance(sender, part), later));
  }

  // ---------- What one call delivers ----------

  /** What survives of each part, put together. */
  function KeptAll(encoding: int, unitsize: nat, parts: seq<Bytes>): Bytes
    requires unitsize > 0
  {
    if parts == [] then [] else Kept(encoding, unitsize, parts[0]) + KeptAll(encoding, unitsize, parts[1..])
  }

  /**
   * A receiver that is in step before a call is in step after it, with exactly what is kept of the
   * parts that were pushed, however many that was.
   */
  lemma {:induction false} DrainChunks(before: seq<CaptureData>, sender: Sender, parts: seq<Bytes>, samples: Bytes)
    requires sender.Valid() && forall p | p in parts :: |p| <= MAX_PAYLOAD
    requires Drain(before, sender.unitsize) == Ok(Receiver(sender.seqNo, sender.firstSample, samples))
    ensures var after := AdvanceAll(sender, parts);
            Drain(before + Chunks(sender, parts), sender.unitsize) ==
            Ok(Receiver(after.seqNo, after.firstSample, samples + KeptAll(sender.encoding, sender.unitsize, parts)))
    decreases |parts|
  {
    var e, u := sender.encoding, sender.unitsize;
    if parts == [] {
      assert before + [] == before && samples + [] == samples;
    } else {
      var part, chunk := parts[0], Chunk(sender, parts[0]);
      assert part in parts;
      ReceiveChunk(Receiver(sender.seqNo, sender.firstSample, samples), sender, part);
      DrainSnoc(before, chunk, u);
      DrainChunks(before + [chunk], Advance(sender, part), parts[1..], samples + Kept(e, u, part));
      Assoc(before, [chunk], Chunks(Advance(sender, part), parts[1..]));
      Assoc(samples, Kept(e, u, part), KeptAll(e, u, parts[1..]));
    }
  }

  /** Cutting a buffer into parts keeps what its encoding keeps of the whole, and counts its samples. */
  lemma {:induction false} KeptParts(sender: Sender, packed: Bytes)
    requires sender.Chunkable()
    ensures var e, u, parts := sender.encoding, sender.unitsize, Parts(packed, sender.unitsize);
            && KeptAll(e, u, parts) == Kept(e, u, packed)
            && AdvanceAll(sender, parts).seqNo == sender.seqNo + |parts|
            && AdvanceAll(sender, parts).firstSample == sender.firstSample + SampleCount(packed, u)
    ensures forall p | p in Parts(packed, sender.unitsize) :: |p| <= MAX_PAYLOAD
    decreases |packed|
  {
    AlignedEmpty(sender.unitsize);
    if packed != [] {
      var part := Head(packed, sender.unitsize);
      HeadKeeps(sender.encoding, sender.unitsize, packed);
      KeptParts(Advance(sender, part), packed[|part|..]);
      TailOfCons(part, Parts(packed[|part|..], sender.unitsize));
    }
  }

  lemma NothingBefore<T>(s: seq<T>)
    ensures [] + s == s
  {
  }

  /**
   * One call on a fresh stream with every push going through, for any buffer: the receiver accepts the
   * chunks, and its samples are those of the buffer exactly if the chunks are packed or the buffer ends
   * on a whole sample. A run-length stream loses a partial sample at the end, and nothing else.
   */
  lemma BufferDelivered(sender: Sender, packed: Bytes)
    requires sender.Chunkable() && sender.seqNo == 0 && sender.firstSample == 0
    ensures var u := sender.unitsize;
            var drained := Drain(Chunks(sender, Parts(packed, u)), u);
            && drained == Ok(Receiver(|Parts(packed, u)|, SampleCount(packed, u), Kept(sender.encoding, u, packed)))
            && (drained.value.samples == packed <==> sender.encoding == ENCODING_PACKED || Aligned(packed, u))
            && drained.value.samples <= packed && |packed| < |drained.value.samples| + u
  {
    DrainBuffer(sender, packed);
    KeptIsAll(sender.encoding, sender.unitsize, packed);
    KeptIsPrefix(sender.encoding, sender.unitsize, packed);
  }

  lemma DrainBuffer(sender: Sender, packed: Bytes)
    requires sender.Chunkable() && sender.seqNo == 0 && sender.firstSample == 0
    ensures var u := sender.unitsize;
            var after := AdvanceAll(sender, Parts(packed, u));
            && Drain(Chunks(sender, Parts(packed, u)), u) ==
               Ok(Receiver(after.seqNo, after.firstSample, Kept(sender.encoding, u, packed)))
            && after.seqNo == |Parts(packed, u)| && after.firstSample == SampleCount(packed, u)
  {
    var parts := Parts(packed, sender.unitsize);
    KeptParts(sender, packed);
    DrainChunks([], sender, parts, []);
    NothingBefore(Chunks(sender, parts));
    NothingBefore(KeptAll(sender.encoding, sender.unitsize, parts));
  }

  lemma KeptIsPrefix(encoding: int, unitsize: nat, packed: Bytes)
    requires unitsize > 0
    ensures Kept(encoding, unitsize, packed) <= packed
    ensures |packed| < |Kept(encoding, unitsize, packed)| + unitsize
  {
    WholeIsPrefix(packed, unitsize);
    SamplesCount(packed, unitsize);
    OffsetIsProduct(SampleCount(packed, unitsize), unitsize);
    assert |packed| == unitsize * (|packed| / unitsize) + |packed| % unitsize;
  }

  /** Three bytes of a run-length stream of two-byte samples: the receiver gets two of them. */
  lemma PartialSampleLost()
    ensures var sender := Sender(1, 0, 0, 2, ENCODING_TRANSITION, 0, 0);
            Drain(Chunks(sender, Parts([1, 2, 3], 2)), 2) == Ok(Receiver(1, 1, [1, 2]))
  {
    var sender := Sender(1, 0, 0, 2, ENCODING_TRANSITION, 0, 0);
    var packed: Bytes := [1, 2, 3];
    BufferDelivered(sender, packed);
    ChunkSizeMeans(2);
    assert Head(packed, 2) == packed && packed[|packed|..] == [];
    assert |Parts(packed, 2)| == 1;
    SamplesCount(packed, 2);
    WholeIsPrefix(packed, 2);
    assert Offset(1, 2) == 2 + Offset(0, 2);
    assert Whole(packed, 2) == packed[..2] == [1, 2];
  }

  /** How many bytes go through when the socket takes `budget` parts. */
  function Through(packed: Bytes, unitsize: nat, budget: nat): nat
    requires 0 < unitsize <= MAX_PAYLOAD
    decreases budget
  {
    if budget == 0 || packed == [] then 0 else
      var part := Head(packed, unitsize);
      |part| + Through(packed[|part|..], unitsize, budget - 1)
  }

  /** A call cut short has sent what a complete call with a shorter buffer sends. */
  lemma {:induction false} CutShort(packed: Bytes, unitsize: nat, budget: nat)
    requires 0 < unitsize <= MAX_PAYLOAD
    ensures var n := Through(packed, unitsize, budget);
            && n <= |packed|
            && Sent(Parts(packed, unitsize), budget) == Parts(packed[..n], unitsize)
            && (budget < |Parts(packed, unitsize)| ==> n % unitsize == 0)
            && (budget >= |Parts(packed, unitsize)| ==> n == |packed|)
    decreases budget
  {
    AlignedEmpty(unitsize);
    if packed != [] && budget > 0 {
      var part := Head(packed, unitsize);
      var rest := packed[|part|..];
      var n := Through(rest, unitsize, budget - 1);
      CutShort(rest, unitsize, budget - 1);
      SentCons(part, Parts(rest, unitsize), budget);
      HeadOfPrefix(packed, unitsize, n);
      TailOfCons(part, Parts(rest, unitsize));
      if budget < |Parts(packed, unitsize)| {
        HeadAligned(packed, unitsize);
        AlignedSum(|part|, n, unitsize);
      }
    }
  }

  lemma HeadOfPrefix(packed: Bytes, unitsize: nat, n: nat)
    requires 0 < unitsize <= MAX_PAYLOAD && packed != []
    requires |Head(packed, unitsize)| + n <= |packed|
    ensures var part := Head(packed, unitsize);
            var prefix := packed[..|part| + n];
            Head(prefix, unitsize) == part && prefix[|part|..] == packed[|part|..][..n]
  {
  }

  /** A part with more to come is full. */
  lemma HeadAligned(packed: Bytes, unitsize: nat)
    requires 0 < unitsize <= MAX_PAYLOAD && packed[|Head(packed, unitsize)|..] != []
    ensures |Head(packed, unitsize)| % unitsize == 0
  {
    ChunkSizeMeans(unitsize);
  }

  lemma AlignedSum(a: nat, b: nat, u: nat)
    requires u > 0 && a % u == 0 && b % u == 0
    ensures (a + b) % u == 0
  {
    var p, q := a / u, b / u;
    assert a + b == u * (p + q);
    DivUnique(a + b, u, p + q, 0);
  }

  /**
   * One call on a fresh stream, with any buffer and any number of pushes going through: the receiver has
   * what the encoding keeps of the first `n` bytes, and the sender's counters describe them. A call that
   * was cut short stopped between two samples, so it kept those bytes as they are.
   */
  lemma SendDelivers(sender: Sender, packed: Bytes, budget: nat)
    requires sender.Chunkable() && sender.seqNo == 0 && sender.firstSample == 0
    ensures var e, u := sender.encoding, sender.unitsize;
            var sent := Sent(Parts(packed, u), budget);
            var after, n := AdvanceAll(sender, sent), Through(packed, u, budget);
            && n <= |packed|
            && Drain(Chunks(sender, sent), u) == Ok(Receiver(after.seqNo, after.firstSample, Kept(e, u, packed[..n])))
            && after.seqNo == |sent|
            && after.firstSample == SampleCount(packed[..n], u)
            && (budget >= |Parts(packed, u)| ==> n == |packed|)
            && (budget < |Parts(packed, u)| ==>
                  n == Offset(after.firstSample, u) && Kept(e, u, packed[..n]) == packed[..n])
  {
    var u, n := sender.unitsize, Through(packed, sender.unitsize, budget);
    CutShort(packed, u, budget);
    var pushed := packed[..n];
    DrainBuffer(sender, pushed);
    if budget < |Parts(packed, u)| {
      KeptIfAligned(sender.encoding, u, pushed);
    }
  }

  lemma KeptIfAligned(encoding: int, unitsize: nat, part: Bytes)
    requires unitsize > 0 && Aligned(part, unitsize)
    ensures Kept(encoding, unitsize, part) == part && |part| == Offset(SampleCount(part, unitsize), unitsize)
  {
    KeptIsAll(encoding, unitsize, part);
    AlignedJoins(part, unitsize);
  }
}
