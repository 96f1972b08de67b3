/** How a sender cuts and labels samples, and how a receiver checks the labels and puts them together. */
module Chunking {
  import opened Wrappers
  import opened ByteStrings
  import opened Transition
  import opened Payload
  import CppEncoding
  import Negotiation

  const MAX_PAYLOAD: nat := 0x10_0000
  const PROTOCOL_CEILING: nat := 0x40_0000
  const RECV_MAX_SIZE: nat := 0x80_0000

  datatype Sender = Sender(
    captureId: nat,
    acquisition: nat,
    stream: nat,
    unitsize: nat,
    encoding: int,
    seqNo: nat,
    firstSample: nat)
  {
    predicate Valid() {
      unitsize > 0 && (encoding == ENCODING_PACKED || encoding == ENCODING_TRANSITION)
    }

    /** Samples wider than a whole payload leave no room for a chunk. */
    predicate Chunkable() {
      Valid() && unitsize <= MAX_PAYLOAD
    }
  }

  function ChunkSize(unitsize: nat): nat
    requires unitsize > 0
  {
    MAX_PAYLOAD - MAX_PAYLOAD % unitsize
  }

  /** The largest whole number of samples a payload holds: nothing at all if one sample is larger. */
  lemma ChunkSizeMeans(unitsize: nat)
    requires unitsize > 0
    ensures var n := ChunkSize(unitsize); n % unitsize == 0 && n <= MAX_PAYLOAD == 0x10_0000 < n + unitsize
    ensures ChunkSize(unitsize) == 0 <==> unitsize > MAX_PAYLOAD
  {
    var q := MAX_PAYLOAD / unitsize;
    assert MAX_PAYLOAD == unitsize * q + MAX_PAYLOAD % unitsize;
    DivUnique(unitsize * q, unitsize, q, 0);
    if unitsize > MAX_PAYLOAD {
      DivUnique(MAX_PAYLOAD, unitsize, 0, MAX_PAYLOAD);
    }
  }

  /** The next chunk to send of a nonempty buffer. */
  function Head(packed: Bytes, unitsize: nat): (part: Bytes)
    requires 0 < unitsize <= MAX_PAYLOAD
    ensures |part| <= |packed| && |part| <= MAX_PAYLOAD
    ensures packed != [] ==> part != []
  {
    ChunkSizeMeans(unitsize);
    if |packed| <= ChunkSize(unitsize) then packed else packed[..ChunkSize(unitsize)]
  }

  function Parts(packed: Bytes, unitsize: nat): seq<Bytes>
    requires 0 < unitsize <= MAX_PAYLOAD
    decreases |packed|
  {
    if packed == [] then [] else
      var part := Head(packed, unitsize);
      [part] + Parts(packed[|part|..], unitsize)
  }

  /** Full chunks, with what is left over in the last one. */
  predicate FullButLast(parts: seq<Bytes>, size: nat) {
    && (forall i | 0 <= i < |parts| - 1 :: |parts[i]| == size)
    && (parts != [] ==> 0 < |parts[|parts| - 1]| <= size)
  }

  lemma FullFront(part: Bytes, parts: seq<Bytes>, size: nat)
    requires FullButLast(parts, size)
    requires if parts == [] then 0 < |part| <= size else |part| == size
    ensures FullButLast([part] + parts, size)
  {
    var all := [part] + parts;
    assert forall i | 0 < i < |all| :: all[i] == parts[i - 1];
  }

  /** The buffer is cut into full chunks, and putting them together gives it back. */
  lemma {:induction false} PartsMean(packed: Bytes, unitsize: nat)
    requires 0 < unitsize <= MAX_PAYLOAD
    ensures Join(Parts(packed, unitsize)) == packed && FullButLast(Parts(packed, unitsize), ChunkSize(unitsize))
    decreases |packed|
  {
    if packed != [] {
      var part := Head(packed, unitsize);
      var rest := packed[|part|..];
      PartsMean(rest, unitsize);
      HeadSize(packed, unitsize);
      FullFront(part, Parts(rest, unitsize), ChunkSize(unitsize));
      TailOfCons(part, Parts(rest, unitsize));
      assert part + rest == packed;
    }
  }

  lemma HeadSize(packed: Bytes, unitsize: nat)
    requires 0 < unitsize <= MAX_PAYLOAD && packed != []
    ensures var part := Head(packed, unitsize);
            if Parts(packed[|part|..], unitsize) == [] then 0 < |part| <= ChunkSize(unitsize)
            else |part| == ChunkSize(unitsize)
  {
    ChunkSizeMeans(unitsize);
  }

  function Chunk(sender: Sender, part: Bytes): CaptureData
    requires sender.Valid()
  {
    var payload := if sender.encoding == ENCODING_TRANSITION then Encode(part, sender.unitsize) else part;
    CaptureData(sender.captureId, sender.acquisition, sender.stream, sender.seqNo, sender.firstSample,
                SampleCount(part, sender.unitsize), sender.encoding, CODEC_NONE, |payload|, payload)
  }

  function Advance(sender: Sender, part: Bytes): (s: Sender)
    requires sender.Valid()
    ensures s.Valid()
  {
    sender.(seqNo := sender.seqNo + 1, firstSample := sender.firstSample + SampleCount(part, sender.unitsize))
  }

  function Chunks(sender: Sender, parts: seq<Bytes>): seq<CaptureData>
    requires sender.Valid()
    decreases |parts|
  {
    if parts == [] then [] else [Chunk(sender, parts[0])] + Chunks(Advance(sender, parts[0]), parts[1..])
  }

  function AdvanceAll(sender: Sender, parts: seq<Bytes>): (s: Sender)
    requires sender.Valid()
    ensures s.Valid()
    decreases |parts|
  {
    if parts == [] then sender else AdvanceAll(Advance(sender, parts[0]), parts[1..])
  }

  lemma {:induction false} ChunksSnoc(sender: Sender, parts: seq<Bytes>, part: Bytes)
    requires sender.Valid()
    ensures Chunks(sender, parts + [part]) == Chunks(sender, parts) + [Chunk(AdvanceAll(sender, parts), part)]
    ensures AdvanceAll(sender, parts + [part]) == Advance(AdvanceAll(sender, parts), part)
    decreases |parts|
  {
    if parts == [] {
      assert Chunks(Advance(sender, part), []) == [];
      assert ([part])[1..] == [] && parts + [part] == [part];
    } else {
      assert (parts + [part])[1..] == parts[1..] + [part];
      ChunksSnoc(Advance(sender, parts[0]), parts[1..], part);
    }
  }

  // ---------- The receiving end ----------

  datatype DrainError = WrongSeq | WrongFirstSample | WrongLength | Undecodable(error: DecodeError)

  /** What is expected next, and the samples put together so far. */
  datatype Receiver = Receiver(seqNo: nat, firstSample: nat, samples: Bytes)

  function Receive(receiver: Receiver, data: CaptureData, unitsize: nat): Result<Receiver, DrainError> {
    if data.seqNo != receiver.seqNo then Err(WrongSeq)
    else if data.firstSample != receiver.firstSample then Err(WrongFirstSample)
    else if data.decodedLen != |data.payload| then Err(WrongLength)
    else match DecodePayload(data, unitsize)
      case Err(e) => Err(Undecodable(e))
      case Ok(bytes) =>
        Ok(Receiver(receiver.seqNo + 1, receiver.firstSample + data.sampleCount, receiver.samples + bytes))
  }

  /** One stream from its start: refuses any gap, repetition or undecodable chunk. */
  function Drain(chunks: seq<CaptureData>, unitsize: nat): Result<Receiver, DrainError> {
    if chunks == [] then Ok(Receiver(0, 0, [])) else
      var before := Drain(chunks[..|chunks| - 1], unitsize);
      if before.Err? then before else Receive(before.value, chunks[|chunks| - 1], unitsize)
  }

  lemma DrainSnoc(chunks: seq<CaptureData>, data: CaptureData, unitsize: nat)
    ensures Drain(chunks, unitsize).Ok? ==>
              Drain(chunks + [data], unitsize) == Receive(Drain(chunks, unitsize).value, data, unitsize)
  {
    assert (chunks + [data])[..|chunks|] == chunks;
  }

  function SampleSum(chunks: seq<CaptureData>): nat {
    if chunks == [] then 0 else SampleSum(chunks[..|chunks| - 1]) + chunks[|chunks| - 1].sampleCount
  }

  /** What a successful drain says of the chunks: numbered from 0, each starting where the last one ended. */
  lemma {:induction false} DrainMeans(chunks: seq<CaptureData>, unitsize: nat)
    requires Drain(chunks, unitsize).Ok?
    ensures Drain(chunks, unitsize).value.seqNo == |chunks|
    ensures Drain(chunks, unitsize).value.firstSample == SampleSum(chunks)
    ensures forall i | 0 <= i < |chunks| ::
              chunks[i].seqNo == i && chunks[i].firstSample == SampleSum(chunks[..i])
  {
    if chunks != [] {
      var before := chunks[..|chunks| - 1];
      DrainMeans(before, unitsize);
      forall i | 0 <= i < |chunks|
        ensures chunks[i].seqNo == i && chunks[i].firstSample == SampleSum(chunks[..i])
      {
        if i < |before| {
          assert chunks[i] == before[i] && chunks[..i] == before[..i];
        }
      }
    }
  }

  /** What the chunks decode to, one after the other. */
  function Decoded(chunks: seq<CaptureData>, unitsize: nat): Bytes {
    if chunks == [] then [] else
      var last := DecodePayload(chunks[|chunks| - 1], unitsize);
      Decoded(chunks[..|chunks| - 1], unitsize) + if last.Ok? then last.value else []
  }

  /** A chunk in its place: numbered, starting where the ones before end, of the stated length, decodable. */
  predicate InPlace(chunks: seq<CaptureData>, i: nat, unitsize: nat)
    requires i < |chunks|
  {
    && chunks[i].seqNo == i && chunks[i].firstSample == SampleSum(chunks[..i])
    && chunks[i].decodedLen == |chunks[i].payload| && DecodePayload(chunks[i], unitsize).Ok?
  }

  lemma InPlacePrefix(chunks: seq<CaptureData>, n: nat, i: nat, unitsize: nat)
    requires i < n <= |chunks|
    ensures InPlace(chunks[..n], i, unitsize) <==> InPlace(chunks, i, unitsize)
  {
    assert chunks[..n][i] == chunks[i] && chunks[..n][..i] == chunks[..i];
  }

  /** One more chunk is accepted exactly if it is in its place. */
  lemma DrainLast(chunks: seq<CaptureData>, unitsize: nat)
    requires chunks != [] && Drain(chunks[..|chunks| - 1], unitsize).Ok?
    ensures Drain(chunks, unitsize).Ok? <==> InPlace(chunks, |chunks| - 1, unitsize)
    ensures Drain(chunks, unitsize).Ok? ==>
              Drain(chunks, unitsize).value.samples ==
              Drain(chunks[..|chunks| - 1], unitsize).value.samples
              + DecodePayload(chunks[|chunks| - 1], unitsize).value
  {
    DrainMeans(chunks[..|chunks| - 1], unitsize);
  }

  /** A receiver accepts exactly the streams whose chunks are all in place, and has what they decode to. */
  lemma {:induction false} DrainIff(chunks: seq<CaptureData>, unitsize: nat)
    ensures Drain(chunks, unitsize).Ok? <==> forall i | 0 <= i < |chunks| :: InPlace(chunks, i, unitsize)
    ensures Drain(chunks, unitsize).Ok? ==> Drain(chunks, unitsize).value.samples == Decoded(chunks, unitsize)
    decreases |chunks|
  {
    if chunks != [] {
      var n := |chunks| - 1;
      DrainIff(chunks[..n], unitsize);
      forall i | 0 <= i < n ensures InPlace(chunks[..n], i, unitsize) <==> InPlace(chunks, i, unitsize) {
        InPlacePrefix(chunks, n, i, unitsize);
      }
      if Drain(chunks[..n], unitsize).Ok? {
        DrainLast(chunks, unitsize);
      }
    }
  }

  /** What survives of one part: packed chunks carry every byte, run-length ones only whole samples. */
  function Kept(encoding: int, unitsize: nat, part: Bytes): Bytes
    requires unitsize > 0
  {
    if encoding == ENCODING_TRANSITION then Whole(part, unitsize) else part
  }

  lemma KeptIsAll(encoding: int, unitsize: nat, part: Bytes)
    requires unitsize > 0
    ensures Kept(encoding, unitsize, part) == part <==> encoding != ENCODING_TRANSITION || Aligned(part, unitsize)
  {
    WholeIsPrefix(part, unitsize);
  }

  /** Any chunk decodes, in either language, to what its encoding keeps of the bytes it was made from. */
  lemma ChunkDecodes(sender: Sender, part: Bytes)
    requires sender.Valid() && |part| <= MAX_PAYLOAD
    ensures DecodePayload(Chunk(sender, part), sender.unitsize) == Ok(Kept(sender.encoding, sender.unitsize, part))
    ensures CppEncoding.PayloadResult(Chunk(sender, part), sender.unitsize) ==
            Ok(Kept(sender.encoding, sender.unitsize, part))
  {
    QuotientSmaller(|part|, sender.unitsize);
    SamplesCount(part, sender.unitsize);
    RoundTrip(part, sender.unitsize);
    JoinSamples(part, sender.unitsize);
  }

  /** So does a chunk whose codec, or packed encoding, was left at the protocol's default of zero. */
  lemma UnlabelledChunkDecodes(sender: Sender, part: Bytes, codec: int, encoding: int)
    requires sender.Valid() && |part| <= MAX_PAYLOAD && codec in {0, 1}
    requires encoding == sender.encoding || (sender.encoding == ENCODING_PACKED && encoding == 0)
    ensures var data := Chunk(sender, part).(codec := codec, encoding := encoding);
            && DecodePayload(data, sender.unitsize) == Ok(Kept(sender.encoding, sender.unitsize, part))
            && CppEncoding.PayloadResult(data, sender.unitsize) == DecodePayload(data, sender.unitsize)
  {
    ChunkDecodes(sender, part);
    CppEncoding.EncodingsMean(Chunk(sender, part), sender.unitsize);
    CppEncoding.EncodingsMean(Chunk(sender, part).(codec := codec, encoding := encoding), sender.unitsize);
  }

  lemma ReceiveDecodable(receiver: Receiver, data: CaptureData, unitsize: nat, bytes: Bytes)
    requires data.seqNo == receiver.seqNo && data.firstSample == receiver.firstSample
    requires data.decodedLen == |data.payload| && DecodePayload(data, unitsize) == Ok(bytes)
    ensures Receive(receiver, data, unitsize) ==
            Ok(Receiver(receiver.seqNo + 1, receiver.firstSample + data.sampleCount, receiver.samples + bytes))
  {
  }

  lemma ReceiveChunk(receiver: Receiver, sender: Sender, part: Bytes)
    requires sender.Valid() && |part| <= MAX_PAYLOAD
    requires receiver.seqNo == sender.seqNo && receiver.firstSample == sender.firstSample
    ensures Receive(receiver, Chunk(sender, part), sender.unitsize) ==
            Ok(Receiver(Advance(sender, part).seqNo, Advance(sender, part).firstSample,
                        receiver.samples + Kept(sender.encoding, sender.unitsize, part)))
  {
    ChunkDecodes(sender, part);
    ReceiveDecodable(receiver, Chunk(sender, part), sender.unitsize, Kept(sender.encoding, sender.unitsize, part));
  }

  /** Only the last part of a buffer can end inside a sample, so cutting loses nothing. */
  lemma HeadKeeps(encoding: int, unitsize: nat, packed: Bytes)
    requires 0 < unitsize <= MAX_PAYLOAD
    ensures var part := Head(packed, unitsize);
            var rest := packed[|part|..];
            && Kept(encoding, unitsize, packed) == Kept(encoding, unitsize, part) + Kept(encoding, unitsize, rest)
            && SampleCount(packed, unitsize) == SampleCount(part, unitsize) + SampleCount(rest, unitsize)
            && (Aligned(packed, unitsize) ==> Aligned(part, unitsize) && Aligned(rest, unitsize))
  {
    var part := Head(packed, unitsize);
    var rest := packed[|part|..];
    assert packed == part + rest;
    ChunkSizeMeans(unitsize);
    if |packed| <= ChunkSize(unitsize) {
      assert rest == [] && part == packed;
      AlignedEmpty(unitsize);
      assert Whole(part, unitsize) + [] == Whole(part, unitsize);
    } else {
      WholeAppend(part, rest, unitsize);
      KeptIsAll(encoding, unitsize, part);
      if Aligned(packed, unitsize) {
        AlignedDifference(|packed|, |part|, unitsize);
      }
    }
  }

  lemma AlignedEmpty(unitsize: nat)
    requires unitsize > 0
    ensures Aligned([], unitsize) && Samples([], unitsize) == []
  {
  }

  lemma AlignedDifference(a: nat, b: nat, u: nat)
    requires u > 0 && b <= a && a % u == 0 && b % u == 0
    ensures (a - b) % u == 0
  {
    var p, q := a / u, b / u;
    assert a == u * p && b == u * q;
    assert a - b == u * (p - q);
    assert p < q ==> u * p + u <= u * q;
    DivUnique(a - b, u, p - q, 0);
  }

  // ---------- What goes on the wire ----------

  /** No chunk is larger than the receiving sockets accept, even when every sample differs. */
  lemma ChunkFits(sender: Sender, part: Bytes)
    requires sender.Valid() && |part| <= MAX_PAYLOAD
    ensures sender.encoding == ENCODING_PACKED ==> |Chunk(sender, part).payload| <= MAX_PAYLOAD
    ensures sender.encoding == ENCODING_TRANSITION ==> |Chunk(sender, part).payload| <= 2 * MAX_PAYLOAD
    ensures |Chunk(sender, part).payload| <= 0x20_0000 < PROTOCOL_CEILING == 0x40_0000 < RECV_MAX_SIZE == 0x80_0000
  {
    EncodeSize(part, sender.unitsize);
    QuotientSmaller(|part|, sender.unitsize);
  }

  /**
   * A plugin that switches to run-length encoding only if the negotiated list has it sends nothing the
   * client did not ask for, apart from the mandatory encoding, and nothing the client cannot decode.
   */
  lemma NegotiatedDecodes(accept: seq<int>, acceptCodecs: seq<int>, supported: seq<int>, codecs: seq<int>,
                          sender: Sender, part: Bytes)
    requires sender.Valid() && |part| <= MAX_PAYLOAD
    requires sender.encoding == ENCODING_TRANSITION ==>
               Negotiation.Accepts(Negotiation.NegotiateEncodings(accept, supported), ENCODING_TRANSITION)
    ensures var data := Chunk(sender, part);
            && data.encoding in Negotiation.NegotiateEncodings(accept, supported)
            && (data.encoding in accept || data.encoding == ENCODING_PACKED)
            && data.codec in Negotiation.NegotiateCodecs(acceptCodecs, codecs)
            && DecodePayload(data, sender.unitsize) == Ok(Kept(sender.encoding, sender.unitsize, part))
            && CppEncoding.PayloadResult(data, sender.unitsize) == DecodePayload(data, sender.unitsize)
  {
    ChunkDecodes(sender, part);
    Negotiation.IntersectSet(accept, supported, ENCODING_PACKED, sender.encoding);
    Negotiation.IntersectSet(acceptCodecs, codecs, CODEC_NONE, CODEC_NONE);
  }
}
