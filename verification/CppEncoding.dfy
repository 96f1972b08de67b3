/** The index-based coder of the C++ library, and where it and the Rust coder agree. */
module CppEncoding {
  import opened Wrappers
  import opened ByteStrings
  import opened RunLength
  import opened Transition
  import opened CoderLoops
  import opened Payload
  import Bits
  import Varint

  method PutVarint(out: Bytes, value: nat) returns (r: Bytes)
    ensures r == out + Varint.Shortest(value)
  {
    r := out;
    var v := value;
    while v >= 0x80
      invariant r + Varint.Shortest(v) == out + Varint.Shortest(value)
    {
      Bits.SetTopBit(v);
      Bits.ShiftRight(v);
      r := r + [Bits.Or(v, 0x80) % 0x100];
      v := Bits.Shr(v, 7);
    }
    r := r + [v % 0x100];
  }

  /** Returns the run length and the position after it. */
  method GetVarint(input: Bytes, pos: nat) returns (r: Result<(nat, nat), Varint.VarintError>)
    requires pos <= |input|
    ensures r == match Varint.Read(input[pos..])
                 case Ok(prefix) => Ok((prefix.run, pos + prefix.size))
                 case Err(e) => Err(e)
  {
    ghost var s := input[pos..];
    var value: nat := 0;
    var i := 0;
    while i < Varint.MAX_VARINT && pos + i < |input|
      invariant pos + i <= |input| && i <= Varint.MAX_VARINT
      invariant forall j | 0 <= j < i :: s[j] >= 0x80
      invariant i < Varint.MAX_VARINT ==> value == Varint.Value(s[..i])
    {
      var byte := input[pos + i];
      assert byte == s[i];
      value := Bits.Or(value, Bits.Shl64(Bits.And(byte, 0x7f), i * 7));
      Bits.TopBit(byte);
      if Bits.And(byte, 0x80) == 0 {
        LastByte(s, i);
        if value == 0 {
          return Err(Varint.ZeroRun);
        }
        return Ok((value, pos + i + 1));
      }
      if i + 1 < Varint.MAX_VARINT {
        NextByte(s, i);
      }
      i := i + 1;
    }
    NoLastByte(s, i);
    return Err(Varint.Truncated);
  }

  method SampleCount(packed: Bytes, unitsize: nat) returns (n: nat)
    requires unitsize > 0
    ensures n == |Samples(packed, unitsize)|
  {
    SamplesCount(packed, unitsize);
    n := |packed| / unitsize;
  }

  /** Sample `i` of the buffer, cut out by its byte offset. */
  method SampleBytes(packed: Bytes, unitsize: nat, i: nat) returns (s: Bytes)
    requires unitsize > 0 && i < |Samples(packed, unitsize)|
    ensures s == Samples(packed, unitsize)[i]
  {
    SampleAt(packed, unitsize, i);
    s := packed[i * unitsize..i * unitsize + unitsize];
  }

  /** One run: its length and its sample. */
  method PutRun(out: Bytes, run: nat, sample: Bytes) returns (r: Bytes)
    ensures r == out + Varint.Shortest(run) + sample
  {
    r := PutVarint(out, run);
    r := r + sample;
  }

  /** Same bytes as the Rust encoder; a unit size of zero is an error here and an assertion there. */
  method EncodeTransition(packed: Bytes, unitsize: nat) returns (r: Result<Bytes, DecodeError>)
    ensures r == if unitsize == 0 then Err(ZeroUnitsize) else Ok(Encode(packed, unitsize))
  {
    if unitsize == 0 {
      return Err(ZeroUnitsize);
    }
    var out: Bytes := [];
    ghost var all, goal := Samples(packed, unitsize), Encode(packed, unitsize);
    WriteIsEncode(packed, unitsize);
    var samples := SampleCount(packed, unitsize);
    if samples == 0 {
      return Ok(out);
    }
    var runStart := 0;
    var run := 1;
    for i := 1 to samples
      invariant runStart < i
      invariant Write(out, all, i, run, all[runStart]) == goal
    {
      var sample := SampleBytes(packed, unitsize, i);
      var current := SampleBytes(packed, unitsize, runStart);
      WriteStep(out, all, i, run, current);
      if sample == current {
        run := run + 1;
      } else {
        out := PutRun(out, run, current);
        runStart := i;
        run := 1;
      }
    }
    var last := SampleBytes(packed, unitsize, runStart);
    out := PutRun(out, run, last);
    return Ok(out);
  }

  method AppendRun(out: Bytes, payload: Bytes, pos: nat, unitsize: nat, run: nat) returns (r: Bytes)
    requires pos + unitsize <= |payload|
    ensures r == out + Join(Repeat(payload[pos..pos + unitsize], run))
  {
    r := out;
    for i := 0 to run
      invariant r == out + Join(Repeat(payload[pos..pos + unitsize], i))
    {
      JoinRepeat(payload[pos..pos + unitsize], i);
      r := r + payload[pos..pos + unitsize];
    }
  }

  method DecodeTransition(payload: Bytes, unitsize: nat, samples: nat) returns (r: Result<Bytes, DecodeError>)
    ensures r == Decode(payload, unitsize, samples)
  {
    if unitsize == 0 {
      return Err(ZeroUnitsize);
    }
    var out: Bytes := [];
    var pos := 0;
    ghost var rest := payload;
    UnrollIsDecode(payload, unitsize, samples);
    while pos < |payload|
      invariant pos <= |payload|
      invariant rest == payload[pos..]
      invariant Unroll(out, rest, unitsize, samples) == Decode(payload, unitsize, samples)
    {
      var read := GetVarint(payload, pos);
      if read.Err? {
        return Err(Length(read.error));
      }
      var (run, next) := read.value;
      if |payload| - next < unitsize {
        return Err(MissingValue);
      }
      var longer := AppendRun(out, payload, next, unitsize, run);
      SliceOfRest(payload, pos, next, unitsize);
      ghost var later := payload[next + unitsize..];
      UnrollStep(out, longer, rest, payload[next..next + unitsize], later, unitsize, samples, run, next - pos);
      rest := later;
      out := longer;
      pos := next + unitsize;
    }
    if |out| != samples * unitsize {
      return Err(CountMismatch);
    }
    return Ok(out);
  }

  lemma SliceOfRest(payload: Bytes, pos: nat, next: nat, unitsize: nat)
    requires pos <= next && next + unitsize <= |payload|
    ensures payload[pos..][next - pos..] == payload[next..]
    ensures payload[next..][..unitsize] == payload[next..next + unitsize]
    ensures payload[next..][unitsize..] == payload[next + unitsize..]
  {
  }

  /** What the C++ dispatcher answers: it refuses every codec but the two it lists. */
  function PayloadResult(data: CaptureData, unitsize: nat): Result<Bytes, DecodeError> {
    if data.codec != CODEC_NONE && data.codec != CODEC_UNSPECIFIED then Err(CodecNotDecodable(data.codec))
    else if data.encoding == ENCODING_TRANSITION then Decode(data.payload, unitsize, data.sampleCount)
    else Ok(data.payload)
  }

  /**
   * `scratch` is the caller's buffer; it holds the samples after a run-length chunk, and is left
   * alone by every other chunk and by every error.
   */
  method DecodePayload(data: CaptureData, unitsize: nat, scratch: Bytes)
    returns (r: Result<Bytes, DecodeError>, filled: Bytes)
    ensures r == PayloadResult(data, unitsize)
    ensures filled == if r.Ok? && data.encoding == ENCODING_TRANSITION then r.value else scratch
  {
    filled := scratch;
    if data.codec != CODEC_NONE && data.codec != CODEC_UNSPECIFIED {
      return Err(CodecNotDecodable(data.codec)), filled;
    }
    if data.encoding == ENCODING_TRANSITION {
      r := DecodeTransition(data.payload, unitsize, data.sampleCount);
      if r.Ok? {
        filled := r.value;
      }
    } else {
      r := Ok(data.payload);
    }
  }

  /** The two dispatchers give the same answer exactly on the codec numbers the schema declares. */
  lemma PayloadAgree(data: CaptureData, unitsize: nat)
    ensures Payload.DecodePayload(data, unitsize) == PayloadResult(data, unitsize) <==> DeclaredCodec(data.codec)
  {
    ParseErrorKinds(data.payload, unitsize);
  }

  // ---------- What the numbers on a chunk mean ----------

  /** No codec and no compression (0 and 1) are the same; zstd and heatshrink (2 and 3) are refused by number. */
  lemma CodecsMean(data: CaptureData, unitsize: nat)
    ensures Payload.DecodePayload(data.(codec := 0), unitsize) == Payload.DecodePayload(data.(codec := 1), unitsize)
    ensures PayloadResult(data.(codec := 0), unitsize) == PayloadResult(data.(codec := 1), unitsize)
    ensures data.codec in {2, 3} ==>
              && Payload.DecodePayload(data, unitsize) == Err(CodecNotDecodable(data.codec))
              && PayloadResult(data, unitsize) == Err(CodecNotDecodable(data.codec))
    ensures data.codec !in {0, 1, 2, 3} ==>
              && Payload.DecodePayload(data, unitsize) == Payload.DecodePayload(data.(codec := 1), unitsize)
              && PayloadResult(data, unitsize) == Err(CodecNotDecodable(data.codec))
  {
  }

  /**
   * An uncompressed chunk of any encoding but run-length (2) is its own payload, in both languages; a
   * run-length one is what its payload decodes to.
   */
  lemma EncodingsMean(data: CaptureData, unitsize: nat)
    requires data.codec in {0, 1}
    ensures data.encoding != 2 ==>
              && Payload.DecodePayload(data, unitsize) == Ok(data.payload)
              && PayloadResult(data, unitsize) == Ok(data.payload)
    ensures data.encoding == 2 ==>
              && Payload.DecodePayload(data, unitsize) == Decode(data.payload, unitsize, data.sampleCount)
              && PayloadResult(data, unitsize) == Decode(data.payload, unitsize, data.sampleCount)
  {
  }
}
