/** The slice-based coder of the Rust crate. */
module RustEncoding {
  import opened Wrappers
  import opened ByteStrings
  import opened RunLength
  import opened Transition
  import opened CoderLoops
  import Bits
  import Varint

  method PutVarint(out: Bytes, value: nat) returns (r: Bytes)
    ensures r == out + Varint.Shortest(value)
  {
    r := out;
    var v := value;
    while v >= 0x80
      invariant r + Varint.Shortest(v) == out + Varint.Shortest(value)
    {
      Bits.SetTopBit(v);
      Bits.ShiftRight(v);
      r := r + [Bits.Or(v % 0x100, 0x80)];
      v := Bits.Shr(v, 7);
    }
    r := r + [v % 0x100];
  }

  function TailAfter(input: Bytes, read: Result<Varint.Prefix, Varint.VarintError>)
    : Result<(nat, Bytes), Varint.VarintError>
    requires read.Ok? ==> read.value.size <= |input|
  {
    match read
    case Ok(prefix) => Ok((prefix.run, input[prefix.size..]))
    case Err(e) => Err(e)
  }

  method GetVarint(input: Bytes) returns (r: Result<(nat, Bytes), Varint.VarintError>)
    ensures r == TailAfter(input, Varint.Read(input))
  {
    var value: nat := 0;
    var i := 0;
    while i < |input| && i < Varint.MAX_VARINT
      invariant i <= |input| && i <= Varint.MAX_VARINT
      invariant forall j | 0 <= j < i :: input[j] >= 0x80
      invariant i < Varint.MAX_VARINT ==> value == Varint.Value(input[..i])
    {
      var byte := input[i];
      value := Bits.Or(value, Bits.Shl64(Bits.And(byte, 0x7f), i * 7));
      Bits.TopBit(byte);
      if Bits.And(byte, 0x80) == 0 {
        LastByte(input, i);
        if value == 0 {
          return Err(Varint.ZeroRun);
        }
        return Ok((value, input[i + 1..]));
      }
      if i + 1 < Varint.MAX_VARINT {
        NextByte(input, i);
      }
      i := i + 1;
    }
    NoLastByte(input, i);
    return Err(Varint.Truncated);
  }

  method EncodeTransition(packed: Bytes, unitsize: nat) returns (out: Bytes)
    requires unitsize > 0
    ensures out == Encode(packed, unitsize)
  {
    out := [];
    var samples := Samples(packed, unitsize);
    WriteIsEncode(packed, unitsize);
    if samples == [] {
      return;
    }
    var current := samples[0];
    var run := 1;
    for i := 1 to |samples|
      invariant Write(out, samples, i, run, current) == Encode(packed, unitsize)
    {
      var sample := samples[i];
      if sample == current {
        run := run + 1;
      } else {
        out := PutVarint(out, run);
        out := out + current;
        current := sample;
        run := 1;
      }
    }
    out := PutVarint(out, run);
    out := out + current;
  }

  method ExtendRun(out: Bytes, value: Bytes, run: nat) returns (r: Bytes)
    ensures r == out + Join(Repeat(value, run))
  {
    r := out;
    for i := 0 to run
      invariant r == out + Join(Repeat(value, i))
    {
      JoinRepeat(value, i);
      r := r + value;
    }
  }

  method DecodeTransition(payload: Bytes, unitsize: nat, samples: nat) returns (r: Result<Bytes, DecodeError>)
    ensures r == Decode(payload, unitsize, samples)
  {
    if unitsize == 0 {
      return Err(ZeroUnitsize);
    }
    var out: Bytes := [];
    var rest := payload;
    UnrollIsDecode(payload, unitsize, samples);
    while rest != []
      invariant Unroll(out, rest, unitsize, samples) == Decode(payload, unitsize, samples)
      decreases |rest|
    {
      var read := GetVarint(rest);
      if read.Err? {
        return Err(Length(read.error));
      }
      var (run, tail) := read.value;
      if |tail| < unitsize {
        return Err(MissingValue);
      }
      var value := tail[..unitsize];
      out := ExtendRun(out, value, run);
      rest := tail[unitsize..];
    }
    if |out| != samples * unitsize {
      return Err(CountMismatch);
    }
    return Ok(out);
  }
}
