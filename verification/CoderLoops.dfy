/**
 * Loop invariants of the coder, shared by the two languages: what the rest of a loop will do from
 * its present state, and why one more turn does not change that.
 */
module CoderLoops {
  import opened Wrappers
  import opened ByteStrings
  import opened RunLength
  import opened Transition
  import Bits
  import Varint

  // ---------- Reading a run length ----------

  lemma Remainder(q: nat, r: nat)
    requires r < Varint.TWO_TO_THE_64
    ensures (q * Varint.TWO_TO_THE_64 + r) % Varint.TWO_TO_THE_64 == r
  {
  }

  /** Only the lowest bit of the tenth byte survives. */
  lemma TenthByte(low: nat, d: nat)
    requires low < 0x8000_0000_0000_0000
    ensures (low + Varint.Place(d, 9)) % Varint.TWO_TO_THE_64 ==
            low + Varint.Place(d, 9) % Varint.TWO_TO_THE_64
  {
    var q, r := d / 2, d % 2 * 0x8000_0000_0000_0000;
    Varint.TenthPlace(d);
    assert d * 0x8000_0000_0000_0000 == q * Varint.TWO_TO_THE_64 + r;
    Remainder(q, r);
    Remainder(q, low + r);
  }

  /** Only the lowest of the tenth byte's seven bits is left in the register. */
  lemma TenthDigit(d: nat)
    ensures Varint.Place(d, 9) % Varint.TWO_TO_THE_64 == Varint.Place(d % 2, 9)
  {
    Varint.TenthPlace(d);
    Varint.TenthPlace(d % 2);
    Remainder(d / 2, d % 2 * 0x8000_0000_0000_0000);
  }

  lemma NoOverflow(low: nat, added: nat)
    requires low + added < Varint.TWO_TO_THE_64
    ensures (low + added) % Varint.TWO_TO_THE_64 == low + added % Varint.TWO_TO_THE_64
  {
    Varint.RemainderOfSmall(added);
    Varint.RemainderOfSmall(low + added);
  }

  lemma PlaceFits(d: nat, i: nat)
    requires d < 128 && i < 9
    ensures Varint.Place(d, i) + Varint.Pow128(i) <= 0x8000_0000_0000_0000
  {
    Varint.PlaceBound(d, i);
    Varint.PowMonotone(i + 1, 9);
    Varint.PowTable();
  }

  lemma AddDigit(low: nat, d: nat, i: nat)
    requires d < 128 && low < Varint.Pow128(i) && i < Varint.MAX_VARINT
    ensures (low + Varint.Place(d, i)) % Varint.TWO_TO_THE_64 ==
            low + Varint.Place(d, i) % Varint.TWO_TO_THE_64
    ensures i < 9 ==> low + Varint.Place(d, i) < Varint.TWO_TO_THE_64
  {
    if i < 9 {
      PlaceFits(d, i);
      NoOverflow(low, Varint.Place(d, i));
    } else {
      Varint.PowTable();
      TenthByte(low, d);
    }
  }

  /** What the loop ors into the value for byte `i`. */
  function Digit(byte: Byte, i: nat): nat {
    Bits.Shl64(Bits.And(byte, 0x7f), i * 7)
  }

  lemma DigitIsPlace(byte: Byte, i: nat)
    ensures Digit(byte, i) == Varint.Place(byte % 128, i) % Varint.TWO_TO_THE_64
  {
    Bits.SevenBits(byte);
    Bits.ShiftIsPlace(byte % 128, i);
  }

  /** What is left of a digit in a 64-bit register still lies above all lower digits. */
  lemma DigitIsShifted(d: nat, i: nat)
    requires d < 128 && i < Varint.MAX_VARINT
    ensures exists e: nat :: Varint.Place(d, i) % Varint.TWO_TO_THE_64 == Bits.Shl(e, i * 7)
  {
    if i < 9 {
      PlaceFits(d, i);
      Varint.RemainderOfSmall(Varint.Place(d, i));
      Bits.ShiftIsPlace(d, i);
    } else {
      TenthDigit(d);
      Bits.ShiftIsPlace(d % 2, 9);
      assert Varint.Place(d, i) % Varint.TWO_TO_THE_64 == Bits.Shl(d % 2, i * 7);
    }
  }

  /**
   * Or-ing the shifted seven bits of a byte into the value of the bytes before it gives the value of all
   * of them, cut off at 64 bits; only the tenth byte can lose any.
   */
  lemma SetBits(read: Bytes, byte: Byte)
    requires |read| < Varint.MAX_VARINT
    ensures Bits.Or(Varint.Value(read), Digit(byte, |read|)) == Varint.Value(read + [byte]) % Varint.TWO_TO_THE_64
    ensures |read| + 1 < Varint.MAX_VARINT ==> Varint.Value(read + [byte]) < Varint.TWO_TO_THE_64
  {
    Varint.ValueAppend(read, byte);
    Varint.ValueBound(read);
    OrIsSum(Varint.Value(read), byte, |read|);
  }

  lemma OrIsSum(low: nat, byte: Byte, i: nat)
    requires i < Varint.MAX_VARINT && low < Varint.Pow128(i)
    ensures var sum := low + Varint.Place(byte % 128, i);
            && Bits.Or(low, Digit(byte, i)) == sum % Varint.TWO_TO_THE_64
            && (i < 9 ==> sum < Varint.TWO_TO_THE_64)
  {
    AddDigit(low, byte % 128, i);
    OrShifted(low, byte, i);
  }

  lemma OrShifted(low: nat, byte: Byte, i: nat)
    requires i < Varint.MAX_VARINT && low < Varint.Pow128(i)
    ensures Bits.Or(low, Digit(byte, i)) == low + Varint.Place(byte % 128, i) % Varint.TWO_TO_THE_64
  {
    DigitIsPlace(byte, i);
    DigitIsShifted(byte % 128, i);
    var e: nat :| Varint.Place(byte % 128, i) % Varint.TWO_TO_THE_64 == Bits.Shl(e, i * 7);
    Bits.PowerIsPlace(i);
    Bits.OrDisjoint(low, e, i * 7);
  }

  /** The loop's answer once it meets a byte without continuation bit. */
  lemma LastByte(input: Bytes, i: nat)
    requires i < |input| && i < Varint.MAX_VARINT && input[i] < 128
    requires forall j | 0 <= j < i :: input[j] >= 128
    ensures var value := Bits.Or(Varint.Value(input[..i]), Digit(input[i], i));
            Varint.Read(input) == if value == 0 then Err(Varint.ZeroRun) else Ok(Varint.Prefix(value, i + 1))
  {
    Varint.ContinuationsAt(input, i);
    assert input[..i + 1] == input[..i] + [input[i]];
    SetBits(input[..i], input[i]);
  }

  lemma NextByte(input: Bytes, i: nat)
    requires i < |input| && i + 1 < Varint.MAX_VARINT
    ensures Varint.Value(input[..i + 1]) == Bits.Or(Varint.Value(input[..i]), Digit(input[i], i))
  {
    assert input[..i + 1] == input[..i] + [input[i]];
    SetBits(input[..i], input[i]);
    Varint.RemainderOfSmall(Varint.Value(input[..i + 1]));
  }

  lemma NoLastByte(s: Bytes, i: nat)
    requires i == |s| || i == Varint.MAX_VARINT < |s|
    requires forall j | 0 <= j < i :: s[j] >= 128
    ensures Varint.Read(s) == Err(Varint.Truncated)
  {
    assert Varint.Continuations(s) >= i by {
      ContinuationsAtLeast(s, i);
    }
  }

  lemma {:induction false} ContinuationsAtLeast(s: Bytes, i: nat)
    requires i <= |s| && forall j | 0 <= j < i :: s[j] >= 128
    ensures Varint.Continuations(s) >= i
  {
    if i > 0 {
      ContinuationsAtLeast(s[1..], i - 1);
    }
  }

  // ---------- Encoding ----------

  /** The output of the encoding loop from where it has read `i` samples, the last `run` of them equal. */
  function Write(out: Bytes, samples: seq<Bytes>, i: nat, run: nat, current: Bytes): Bytes
    requires i <= |samples|
    decreases |samples| - i
  {
    if i == |samples| then out + Varint.Shortest(run) + current
    else if samples[i] == current then Write(out, samples, i + 1, run + 1, current)
    else Write(out + Varint.Shortest(run) + current, samples, i + 1, 1, samples[i])
  }

  /** One turn of the loop. */
  lemma WriteStep(out: Bytes, samples: seq<Bytes>, i: nat, run: nat, current: Bytes)
    requires i < |samples|
    ensures Write(out, samples, i, run, current) ==
            if samples[i] == current then Write(out, samples, i + 1, run + 1, current)
            else Write(out + Varint.Shortest(run) + current, samples, i + 1, 1, samples[i])
  {
  }

  lemma {:induction false} WriteRuns(out: Bytes, samples: seq<Bytes>, i: nat, run: nat, current: Bytes)
    requires i <= |samples|
    ensures Write(out, samples, i, run, current) ==
            out + Serialize(Push(Run(run, current), Compress(samples[i..])))
    decreases |samples| - i
  {
    var open := Run(run, current);
    if i == |samples| {
      SerializeCons(open, []);
      assert Flatten([]) == [];
    } else {
      var rest := Compress(samples[i + 1..]);
      assert samples[i..][1..] == samples[i + 1..];
      if samples[i] == current {
        WriteRuns(out, samples, i + 1, run + 1, current);
        PushPush(open, Run(1, current), rest);
      } else {
        var next := Push(Run(1, samples[i]), rest);
        WriteRuns(out + Varint.Shortest(run) + current, samples, i + 1, 1, samples[i]);
        SerializeCons(open, next);
        Regroup(out, Varint.Shortest(run), current, Serialize(next));
      }
    }
  }

  lemma Regroup(a: Bytes, b: Bytes, c: Bytes, d: Bytes)
    ensures a + (b + c + d) == a + b + c + d
  {
  }

  lemma SerializeCons(run: Run<Bytes>, runs: seq<Run<Bytes>>)
    ensures Serialize([run] + runs) == Varint.Shortest(run.count) + run.value + Serialize(runs)
  {
    assert PairsOf([run] + runs)[1..] == PairsOf(([run] + runs)[1..]);
    assert ([run] + runs)[1..] == runs;
  }

  /** Run from its beginning, the loop writes what the encoder is specified to write. */
  lemma WriteIsEncode(packed: Bytes, unitsize: nat)
    requires unitsize > 0
    ensures var samples := Samples(packed, unitsize);
            Encode(packed, unitsize) == if samples == [] then [] else Write([], samples, 1, 1, samples[0])
  {
    var samples := Samples(packed, unitsize);
    if samples != [] {
      WriteRuns([], samples, 1, 1, samples[0]);
    }
  }

  // ---------- Decoding ----------

  /** The answer of the decoding loop once it has produced `out` and `rest` is still to be read. */
  function Unroll(out: Bytes, rest: Bytes, unitsize: nat, samples: nat): Result<Bytes, DecodeError>
    decreases |rest|
  {
    if rest == [] then
      if |out| != samples * unitsize then Err(CountMismatch) else Ok(out)
    else
      match Varint.Read(rest)
      case Err(e) => Err(Length(e))
      case Ok(prefix) =>
        var tail := rest[prefix.size..];
        if |tail| < unitsize then Err(MissingValue)
        else Unroll(out + Join(Repeat(tail[..unitsize], prefix.run)), tail[unitsize..], unitsize, samples)
  }

  /** One turn of the loop. */
  lemma UnrollStep(out: Bytes, longer: Bytes, rest: Bytes, value: Bytes, later: Bytes, unitsize: nat, samples: nat,
                   run: nat, size: nat)
    requires Varint.Read(rest) == Ok(Varint.Prefix(run, size)) && size + unitsize <= |rest|
    requires value == rest[size..][..unitsize] && later == rest[size..][unitsize..]
    requires longer == out + Join(Repeat(value, run))
    ensures Unroll(out, rest, unitsize, samples) == Unroll(longer, later, unitsize, samples)
  {
  }

  function Finish(whole: Bytes, unitsize: nat, samples: nat): Result<Bytes, DecodeError> {
    if |whole| != samples * unitsize then Err(CountMismatch) else Ok(whole)
  }

  lemma {:induction false} UnrollParse(out: Bytes, rest: Bytes, unitsize: nat, samples: nat)
    ensures Parse(rest, unitsize).Err? ==>
              Unroll(out, rest, unitsize, samples) == Err(Parse(rest, unitsize).error)
    ensures Parse(rest, unitsize).Ok? ==>
              Unroll(out, rest, unitsize, samples) ==
              Finish(out + Join(Expand(RunsOf(Parse(rest, unitsize).value))), unitsize, samples)
    decreases |rest|
  {
    var read := Varint.Read(rest);
    if rest == [] {
      assert out + [] == out;
    } else if read.Ok? && |rest| - read.value.size >= unitsize {
      var tail := rest[read.value.size..];
      var value, run, later := tail[..unitsize], read.value.run, tail[unitsize..];
      UnrollParse(out + Join(Repeat(value, run)), later, unitsize, samples);
      if Parse(later, unitsize).Ok? {
        ExpandFront(rest, unitsize, value, run, later);
        Assoc(out, Join(Repeat(value, run)), Join(Expand(RunsOf(Parse(later, unitsize).value))));
      }
    }
  }

  /** The first pair contributes its run, the later ones theirs. */
  lemma ExpandFront(rest: Bytes, unitsize: nat, value: Bytes, run: nat, later: Bytes)
    requires rest != [] && Varint.Read(rest).Ok? && Parse(later, unitsize).Ok?
    requires var prefix := Varint.Read(rest).value;
             && run == prefix.run && |rest| - prefix.size >= unitsize
             && value == rest[prefix.size..][..unitsize] && later == rest[prefix.size..][unitsize..]
    ensures Parse(rest, unitsize).Ok?
    ensures Join(Expand(RunsOf(Parse(rest, unitsize).value))) ==
            Join(Repeat(value, run)) + Join(Expand(RunsOf(Parse(later, unitsize).value)))
  {
    var size := Varint.Read(rest).value.size;
    var pair, pairs := Pair(rest[..size], value), Parse(later, unitsize).value;
    Varint.ReadIffPrefix(rest, size);
    assert Parse(rest, unitsize) == Ok([pair] + pairs);
    assert ([pair] + pairs)[1..] == pairs;
    var runs := RunsOf([pair] + pairs);
    assert runs[0] == Run(run, value) && runs[1..] == RunsOf(pairs);
    JoinAppend(Repeat(value, run), Expand(RunsOf(pairs)));
  }

  /** Run from its beginning, the loop answers what the decoder is specified to answer. */
  lemma UnrollIsDecode(payload: Bytes, unitsize: nat, samples: nat)
    requires unitsize > 0
    ensures Unroll([], payload, unitsize, samples) == Decode(payload, unitsize, samples)
  {
    UnrollParse([], payload, unitsize, samples);
    if Parse(payload, unitsize).Ok? {
      var runs := RunsOf(Parse(payload, unitsize).value);
      FlattenParse(payload, unitsize);
      UniformRuns(Parse(payload, unitsize).value, unitsize);
      ExpandLength(runs);
      JoinLength(Expand(runs), unitsize);
      SameProduct(Total(runs), samples, unitsize);
      assert [] + Join(Expand(runs)) == Join(Expand(runs));
    }
  }

  lemma SameProduct(a: nat, b: nat, u: nat)
    requires u > 0
    ensures a * u == b * u <==> a == b
  {
    DivUnique(a * u, u, a, 0);
    DivUnique(b * u, u, b, 0);
  }

  lemma JoinRepeat(value: Bytes, n: nat)
    ensures Join(Repeat(value, n + 1)) == Join(Repeat(value, n)) + value
  {
    RepeatAdd(value, n, 1);
    assert Repeat(value, 1) == [value];
    JoinAppend(Repeat(value, n), [value]);
    assert Join([value]) == value + Join([]);
  }
}
