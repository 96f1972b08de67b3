/**
 * The TRANSITION sample encoding: what a payload means, and what the encoder and
 * decoder of either language have to compute. The loops are in RustEncoding and
 * CppEncoding; both are proved against the functions here.
 */
module Transition {
  import opened Wrappers
  import opened ByteStrings
  import opened RunLength
  import Varint

  datatype DecodeError =
    | ZeroUnitsize
    | Length(error: Varint.VarintError)
    | MissingValue
    | CountMismatch
    | CodecNotDecodable(codec: int)

  /** One run on the wire: the bytes of its length, then the bytes of one sample. */
  datatype Pair = Pair(length: Bytes, value: Bytes)

  predicate ValidPair(pair: Pair, unitsize: nat) {
    && Varint.IsVarint(pair.length)
    && Varint.Value(pair.length) % Varint.TWO_TO_THE_64 != 0
    && |pair.value| == unitsize
  }

  predicate ValidPairs(pairs: seq<Pair>, unitsize: nat) {
    forall p | p in pairs :: ValidPair(p, unitsize)
  }

  function RunOf(pair: Pair): Run<Bytes> {
    Run(Varint.Value(pair.length) % Varint.TWO_TO_THE_64, pair.value)
  }

  function RunsOf(pairs: seq<Pair>): (runs: seq<Run<Bytes>>)
    ensures |runs| == |pairs|
    ensures forall i | 0 <= i < |pairs| :: runs[i] == RunOf(pairs[i])
  {
    if pairs == [] then [] else [RunOf(pairs[0])] + RunsOf(pairs[1..])
  }

  function Flatten(pairs: seq<Pair>): Bytes {
    if pairs == [] then [] else pairs[0].length + pairs[0].value + Flatten(pairs[1..])
  }

  /** Runs as the encoder writes them. */
  function PairsOf(runs: seq<Run<Bytes>>): (pairs: seq<Pair>)
    ensures |pairs| == |runs|
    ensures forall i | 0 <= i < |runs| :: pairs[i] == Pair(Varint.Shortest(runs[i].count), runs[i].value)
  {
    if runs == [] then [] else
      [Pair(Varint.Shortest(runs[0].count), runs[0].value)] + PairsOf(runs[1..])
  }

  function Serialize(runs: seq<Run<Bytes>>): Bytes {
    Flatten(PairsOf(runs))
  }

  function Encode(packed: Bytes, unitsize: nat): Bytes
    requires unitsize > 0
  {
    Serialize(Compress(Samples(packed, unitsize)))
  }

  /** Reads pairs until the payload is used up. */
  function Parse(payload: Bytes, unitsize: nat): (r: Result<seq<Pair>, DecodeError>)
    decreases |payload|
  {
    if payload == [] then Ok([]) else
      match Varint.Read(payload)
      case Err(e) => Err(Length(e))
      case Ok(prefix) =>
        var tail := payload[prefix.size..];
        if |tail| < unitsize then Err(MissingValue) else
          match Parse(tail[unitsize..], unitsize)
          case Err(e) => Err(e)
          case Ok(pairs) => Ok([Pair(payload[..prefix.size], tail[..unitsize])] + pairs)
  }

  function Decode(payload: Bytes, unitsize: nat, samples: nat): Result<Bytes, DecodeError> {
    if unitsize == 0 then Err(ZeroUnitsize) else
      match Parse(payload, unitsize)
      case Err(e) => Err(e)
      case Ok(pairs) =>
        var runs := RunsOf(pairs);
        if Total(runs) != samples then Err(CountMismatch)
        else Ok(Join(Expand(runs)))
  }

  // ---------- The grammar of payloads ----------

  lemma {:induction false} FlattenAppend(a: seq<Pair>, b: seq<Pair>)
    ensures Flatten(a + b) == Flatten(a) + Flatten(b)
  {
    if a == [] {
      assert a + b == b;
    } else {
      assert (a + b)[1..] == a[1..] + b;
      FlattenAppend(a[1..], b);
    }
  }

  lemma RunsOfAppend(a: seq<Pair>, b: seq<Pair>)
    ensures RunsOf(a + b) == RunsOf(a) + RunsOf(b)
  {
  }

  lemma ParseFront(p: Pair, rest: Bytes, unitsize: nat)
    requires ValidPairs([p], unitsize) && Parse(rest, unitsize).Ok?
    ensures Parse(p.length + (p.value + rest), unitsize) == Ok([p] + Parse(rest, unitsize).value)
  {
    assert p in [p];
    Varint.ReadAppend(p.length, p.value + rest);
    AppendSplit(p.length, p.value + rest);
    AppendSplit(p.value, rest);
  }

  /** Writing pairs down and parsing them finds the same pairs: the format is unambiguous. */
  lemma {:induction false} ParseFlatten(pairs: seq<Pair>, unitsize: nat)
    requires ValidPairs(pairs, unitsize)
    ensures Parse(Flatten(pairs), unitsize) == Ok(pairs)
  {
    if pairs != [] {
      var p, rest := pairs[0], Flatten(pairs[1..]);
      assert p in pairs;
      ParseFlatten(pairs[1..], unitsize);
      ParseFront(p, rest, unitsize);
      Assoc(p.length, p.value, rest);
      assert pairs == [p] + pairs[1..];
    }
  }

  lemma SplitTwice(s: Bytes, i: nat, j: nat)
    requires i + j <= |s|
    ensures s == s[..i] + s[i..][..j] + s[i..][j..]
  {
  }

  /** Every accepted payload is the flattening of the pairs it parses to. */
  lemma {:induction false} FlattenParse(payload: Bytes, unitsize: nat)
    requires Parse(payload, unitsize).Ok?
    ensures ValidPairs(Parse(payload, unitsize).value, unitsize)
    ensures Flatten(Parse(payload, unitsize).value) == payload
    decreases |payload|
  {
    if payload != [] {
      var size := Varint.Read(payload).value.size;
      var tail := payload[size..];
      var pair, pairs := Pair(payload[..size], tail[..unitsize]), Parse(tail[unitsize..], unitsize).value;
      Varint.ReadIffPrefix(payload, size);
      FlattenParse(tail[unitsize..], unitsize);
      assert Parse(payload, unitsize) == Ok([pair] + pairs);
      assert ([pair] + pairs)[1..] == pairs;
      SplitTwice(payload, size, unitsize);
    }
  }

  lemma UniformRuns(pairs: seq<Pair>, unitsize: nat)
    requires ValidPairs(pairs, unitsize)
    ensures Uniform(Expand(RunsOf(pairs)), unitsize)
  {
    forall i | 0 <= i < |pairs| ensures |RunsOf(pairs)[i].value| == unitsize {
      assert pairs[i] in pairs;
    }
    UniformExpand(RunsOf(pairs), unitsize);
  }

  lemma {:induction false} UniformExpand(runs: seq<Run<Bytes>>, unitsize: nat)
    requires forall r | r in runs :: |r.value| == unitsize
    ensures Uniform(Expand(runs), unitsize)
  {
    if runs != [] {
      UniformExpand(runs[1..], unitsize);
    }
  }

  /**
   * What the decoder accepts: exactly the payloads that split into (nonzero length of at most ten
   * bytes, one sample) pairs whose run lengths add up to the declared count; what it returns is each
   * sample repeated by its run length.
   */
  lemma DecodeAccepts(payload: Bytes, unitsize: nat, samples: nat, out: Bytes)
    requires unitsize > 0
    ensures Decode(payload, unitsize, samples) == Ok(out) <==>
            exists pairs :: && ValidPairs(pairs, unitsize)
                            && Flatten(pairs) == payload
                            && Total(RunsOf(pairs)) == samples
                            && Join(Expand(RunsOf(pairs))) == out
    ensures Decode(payload, unitsize, samples) == Ok(out) ==> |out| == samples * unitsize
  {
    if Parse(payload, unitsize).Ok? {
      var pairs := Parse(payload, unitsize).value;
      FlattenParse(payload, unitsize);
      UniformRuns(pairs, unitsize);
      JoinLength(Expand(RunsOf(pairs)), unitsize);
      ExpandLength(RunsOf(pairs));
    }
    forall pairs | ValidPairs(pairs, unitsize) && Flatten(pairs) == payload
      ensures Parse(payload, unitsize) == Ok(pairs)
    {
      ParseFlatten(pairs, unitsize);
    }
  }

  /** Where parsing goes wrong: after some whole pairs comes one whose length or value cannot be read. */
  lemma {:induction false} ParseFails(payload: Bytes, unitsize: nat) returns (pairs: seq<Pair>, rest: Bytes)
    requires Parse(payload, unitsize).Err?
    ensures ValidPairs(pairs, unitsize) && Flatten(pairs) + rest == payload && rest != []
    ensures Parse(payload, unitsize) == FirstError(rest, unitsize)
    decreases |payload|
  {
    var read := Varint.Read(payload);
    if read.Err? || |payload| - read.value.size < unitsize {
      pairs, rest := [], payload;
      assert [] + payload == payload;
    } else {
      var size := read.value.size;
      var tail := payload[size..];
      var pair := Pair(payload[..size], tail[..unitsize]);
      var later;
      later, rest := ParseFails(tail[unitsize..], unitsize);
      pairs := [pair] + later;
      Varint.ReadIffPrefix(payload, size);
      assert pairs[1..] == later;
      SplitTwice(payload, size, unitsize);
      Regrouped(pair.length, pair.value, Flatten(later), rest);
    }
  }

  lemma Regrouped(a: Bytes, b: Bytes, c: Bytes, d: Bytes)
    ensures a + b + c + d == a + b + (c + d)
  {
  }

  /** What is wrong with a pair at the front of `rest`, if anything is. */
  function FirstError(rest: Bytes, unitsize: nat): Result<seq<Pair>, DecodeError> {
    match Varint.Read(rest)
    case Err(e) => Err(Length(e))
    case Ok(prefix) => if |rest| - prefix.size < unitsize then Err(MissingValue) else Ok([])
  }

  lemma {:induction false} ParseStops(pairs: seq<Pair>, rest: Bytes, unitsize: nat)
    requires ValidPairs(pairs, unitsize) && rest != [] && FirstError(rest, unitsize).Err?
    ensures Parse(Flatten(pairs) + rest, unitsize) == FirstError(rest, unitsize)
    decreases |pairs|
  {
    if pairs == [] {
      assert [] + rest == rest;
    } else {
      var p, tail := pairs[0], Flatten(pairs[1..]) + rest;
      assert p in pairs;
      ParseStops(pairs[1..], rest, unitsize);
      Regrouped(p.length, p.value, Flatten(pairs[1..]), rest);
      Assoc(p.length, p.value, tail);
      Varint.ReadAppend(p.length, p.value + tail);
      AppendSplit(p.length, p.value + tail);
      AppendSplit(p.value, tail);
    }
  }

  /** After some whole pairs comes a length that cannot be read. */
  ghost predicate BadLength(payload: Bytes, unitsize: nat, e: Varint.VarintError) {
    exists pairs, rest :: && ValidPairs(pairs, unitsize) && Flatten(pairs) + rest == payload
                          && rest != [] && Varint.Read(rest) == Err(e)
  }

  /** After some whole pairs comes a length with less than a sample behind it. */
  ghost predicate CutShort(payload: Bytes, unitsize: nat) {
    exists pairs, rest :: && ValidPairs(pairs, unitsize) && Flatten(pairs) + rest == payload
                          && rest != [] && Varint.Read(rest).Ok? && |rest| - Varint.Read(rest).value.size < unitsize
  }

  /** Whole pairs only, but their runs do not add up to the declared count. */
  ghost predicate Miscounted(payload: Bytes, unitsize: nat, samples: nat) {
    exists pairs :: ValidPairs(pairs, unitsize) && Flatten(pairs) == payload && Total(RunsOf(pairs)) != samples
  }

  /** Which error a refused payload gets, exactly. */
  lemma DecodeRefuses(payload: Bytes, unitsize: nat, samples: nat)
    ensures Decode(payload, unitsize, samples) == Err(ZeroUnitsize) <==> unitsize == 0
    ensures unitsize > 0 ==>
              && (forall e :: Decode(payload, unitsize, samples) == Err(Length(e)) <==> BadLength(payload, unitsize, e))
              && (Decode(payload, unitsize, samples) == Err(MissingValue) <==> CutShort(payload, unitsize))
              && (Decode(payload, unitsize, samples) == Err(CountMismatch) <==> Miscounted(payload, unitsize, samples))
  {
    ParseErrorKinds(payload, unitsize);
    if unitsize > 0 {
      if Decode(payload, unitsize, samples).Err? {
        RefusedWith(payload, unitsize, samples);
      }
      forall e | BadLength(payload, unitsize, e) ensures Decode(payload, unitsize, samples) == Err(Length(e)) {
        var pairs, rest :| && ValidPairs(pairs, unitsize) && Flatten(pairs) + rest == payload
                           && rest != [] && Varint.Read(rest) == Err(e);
        ParseStops(pairs, rest, unitsize);
      }
      if CutShort(payload, unitsize) {
        var pairs, rest :| && ValidPairs(pairs, unitsize) && Flatten(pairs) + rest == payload && rest != []
                           && Varint.Read(rest).Ok? && |rest| - Varint.Read(rest).value.size < unitsize;
        ParseStops(pairs, rest, unitsize);
      }
      forall pairs | ValidPairs(pairs, unitsize) && Flatten(pairs) == payload
        ensures Parse(payload, unitsize) == Ok(pairs)
      {
        ParseFlatten(pairs, unitsize);
      }
    }
  }

  lemma RefusedWith(payload: Bytes, unitsize: nat, samples: nat)
    requires unitsize > 0 && Decode(payload, unitsize, samples).Err?
    ensures match Decode(payload, unitsize, samples).error
            case Length(e) => BadLength(payload, unitsize, e)
            case MissingValue => CutShort(payload, unitsize)
            case CountMismatch => Miscounted(payload, unitsize, samples)
            case _ => false
  {
    if Parse(payload, unitsize).Ok? {
      FlattenParse(payload, unitsize);
      assert Flatten(Parse(payload, unitsize).value) == payload;
    } else {
      var pairs, rest := ParseFails(payload, unitsize);
      assert Flatten(pairs) + rest == payload;
    }
  }

  /** Accepted payloads concatenate, and so do the samples they stand for. */
  lemma DecodeConcat(p1: Bytes, p2: Bytes, unitsize: nat, n1: nat, n2: nat)
    requires Decode(p1, unitsize, n1).Ok? && Decode(p2, unitsize, n2).Ok?
    ensures Decode(p1 + p2, unitsize, n1 + n2) ==
            Ok(Decode(p1, unitsize, n1).value + Decode(p2, unitsize, n2).value)
  {
    var a, b := Parse(p1, unitsize).value, Parse(p2, unitsize).value;
    FlattenParse(p1, unitsize);
    FlattenParse(p2, unitsize);
    FlattenAppend(a, b);
    RunsOfAppend(a, b);
    ParseFlatten(a + b, unitsize);
    ExpandAppend(RunsOf(a), RunsOf(b));
    JoinAppend(Expand(RunsOf(a)), Expand(RunsOf(b)));
  }

  // ---------- The encoder's output ----------

  predicate Encodable(runs: seq<Run<Bytes>>, unitsize: nat) {
    forall r | r in runs :: 0 < r.count < Varint.TWO_TO_THE_64 && |r.value| == unitsize
  }

  lemma {:induction false} SerializeParses(runs: seq<Run<Bytes>>, unitsize: nat)
    requires Encodable(runs, unitsize)
    ensures ValidPairs(PairsOf(runs), unitsize)
    ensures RunsOf(PairsOf(runs)) == runs
    ensures Parse(Serialize(runs), unitsize) == Ok(PairsOf(runs))
  {
    forall i | 0 <= i < |runs|
      ensures ValidPair(PairsOf(runs)[i], unitsize)
      ensures RunOf(PairsOf(runs)[i]) == runs[i]
    {
      assert runs[i] in runs;
      Varint.ShortestIsVarint(runs[i].count);
      Varint.RemainderOfSmall(runs[i].count);
    }
    ParseFlatten(PairsOf(runs), unitsize);
  }

  lemma {:induction false} CompressBounded(s: seq<Bytes>, unitsize: nat)
    requires Uniform(s, unitsize)
    ensures forall r | r in Compress(s) :: 0 < r.count <= |s| && |r.value| == unitsize
  {
    if s != [] {
      CompressBounded(s[1..], unitsize);
    }
  }

  lemma EncodeParses(packed: Bytes, unitsize: nat)
    requires unitsize > 0 && |packed| / unitsize < Varint.TWO_TO_THE_64
    ensures Encodable(Compress(Samples(packed, unitsize)), unitsize)
    ensures Parse(Encode(packed, unitsize), unitsize) == Ok(PairsOf(Compress(Samples(packed, unitsize))))
  {
    SamplesCount(packed, unitsize);
    SamplesUniform(packed, unitsize);
    CompressBounded(Samples(packed, unitsize), unitsize);
    SerializeParses(Compress(Samples(packed, unitsize)), unitsize);
  }

  /** Decoding what was encoded gives every whole sample of the buffer back. */
  lemma RoundTrip(packed: Bytes, unitsize: nat)
    requires unitsize > 0 && |packed| / unitsize < Varint.TWO_TO_THE_64
    ensures 0 <= |packed| / unitsize * unitsize <= |packed|
    ensures Decode(Encode(packed, unitsize), unitsize, |packed| / unitsize) ==
            Ok(packed[..|packed| / unitsize * unitsize])
  {
    var samples := Samples(packed, unitsize);
    EncodeParses(packed, unitsize);
    SerializeParses(Compress(samples), unitsize);
    ExpandCompress(samples);
    SamplesCount(packed, unitsize);
    JoinSamples(packed, unitsize);
  }

  lemma AlignedWhole(packed: Bytes, unitsize: nat)
    requires unitsize > 0
    ensures 0 <= |packed| / unitsize * unitsize <= |packed|
    ensures packed[..|packed| / unitsize * unitsize] == packed <==> |packed| % unitsize == 0
  {
    assert |packed| == |packed| / unitsize * unitsize + |packed| % unitsize;
  }

  lemma EncodeInjective(p: Bytes, q: Bytes, unitsize: nat)
    requires unitsize > 0 && |p| % unitsize == 0 && |q| % unitsize == 0
    requires |p| / unitsize < Varint.TWO_TO_THE_64 && |q| / unitsize < Varint.TWO_TO_THE_64
    requires Encode(p, unitsize) == Encode(q, unitsize)
    ensures p == q
  {
    RoundTrip(p, unitsize);
    RoundTrip(q, unitsize);
    AlignedWhole(p, unitsize);
    AlignedWhole(q, unitsize);
  }

  // ---------- Canonical payloads ----------

  /** Shortest lengths only, and no two neighbouring pairs with the same sample. */
  predicate Canonical(pairs: seq<Pair>) {
    && (forall p | p in pairs :: Varint.IsShortest(p.length))
    && Maximal(RunsOf(pairs))
  }

  lemma DecodedSamples(payload: Bytes, unitsize: nat, samples: nat)
    requires Decode(payload, unitsize, samples).Ok?
    ensures Samples(Decode(payload, unitsize, samples).value, unitsize)
         == Expand(RunsOf(Parse(payload, unitsize).value))
  {
    FlattenParse(payload, unitsize);
    UniformRuns(Parse(payload, unitsize).value, unitsize);
    SamplesOfJoin(Expand(RunsOf(Parse(payload, unitsize).value)), unitsize);
  }

  lemma ShortestPair(pair: Pair, unitsize: nat)
    requires ValidPair(pair, unitsize)
    ensures Varint.IsShortest(pair.length) <==> Varint.Shortest(RunOf(pair).count) == pair.length
  {
    Varint.ShortestIffFixed(pair.length);
  }

  lemma CanonicalPairsOfRuns(pairs: seq<Pair>, unitsize: nat)
    requires ValidPairs(pairs, unitsize) && Canonical(pairs)
    ensures PairsOf(RunsOf(pairs)) == pairs
  {
    forall i | 0 <= i < |pairs| ensures PairsOf(RunsOf(pairs))[i] == pairs[i] {
      assert pairs[i] in pairs;
      ShortestPair(pairs[i], unitsize);
    }
  }

  lemma PairsOfRunsCanonical(runs: seq<Run<Bytes>>, unitsize: nat)
    requires Encodable(runs, unitsize) && Maximal(runs)
    ensures Canonical(PairsOf(runs))
  {
    SerializeParses(runs, unitsize);
    forall p | p in PairsOf(runs) ensures Varint.IsShortest(p.length) {
      var i :| 0 <= i < |runs| && PairsOf(runs)[i] == p;
      assert runs[i] in runs;
      Varint.ShortestIsVarint(runs[i].count);
    }
  }

  /**
   * Re-encoding an accepted payload changes nothing exactly when every length is a shortest varint
   * and no two neighbouring runs carry the same sample.
   */
  lemma FixedPointIffCanonical(payload: Bytes, unitsize: nat, samples: nat)
    requires Decode(payload, unitsize, samples).Ok? && samples < Varint.TWO_TO_THE_64
    ensures Encode(Decode(payload, unitsize, samples).value, unitsize) == payload <==>
            Canonical(Parse(payload, unitsize).value)
  {
    var out := Decode(payload, unitsize, samples).value;
    var pairs := Parse(payload, unitsize).value;
    var runs := Compress(Expand(RunsOf(pairs)));
    FlattenParse(payload, unitsize);
    DecodedSamples(payload, unitsize, samples);
    if Canonical(pairs) {
      CanonicalPairsOfRuns(pairs, unitsize);
      CompressExpand(RunsOf(pairs));
    }
    if Encode(out, unitsize) == payload {
      ExpandLength(RunsOf(pairs));
      UniformRuns(pairs, unitsize);
      CompressBounded(Expand(RunsOf(pairs)), unitsize);
      SerializeParses(runs, unitsize);
      CompressMaximal(Expand(RunsOf(pairs)));
      PairsOfRunsCanonical(runs, unitsize);
    }
  }

  /** The encoder's own output is canonical. */
  lemma EncodeCanonical(packed: Bytes, unitsize: nat)
    requires unitsize > 0 && |packed| / unitsize < Varint.TWO_TO_THE_64
    ensures Parse(Encode(packed, unitsize), unitsize).Ok?
    ensures Canonical(Parse(Encode(packed, unitsize), unitsize).value)
  {
    var runs := Compress(Samples(packed, unitsize));
    EncodeParses(packed, unitsize);
    SerializeParses(runs, unitsize);
    CompressMaximal(Samples(packed, unitsize));
    PairsOfRunsCanonical(runs, unitsize);
  }

  /** A payload error is never a codec error. */
  lemma {:induction false} ParseErrorKinds(payload: Bytes, unitsize: nat)
    ensures Parse(payload, unitsize).Err? ==>
            Parse(payload, unitsize).error.Length? || Parse(payload, unitsize).error.MissingValue?
    decreases |payload|
  {
    var read := Varint.Read(payload);
    if payload != [] && read.Ok? && |payload| - read.value.size >= unitsize {
      ParseErrorKinds(payload[read.value.size..][unitsize..], unitsize);
    }
  }

  // ---------- Sizes ----------

  function Cost(runs: seq<Run<Bytes>>, unitsize: nat): nat {
    if runs == [] then 0 else
      |Varint.Shortest(runs[0].count)| + unitsize + Cost(runs[1..], unitsize)
  }

  lemma {:induction false} SerializeLength(runs: seq<Run<Bytes>>, unitsize: nat)
    requires forall r | r in runs :: |r.value| == unitsize
    ensures |Serialize(runs)| == Cost(runs, unitsize)
  {
    if runs != [] {
      SerializeLength(runs[1..], unitsize);
      assert PairsOf(runs)[1..] == PairsOf(runs[1..]);
    }
  }

  /** Compressing an expansion never costs more than the runs it came from, and less if it merges any. */
  lemma {:induction false} CompressCheaper(runs: seq<Run<Bytes>>, unitsize: nat)
    requires unitsize > 0 && forall i | 0 <= i < |runs| :: runs[i].count > 0
    ensures Cost(Compress(Expand(runs)), unitsize) <= Cost(runs, unitsize)
    ensures Cost(Compress(Expand(runs)), unitsize) == Cost(runs, unitsize) ==> Compress(Expand(runs)) == runs
  {
    if runs != [] {
      var rest := Compress(Expand(runs[1..]));
      CompressCheaper(runs[1..], unitsize);
      CompressRepeat(runs[0].value, runs[0].count, Expand(runs[1..]));
      CompressMaximal(Expand(runs[1..]));
      if rest != [] && rest[0].value == runs[0].value {
        Varint.Subadditive(runs[0].count, rest[0].count);
      }
    }
  }

  /** The cost of the runs a payload stands for, written shortest, is at most its own length. */
  lemma {:induction false} PairsCost(pairs: seq<Pair>, unitsize: nat)
    requires ValidPairs(pairs, unitsize)
    ensures Cost(RunsOf(pairs), unitsize) <= |Flatten(pairs)|
  {
    if pairs != [] {
      assert pairs[0] in pairs;
      Varint.ShortestIsShortest(pairs[0].length);
      PairsCost(pairs[1..], unitsize);
      assert RunsOf(pairs)[1..] == RunsOf(pairs[1..]);
    }
  }

  /**
   * The encoder is optimal: no accepted payload for the same samples is shorter than its output, and
   * one that is no longer consists of the very same runs.
   */
  lemma EncodeMinimal(payload: Bytes, unitsize: nat, samples: nat)
    requires Decode(payload, unitsize, samples).Ok?
    ensures |Encode(Decode(payload, unitsize, samples).value, unitsize)| <= |payload|
    ensures |Encode(Decode(payload, unitsize, samples).value, unitsize)| == |payload| ==>
            RunsOf(Parse(payload, unitsize).value) ==
            Compress(Samples(Decode(payload, unitsize, samples).value, unitsize))
  {
    var pairs := Parse(payload, unitsize).value;
    var expanded := Expand(RunsOf(pairs));
    FlattenParse(payload, unitsize);
    DecodedSamples(payload, unitsize, samples);
    forall i | 0 <= i < |RunsOf(pairs)| ensures RunsOf(pairs)[i].count > 0 {
      assert pairs[i] in pairs;
    }
    UniformRuns(pairs, unitsize);
    CompressBounded(expanded, unitsize);
    SerializeLength(Compress(expanded), unitsize);
    CompressCheaper(RunsOf(pairs), unitsize);
    PairsCost(pairs, unitsize);
  }

  lemma OneRunCost(length: nat, count: nat, rest: nat, u: nat)
    requires u > 0 && 0 < length <= count && (count > 1 ==> length < count)
    ensures length + u + rest * (u + 1) <= (count + rest) * (u + 1)
    ensures length + u + rest * (u + 1) == (count + rest) * (u + 1) <==> count == 1
  {
    assert (count + rest) * (u + 1) == count * (u + 1) + rest * (u + 1);
    assert count > 1 ==> count * (u + 1) > count + u;
  }

  lemma {:induction false} CostBound(runs: seq<Run<Bytes>>, unitsize: nat)
    requires unitsize > 0 && forall i | 0 <= i < |runs| :: runs[i].count > 0
    ensures Cost(runs, unitsize) <= Total(runs) * (unitsize + 1)
    ensures Cost(runs, unitsize) == Total(runs) * (unitsize + 1) <==>
            forall i | 0 <= i < |runs| :: runs[i].count == 1
  {
    if runs != [] {
      var tail, c := runs[1..], runs[0].count;
      assert forall i | 0 <= i < |tail| :: tail[i] == runs[i + 1];
      assert forall i | 0 < i < |runs| :: runs[i] == tail[i - 1];
      CostBound(tail, unitsize);
      Varint.ShortestAtMostValue(c);
      OneRunCost(|Varint.Shortest(c)|, c, Total(tail), unitsize);
    }
  }

  /**
   * The worst case costs one byte per sample on top of the samples, and it is reached exactly when
   * no two neighbouring samples agree.
   */
  lemma EncodeSize(packed: Bytes, unitsize: nat)
    requires unitsize > 0
    ensures |Encode(packed, unitsize)| <= |packed| + |packed| / unitsize
    ensures |Encode(packed, unitsize)| == |packed| / unitsize * (unitsize + 1) <==>
            NeighboursDiffer(Samples(packed, unitsize))
  {
    var samples := Samples(packed, unitsize);
    var runs := Compress(samples);
    SamplesUniform(packed, unitsize);
    CompressBounded(samples, unitsize);
    assert forall i | 0 <= i < |runs| :: runs[i] in runs;
    SerializeLength(runs, unitsize);
    CostBound(runs, unitsize);
    ExpandCompress(samples);
    SamplesCount(packed, unitsize);
    CompressSingles(samples);
    JoinSamples(packed, unitsize);
    assert |samples| * (unitsize + 1) == |samples| * unitsize + |samples|;
  }
}
