/** Byte strings, and the cut of a packed buffer into fixed-size samples. */
module ByteStrings {

  type Byte = b: int | 0 <= b < 256
  type Bytes = seq<Byte>

  lemma Assoc<T>(a: seq<T>, b: seq<T>, c: seq<T>)
    ensures a + (b + c) == a + b + c
  {
  }

  lemma TailOfCons<T>(x: T, s: seq<T>)
    ensures ([x] + s)[0] == x && ([x] + s)[1..] == s
  {
  }

  function Join(parts: seq<Bytes>): Bytes {
    if parts == [] then [] else parts[0] + Join(parts[1..])
  }

  /** True if every sample is exactly `unitsize` bytes wide. */
  predicate Uniform(samples: seq<Bytes>, unitsize: nat) {
    forall s | s in samples :: |s| == unitsize
  }

  /** The whole samples of a buffer; a trailing partial sample is dropped, as `chunks_exact` does. */
  function Samples(packed: Bytes, unitsize: nat): seq<Bytes>
    requires unitsize > 0
  {
    if |packed| < unitsize then [] else [packed[..unitsize]] + Samples(packed[unitsize..], unitsize)
  }

  lemma {:induction false} SamplesUniform(packed: Bytes, unitsize: nat)
    requires unitsize > 0
    ensures Uniform(Samples(packed, unitsize), unitsize)
  {
    if |packed| >= unitsize {
      SamplesUniform(packed[unitsize..], unitsize);
    }
  }

  lemma DivStep(a: nat, u: nat)
    requires 0 < u <= a
    ensures a / u == 1 + (a - u) / u
    ensures a % u == (a - u) % u
  {
    var q, r := (a - u) / u, (a - u) % u;
    assert a == u * (q + 1) + r;
    DivUnique(a, u, q + 1, r);
  }

  lemma DivUnique(a: nat, u: nat, q: nat, r: nat)
    requires u > 0 && r < u && a == u * q + r
    ensures a / u == q && a % u == r
  {
    var d := a / u - q;
    assert u * d == r - a % u;
    assert d >= 1 ==> u * d >= u;
    assert d <= -1 ==> u * d + u <= 0;
  }

  lemma {:induction false} QuotientSmaller(a: nat, u: nat)
    requires u > 0
    ensures 0 <= a / u <= a
  {
    if a < u {
      DivUnique(a, u, 0, a);
    } else {
      DivStep(a, u);
      QuotientSmaller(a - u, u);
    }
  }

  lemma {:induction false} SamplesCount(packed: Bytes, unitsize: nat)
    requires unitsize > 0
    ensures |Samples(packed, unitsize)| == |packed| / unitsize
  {
    if |packed| < unitsize {
      DivUnique(|packed|, unitsize, 0, |packed|);
    } else {
      DivStep(|packed|, unitsize);
      SamplesCount(packed[unitsize..], unitsize);
    }
  }

  lemma MulStep(i: nat, u: nat)
    requires i > 0
    ensures i * u == u + (i - 1) * u
  {
  }

  function Offset(i: nat, unitsize: nat): nat {
    if i == 0 then 0 else unitsize + Offset(i - 1, unitsize)
  }

  lemma {:induction false} OffsetIsProduct(i: nat, unitsize: nat)
    ensures Offset(i, unitsize) == i * unitsize
  {
    if i > 0 {
      OffsetIsProduct(i - 1, unitsize);
      MulStep(i, unitsize);
    }
  }

  lemma SliceOfDrop(s: Bytes, n: nat, i: nat, j: nat)
    requires n <= |s| && i <= j <= |s| - n
    ensures s[n..][i..j] == s[n + i..n + j]
  {
  }

  lemma {:induction false} SampleAtOffset(packed: Bytes, unitsize: nat, i: nat)
    requires unitsize > 0 && i < |Samples(packed, unitsize)|
    ensures Offset(i, unitsize) + unitsize <= |packed|
    ensures Samples(packed, unitsize)[i] == packed[Offset(i, unitsize)..Offset(i, unitsize) + unitsize]
  {
    if i > 0 {
      var at := Offset(i - 1, unitsize);
      SampleAtOffset(packed[unitsize..], unitsize, i - 1);
      SliceOfDrop(packed, unitsize, at, at + unitsize);
    }
  }

  /** Sample `i` lies at byte offset `i * unitsize`. */
  lemma SampleAt(packed: Bytes, unitsize: nat, i: nat)
    requires unitsize > 0 && i < |Samples(packed, unitsize)|
    ensures i * unitsize + unitsize <= |packed|
    ensures Samples(packed, unitsize)[i] == packed[i * unitsize..i * unitsize + unitsize]
  {
    OffsetIsProduct(i, unitsize);
    SampleAtOffset(packed, unitsize, i);
  }

  /** Putting the samples back gives the buffer up to its last whole sample. */
  lemma {:induction false} JoinSamples(packed: Bytes, unitsize: nat)
    requires unitsize > 0
    ensures 0 <= |Samples(packed, unitsize)| * unitsize <= |packed|
    ensures Join(Samples(packed, unitsize)) == packed[..|Samples(packed, unitsize)| * unitsize]
  {
    var n := |Samples(packed, unitsize)|;
    if n > 0 {
      var rest := packed[unitsize..];
      JoinSamples(rest, unitsize);
      MulStep(n, unitsize);
      assert packed[..n * unitsize] == packed[..unitsize] + rest[..(n - 1) * unitsize];
    }
  }

  function SampleCount(packed: Bytes, unitsize: nat): nat
    requires unitsize > 0
  {
    |Samples(packed, unitsize)|
  }

  /** No partial sample at the end. */
  predicate Aligned(packed: Bytes, unitsize: nat)
    requires unitsize > 0
  {
    |packed| % unitsize == 0
  }

  lemma AlignedJoins(packed: Bytes, unitsize: nat)
    requires unitsize > 0
    ensures Aligned(packed, unitsize) <==> Offset(SampleCount(packed, unitsize), unitsize) == |packed|
    ensures Aligned(packed, unitsize) ==> Join(Samples(packed, unitsize)) == packed
  {
    var n := SampleCount(packed, unitsize);
    SamplesCount(packed, unitsize);
    OffsetIsProduct(n, unitsize);
    JoinSamples(packed, unitsize);
    assert |packed| == n * unitsize + |packed| % unitsize;
  }

  lemma {:induction false} OffsetAdd(a: nat, b: nat, unitsize: nat)
    ensures Offset(a + b, unitsize) == Offset(a, unitsize) + Offset(b, unitsize)
  {
    if a > 0 {
      OffsetAdd(a - 1, b, unitsize);
    }
  }

  lemma {:induction false} SamplesOfJoin(samples: seq<Bytes>, unitsize: nat)
    requires unitsize > 0 && Uniform(samples, unitsize)
    ensures Samples(Join(samples), unitsize) == samples
  {
    if samples != [] {
      var joined := Join(samples);
      assert joined[..unitsize] == samples[0] && joined[unitsize..] == Join(samples[1..]);
      SamplesOfJoin(samples[1..], unitsize);
    }
  }

  lemma {:induction false} JoinLength(samples: seq<Bytes>, unitsize: nat)
    requires Uniform(samples, unitsize)
    ensures |Join(samples)| == |samples| * unitsize
  {
    if samples != [] {
      JoinLength(samples[1..], unitsize);
      MulStep(|samples|, unitsize);
    }
  }

  lemma {:induction false} JoinAppend(a: seq<Bytes>, b: seq<Bytes>)
    ensures Join(a + b) == Join(a) + Join(b)
  {
    if a == [] {
      assert a + b == b;
    } else {
      assert (a + b)[1..] == a[1..] + b;
      JoinAppend(a[1..], b);
    }
  }

  /** The buffer up to its last whole sample. */
  function Whole(packed: Bytes, unitsize: nat): Bytes
    requires unitsize > 0
  {
    Join(Samples(packed, unitsize))
  }

  lemma WholeIsPrefix(packed: Bytes, unitsize: nat)
    requires unitsize > 0
    ensures Whole(packed, unitsize) <= packed
    ensures |Whole(packed, unitsize)| == Offset(SampleCount(packed, unitsize), unitsize)
    ensures Whole(packed, unitsize) == packed <==> Aligned(packed, unitsize)
  {
    JoinSamples(packed, unitsize);
    OffsetIsProduct(SampleCount(packed, unitsize), unitsize);
    AlignedJoins(packed, unitsize);
  }

  lemma {:induction false} SamplesOfJoinThen(samples: seq<Bytes>, rest: Bytes, unitsize: nat)
    requires unitsize > 0 && Uniform(samples, unitsize)
    ensures Samples(Join(samples) + rest, unitsize) == samples + Samples(rest, unitsize)
  {
    if samples == [] {
      assert [] + rest == rest;
      assert [] + Samples(rest, unitsize) == Samples(rest, unitsize);
    } else {
      var tail := Join(samples[1..]) + rest;
      Assoc(samples[0], Join(samples[1..]), rest);
      AppendSplit(samples[0], tail);
      SamplesOfJoinThen(samples[1..], rest, unitsize);
      assert samples == [samples[0]] + samples[1..];
      Assoc([samples[0]], samples[1..], Samples(rest, unitsize));
    }
  }

  lemma AppendSplit(a: Bytes, b: Bytes)
    ensures (a + b)[..|a|] == a && (a + b)[|a|..] == b
  {
  }

  /** Cutting a buffer between two samples keeps all of them. */
  lemma WholeAppend(a: Bytes, b: Bytes, unitsize: nat)
    requires unitsize > 0 && Aligned(a, unitsize)
    ensures Whole(a + b, unitsize) == a + Whole(b, unitsize)
    ensures SampleCount(a + b, unitsize) == SampleCount(a, unitsize) + SampleCount(b, unitsize)
  {
    var samples := Samples(a, unitsize);
    AlignedJoins(a, unitsize);
    SamplesUniform(a, unitsize);
    SamplesOfJoinThen(samples, b, unitsize);
    JoinAppend(samples, Samples(b, unitsize));
  }
}
