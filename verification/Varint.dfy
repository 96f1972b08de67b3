/** Base-128 varints as the run-length coder writes and reads them. */
module Varint {
  import opened Wrappers
  import opened ByteStrings

  const TWO_TO_THE_64: nat := 0x1_0000_0000_0000_0000

  /** A varint of more bytes than this is refused. */
  const MAX_VARINT: nat := 10

  datatype VarintError = Truncated | ZeroRun

  /** A run length and the number of bytes it took. */
  datatype Prefix = Prefix(run: nat, size: nat)

  function Pow128(i: nat): (p: nat)
    ensures p > 0
  {
    if i == 0 then 1 else 128 * Pow128(i - 1)
  }

  /** The shortest encoding of `value`: seven bits a byte, least significant first. */
  function Shortest(value: nat): (s: Bytes)
    ensures |s| > 0
  {
    if value < 128 then [value] else [value % 128 + 128] + Shortest(value / 128)
  }

  /** What the low seven bits of a byte string add up to, without any width limit. */
  function Value(s: Bytes): nat {
    if s == [] then 0 else s[0] % 128 + 128 * Value(s[1..])
  }

  function Continuations(s: Bytes): (n: nat)
    ensures n <= |s|
    ensures forall i | 0 <= i < n :: s[i] >= 128
    ensures n < |s| ==> s[n] < 128
  {
    if s == [] || s[0] < 128 then 0 else 1 + Continuations(s[1..])
  }

  /** The outcome of reading one run length off the front of `s`. */
  function Read(s: Bytes): (r: Result<Prefix, VarintError>)
    ensures r.Ok? ==> 0 < r.value.size <= |s| && 0 < r.value.run < TWO_TO_THE_64
  {
    var n := Continuations(s);
    if n == |s| || n >= MAX_VARINT then Err(Truncated)
    else
      var run := Value(s[..n + 1]) % TWO_TO_THE_64;
      if run == 0 then Err(ZeroRun) else Ok(Prefix(run, n + 1))
  }

  /** One complete varint: continuation bits on every byte but the last. */
  predicate IsVarint(s: Bytes) {
    && 1 <= |s| <= MAX_VARINT
    && s[|s| - 1] < 128
    && forall i | 0 <= i < |s| - 1 :: s[i] >= 128
  }

  /** A complete varint no byte of which could be saved, and none of whose bits is lost to 64 bits. */
  predicate IsShortest(s: Bytes) {
    && IsVarint(s)
    && (|s| > 1 ==> s[|s| - 1] != 0)
    && Value(s) < TWO_TO_THE_64
  }

  lemma {:induction false} ContinuationsAt(s: Bytes, n: nat)
    requires n < |s| && s[n] < 128 && forall i | 0 <= i < n :: s[i] >= 128
    ensures Continuations(s) == n
  {
    if n > 0 {
      ContinuationsAt(s[1..], n - 1);
    }
  }

  /** Reading succeeds exactly when a prefix is a complete varint with a nonzero 64-bit value. */
  lemma ReadIffPrefix(s: Bytes, n: nat)
    requires n <= |s|
    ensures (Read(s).Ok? && Read(s).value.size == n) <==>
            (IsVarint(s[..n]) && Value(s[..n]) % TWO_TO_THE_64 != 0)
    ensures Read(s).Ok? && Read(s).value.size == n ==>
            Read(s).value.run == Value(s[..n]) % TWO_TO_THE_64
  {
    if IsVarint(s[..n]) {
      assert s[..n][n - 1] == s[n - 1];
      assert forall i | 0 <= i < n - 1 :: s[i] == s[..n][i] >= 128;
      ContinuationsAt(s, n - 1);
    }
  }

  /** Which of the two errors it is when reading fails. */
  lemma ReadErrors(s: Bytes)
    ensures Read(s) == Err(ZeroRun) <==>
            exists n :: 0 <= n <= |s| && IsVarint(s[..n]) && Value(s[..n]) % TWO_TO_THE_64 == 0
    ensures Read(s) == Err(Truncated) <==> forall n | 0 <= n <= |s| :: !IsVarint(s[..n])
  {
    var c := Continuations(s);
    forall n | 0 <= n <= |s| && IsVarint(s[..n]) ensures c == n - 1 {
      assert s[..n][n - 1] == s[n - 1];
      assert forall i | 0 <= i < n - 1 :: s[i] == s[..n][i] >= 128;
      ContinuationsAt(s, n - 1);
    }
    if c < |s| && c < MAX_VARINT {
      assert s[..c + 1][c] == s[c];
      assert IsVarint(s[..c + 1]);
    }
  }

  /** What was read does not depend on what follows it. */
  lemma ReadAppend(v: Bytes, rest: Bytes)
    requires IsVarint(v) && Value(v) % TWO_TO_THE_64 != 0
    ensures Read(v + rest) == Ok(Prefix(Value(v) % TWO_TO_THE_64, |v|))
  {
    assert (v + rest)[..|v|] == v;
    ReadIffPrefix(v + rest, |v|);
  }

  lemma {:induction false} ValueOfShortest(value: nat)
    ensures Value(Shortest(value)) == value
    ensures Shortest(value)[|Shortest(value)| - 1] < 128
    ensures forall i | 0 <= i < |Shortest(value)| - 1 :: Shortest(value)[i] >= 128
    ensures |Shortest(value)| > 1 ==> Shortest(value)[|Shortest(value)| - 1] != 0
  {
    if value >= 128 {
      var tail := Shortest(value / 128);
      ValueOfShortest(value / 128);
      assert Shortest(value) == [value % 128 + 128] + tail;
      assert Shortest(value)[1..] == tail;
      if |tail| == 1 {
        assert Value(tail) == tail[0] % 128 + 128 * Value([]);
      }
    }
  }

  /** A value below 128^n needs at most n bytes, and one at or above it needs more. */
  lemma {:induction false} ShortestLength(value: nat, n: nat)
    requires n > 0
    ensures |Shortest(value)| <= n <==> value < Pow128(n)
  {
    if value < 128 {
      PowMonotone(1, n);
    } else if n > 1 {
      ShortestLength(value / 128, n - 1);
    } else {
      assert Pow128(1) == 128 * Pow128(0);
    }
  }

  lemma {:induction false} PowMonotone(a: nat, b: nat)
    requires a <= b
    ensures Pow128(a) <= Pow128(b)
    decreases b
  {
    if a < b {
      PowMonotone(a, b - 1);
    }
  }

  lemma PowTable()
    ensures Pow128(9) == 0x8000_0000_0000_0000
    ensures Pow128(10) == 0x40_0000_0000_0000_0000
  {
    assert Pow128(3) == 0x20_0000;
    assert Pow128(6) == 0x400_0000_0000;
    assert Pow128(9) == 0x8000_0000_0000_0000;
  }

  lemma {:induction false} ValueBound(s: Bytes)
    ensures Value(s) < Pow128(|s|)
  {
    if s != [] {
      ValueBound(s[1..]);
    }
  }

  /** Digit `d` in position `i`. */
  function Place(d: nat, i: nat): nat {
    if i == 0 then d else 128 * Place(d, i - 1)
  }

  lemma {:induction false} PlaceBound(d: nat, i: nat)
    requires d < 128
    ensures Place(d, i) + Pow128(i) <= Pow128(i + 1)
  {
    if i > 0 {
      PlaceBound(d, i - 1);
    }
  }

  lemma {:induction false} PlaceStep(d: nat, i: nat, p: nat)
    requires Place(d, i) == d * p
    ensures Place(d, i + 3) == d * (p * 0x20_0000)
  {
    assert Place(d, i + 1) == 128 * Place(d, i);
    assert Place(d, i + 2) == 128 * Place(d, i + 1);
    assert Place(d, i + 3) == 128 * Place(d, i + 2);
  }

  lemma TenthPlace(d: nat)
    ensures Place(d, 9) == d * 0x8000_0000_0000_0000
  {
    PlaceStep(d, 0, 1);
    PlaceStep(d, 3, 0x20_0000);
    PlaceStep(d, 6, 0x400_0000_0000);
  }

  lemma {:induction false} ValueAppend(s: Bytes, b: Byte)
    ensures Value(s + [b]) == Value(s) + Place(b % 128, |s|)
  {
    if s == [] {
      assert s + [b] == [b];
      assert Value([b]) == b % 128 + 128 * Value([]);
    } else {
      assert (s + [b])[1..] == s[1..] + [b];
      ValueAppend(s[1..], b);
    }
  }

  /** A value below 2^64 is written in at most ten bytes, so the reader takes it back. */
  lemma ShortestIsVarint(value: nat)
    requires value < TWO_TO_THE_64
    ensures IsShortest(Shortest(value)) && Value(Shortest(value)) == value
  {
    PowTable();
    ShortestLength(value, MAX_VARINT);
    ValueOfShortest(value);
  }

  /** Any two strings of the same digits and shape agree: the shortest encoding is unique. */
  lemma {:induction false} ShortestUnique(s: Bytes)
    requires |s| > 0 && s[|s| - 1] < 128 && forall i | 0 <= i < |s| - 1 :: s[i] >= 128
    requires |s| > 1 ==> s[|s| - 1] != 0
    ensures Shortest(Value(s)) == s
    ensures |s| > 1 ==> Value(s) >= 128
  {
    if |s| == 1 {
      assert Value(s) == s[0] + 128 * Value([]);
    } else {
      var tail := s[1..];
      ShortestUnique(tail);
      if |tail| == 1 {
        assert Value(tail) == tail[0] + 128 * Value([]);
      }
      assert Value(tail) > 0;
    }
  }

  lemma RemainderOfSmall(value: nat)
    requires value < TWO_TO_THE_64
    ensures value % TWO_TO_THE_64 == value
  {
  }

  /** The shortest form is a fixed point of reading and writing again, and nothing else is. */
  lemma ShortestIffFixed(s: Bytes)
    requires IsVarint(s)
    ensures IsShortest(s) <==> Shortest(Value(s) % TWO_TO_THE_64) == s
  {
    if IsShortest(s) {
      ShortestUnique(s);
      RemainderOfSmall(Value(s));
    } else {
      ShortestIsVarint(Value(s) % TWO_TO_THE_64);
    }
  }

  /** Whatever a varint spells, writing its 64-bit value again takes no more bytes. */
  lemma ShortestIsShortest(s: Bytes)
    requires |s| > 0
    ensures |Shortest(Value(s) % TWO_TO_THE_64)| <= |s|
  {
    ValueBound(s);
    ShortestLength(Value(s) % TWO_TO_THE_64, |s|);
  }

  /** Merging two runs never lengthens their length prefixes. */
  lemma Subadditive(a: nat, b: nat)
    requires a > 0 && b > 0
    ensures |Shortest(a + b)| <= |Shortest(a)| + |Shortest(b)|
  {
    var n := if a >= b then |Shortest(a)| else |Shortest(b)|;
    var m := if a >= b then a else b;
    ShortestLength(m, n);
    ShortestLength(a + b, n + 1);
  }

  lemma {:induction false} ShortestAtMostValue(value: nat)
    requires value > 0
    ensures |Shortest(value)| <= value
    ensures value > 1 ==> |Shortest(value)| < value
  {
    if value >= 128 {
      ShortestAtMostValue(value / 128);
    }
  }
}
