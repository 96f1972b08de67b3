/** Run-length coding of a sequence, apart from how runs are written down as bytes. */
module RunLength {

  datatype Run<T> = Run(count: nat, value: T)

  function Repeat<T>(value: T, n: nat): (s: seq<T>)
    ensures |s| == n
    ensures forall i | 0 <= i < n :: s[i] == value
  {
    if n == 0 then [] else [value] + Repeat(value, n - 1)
  }

  function Expand<T>(runs: seq<Run<T>>): seq<T> {
    if runs == [] then [] else Repeat(runs[0].value, runs[0].count) + Expand(runs[1..])
  }

  function Total<T>(runs: seq<Run<T>>): nat {
    if runs == [] then 0 else runs[0].count + Total(runs[1..])
  }

  /** Put a run in front, merging it with a first run of the same value. */
  function Push<T(==)>(run: Run<T>, runs: seq<Run<T>>): seq<Run<T>> {
    if runs != [] && runs[0].value == run.value then
      [Run(run.count + runs[0].count, run.value)] + runs[1..]
    else
      [run] + runs
  }

  function Compress<T(==)>(s: seq<T>): seq<Run<T>> {
    if s == [] then [] else Push(Run(1, s[0]), Compress(s[1..]))
  }

  /** No empty run, and no two neighbouring runs that could be one. */
  predicate Maximal<T(==)>(runs: seq<Run<T>>) {
    && (forall i | 0 <= i < |runs| :: runs[i].count > 0)
    && (forall i | 0 < i < |runs| :: runs[i - 1].value != runs[i].value)
  }

  predicate NeighboursDiffer<T(==)>(s: seq<T>) {
    forall i | 0 < i < |s| :: s[i - 1] != s[i]
  }

  lemma {:induction false} RepeatAdd<T>(value: T, a: nat, b: nat)
    ensures Repeat(value, a + b) == Repeat(value, a) + Repeat(value, b)
  {
  }

  lemma {:induction false} ExpandAppend<T>(a: seq<Run<T>>, b: seq<Run<T>>)
    ensures Expand(a + b) == Expand(a) + Expand(b)
    ensures Total(a + b) == Total(a) + Total(b)
  {
    if a == [] {
      assert a + b == b;
    } else {
      assert (a + b)[1..] == a[1..] + b;
      ExpandAppend(a[1..], b);
    }
  }

  lemma {:induction false} ExpandLength<T>(runs: seq<Run<T>>)
    ensures |Expand(runs)| == Total(runs)
  {
    if runs != [] {
      ExpandLength(runs[1..]);
    }
  }

  lemma ExpandPush<T>(run: Run<T>, runs: seq<Run<T>>)
    ensures Expand(Push(run, runs)) == Repeat(run.value, run.count) + Expand(runs)
    ensures Total(Push(run, runs)) == run.count + Total(runs)
  {
    if runs != [] && runs[0].value == run.value {
      RepeatAdd(run.value, run.count, runs[0].count);
      assert Push(run, runs)[1..] == runs[1..];
    } else {
      assert Push(run, runs)[1..] == runs;
    }
  }

  /** Compressing loses nothing. */
  lemma {:induction false} ExpandCompress<T>(s: seq<T>)
    ensures Expand(Compress(s)) == s
    ensures Total(Compress(s)) == |s|
  {
    if s != [] {
      ExpandCompress(s[1..]);
      ExpandPush(Run(1, s[0]), Compress(s[1..]));
      assert Repeat(s[0], 1) == [s[0]];
    }
  }

  lemma {:induction false} CompressMaximal<T>(s: seq<T>)
    ensures Maximal(Compress(s))
  {
    if s != [] {
      CompressMaximal(s[1..]);
    }
  }

  lemma PushPush<T>(a: Run<T>, b: Run<T>, runs: seq<Run<T>>)
    requires a.value == b.value
    ensures Push(a, Push(b, runs)) == Push(Run(a.count + b.count, a.value), runs)
  {
  }

  /** A repeated value in front is one more run, however often it is repeated. */
  lemma {:induction false} CompressRepeat<T>(value: T, n: nat, s: seq<T>)
    requires n > 0
    ensures Compress(Repeat(value, n) + s) == Push(Run(n, value), Compress(s))
  {
    var whole := Repeat(value, n) + s;
    assert whole[1..] == Repeat(value, n - 1) + s;
    if n == 1 {
      assert whole[1..] == s;
    } else {
      CompressRepeat(value, n - 1, s);
      PushPush(Run(1, value), Run(n - 1, value), Compress(s));
    }
  }

  /** Maximal runs are the only ones compression gives back unchanged. */
  lemma {:induction false} CompressExpand<T>(runs: seq<Run<T>>)
    requires Maximal(runs)
    ensures Compress(Expand(runs)) == runs
  {
    if runs != [] {
      var tail := runs[1..];
      assert forall i | 0 < i < |tail| :: tail[i - 1] == runs[i] && tail[i] == runs[i + 1];
      CompressExpand(tail);
      CompressRepeat(runs[0].value, runs[0].count, Expand(tail));
      assert tail != [] ==> tail[0] == runs[1];
    }
  }

  lemma NeighboursDifferStep<T>(s: seq<T>)
    requires s != []
    ensures NeighboursDiffer(s) <==> (|s| > 1 ==> s[0] != s[1]) && NeighboursDiffer(s[1..])
  {
    var t := s[1..];
    assert forall i | 0 < i < |t| :: t[i - 1] == s[i] && t[i] == s[i + 1];
    if NeighboursDiffer(t) && (|s| > 1 ==> s[0] != s[1]) {
      forall i | 0 < i < |s| ensures s[i - 1] != s[i] {
        assert i > 1 ==> t[i - 2] != t[i - 1];
      }
    }
  }

  /** Runs are all of length one exactly when no two neighbours agree. */
  lemma {:induction false} CompressSingles<T>(s: seq<T>)
    ensures (forall i | 0 <= i < |Compress(s)| :: Compress(s)[i].count == 1) <==> NeighboursDiffer(s)
    ensures s != [] ==> Compress(s) != [] && Compress(s)[0].value == s[0]
  {
    if s != [] {
      var t, c := s[1..], Compress(s[1..]);
      CompressSingles(t);
      CompressMaximal(t);
      NeighboursDifferStep(s);
      if t != [] {
        if s[0] == t[0] {
          assert Compress(s)[0].count == 1 + c[0].count > 1;
        } else {
          assert Compress(s) == [Run(1, s[0])] + c;
          assert forall i | 0 <= i < |c| :: Compress(s)[i + 1] == c[i];
          assert forall i | 0 < i < |Compress(s)| :: Compress(s)[i] == c[i - 1];
        }
      }
    }
  }
}
