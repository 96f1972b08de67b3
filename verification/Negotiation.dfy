/** Choosing the encodings and codecs both ends can handle. */
module Negotiation {
  import opened Payload

  function Filter(supported: seq<int>, accept: seq<int>): seq<int> {
    if supported == [] then [] else
      (if supported[0] in accept then [supported[0]] else []) + Filter(supported[1..], accept)
  }

  function Intersect(accept: seq<int>, supported: seq<int>, mandatory: int): seq<int> {
    if accept == [] then [mandatory] else
      var common := Filter(supported, accept);
      if mandatory in common then common else common + [mandatory]
  }

  function NegotiateEncodings(accept: seq<int>, supported: seq<int>): seq<int> {
    Intersect(accept, supported, ENCODING_PACKED)
  }

  function NegotiateCodecs(accept: seq<int>, supported: seq<int>): seq<int> {
    Intersect(accept, supported, CODEC_NONE)
  }

  predicate Accepts(negotiated: seq<int>, encoding: int) {
    encoding in negotiated
  }

  method IntersectCpp(accept: seq<int>, supported: seq<int>, mandatory: int) returns (out: seq<int>)
    ensures out == Intersect(accept, supported, mandatory)
  {
    if accept == [] {
      return [mandatory];
    }
    out := [];
    for i := 0 to |supported|
      invariant out + Filter(supported[i..], accept) == Filter(supported, accept)
    {
      assert supported[i..][1..] == supported[i + 1..];
      if supported[i] in accept {
        out := out + [supported[i]];
      }
    }
    if mandatory !in out {
      out := out + [mandatory];
    }
  }

  lemma {:induction false} FilterMember(supported: seq<int>, accept: seq<int>, x: int)
    ensures x in Filter(supported, accept) <==> x in supported && x in accept
  {
    if supported != [] {
      FilterMember(supported[1..], accept, x);
    }
  }

  /** As sets, the result is what both sides know, plus the mandatory member; the empty list is no exception. */
  lemma IntersectSet(accept: seq<int>, supported: seq<int>, mandatory: int, x: int)
    ensures x in Intersect(accept, supported, mandatory) <==>
            (x in accept && x in supported) || x == mandatory
  {
    FilterMember(supported, accept, x);
    FilterMember(supported, accept, mandatory);
  }

  /** `s` is `t` with some members left out. */
  predicate Subsequence(s: seq<int>, t: seq<int>) {
    s == [] || (t != [] && if s[0] == t[0] then Subsequence(s[1..], t[1..]) else Subsequence(s, t[1..]))
  }

  lemma {:induction false} FilterOrder(supported: seq<int>, accept: seq<int>)
    ensures Subsequence(Filter(supported, accept), supported)
  {
    if supported != [] {
      var s := Filter(supported, accept);
      FilterOrder(supported[1..], accept);
      if supported[0] in accept {
        assert s[1..] == Filter(supported[1..], accept);
      } else {
        assert s == Filter(supported[1..], accept);
        if s != [] {
          FilterMember(supported[1..], accept, s[0]);
        }
      }
    }
  }

  lemma {:induction false} FilterNothing(supported: seq<int>)
    ensures Filter(supported, []) == []
  {
    if supported != [] {
      FilterNothing(supported[1..]);
    }
  }

  lemma {:induction false} FilterCounts(supported: seq<int>, accept: seq<int>, x: int)
    ensures multiset(Filter(supported, accept))[x] == if x in accept then multiset(supported)[x] else 0
  {
    if supported != [] {
      FilterCounts(supported[1..], accept, x);
      assert supported == [supported[0]] + supported[1..];
    }
  }

  /** What both sides named, as often and in the order we named it. */
  predicate IsCommon(common: seq<int>, accept: seq<int>, supported: seq<int>) {
    && Subsequence(common, supported)
    && (forall x | x in common :: x in accept)
    && (forall x | x in accept :: multiset(common)[x] == multiset(supported)[x])
  }

  lemma FilterIsCommon(supported: seq<int>, accept: seq<int>)
    ensures IsCommon(Filter(supported, accept), accept, supported)
  {
    FilterOrder(supported, accept);
    forall x | x in Filter(supported, accept) ensures x in accept {
      FilterMember(supported, accept, x);
    }
    forall x | x in accept ensures multiset(Filter(supported, accept))[x] == multiset(supported)[x] {
      FilterCounts(supported, accept, x);
    }
  }

  /**
   * The members both sides named come first, in our order of preference; a mandatory member missing
   * from them comes last.
   */
  lemma IntersectOrder(accept: seq<int>, supported: seq<int>, mandatory: int)
    ensures exists common: seq<int> ::
              && IsCommon(common, accept, supported)
              && Intersect(accept, supported, mandatory) ==
                 if mandatory in common then common else common + [mandatory]
  {
    var common := Filter(supported, accept);
    FilterIsCommon(supported, accept);
    if accept == [] {
      FilterNothing(supported);
      assert common + [mandatory] == [mandatory];
    }
  }

  // ---------- What is negotiated ----------

  /**
   * The encodings agreed on, for every offer and every plugin: those both sides named, in the plugin's
   * order of preference, and PACKED (number 1) at the end if it is not among them.
   */
  lemma EncodingsAgreed(accept: seq<int>, supported: seq<int>)
    ensures forall x :: x in NegotiateEncodings(accept, supported) <==> (x in accept && x in supported) || x == 1
    ensures exists common: seq<int> ::
              && IsCommon(common, accept, supported)
              && NegotiateEncodings(accept, supported) == if 1 in common then common else common + [1]
  {
    IntersectOrder(accept, supported, 1);
    forall x ensures x in NegotiateEncodings(accept, supported) <==> (x in accept && x in supported) || x == 1 {
      IntersectSet(accept, supported, 1, x);
    }
  }

  /** The codecs agreed on, likewise, with NONE (number 1). */
  lemma CodecsAgreed(accept: seq<int>, supported: seq<int>)
    ensures forall x :: x in NegotiateCodecs(accept, supported) <==> (x in accept && x in supported) || x == 1
    ensures exists common: seq<int> ::
              && IsCommon(common, accept, supported)
              && NegotiateCodecs(accept, supported) == if 1 in common then common else common + [1]
  {
    IntersectOrder(accept, supported, 1);
    forall x ensures x in NegotiateCodecs(accept, supported) <==> (x in accept && x in supported) || x == 1 {
      IntersectSet(accept, supported, 1, x);
    }
  }

  /** Run-length encoding (number 2) may be used exactly if both sides named it; packed always may. */
  lemma RunLengthAgreed(accept: seq<int>, supported: seq<int>)
    ensures Accepts(NegotiateEncodings(accept, supported), 2) <==> 2 in accept && 2 in supported
    ensures Accepts(NegotiateEncodings(accept, supported), 1)
  {
    EncodingsAgreed(accept, supported);
  }

  /** A client and a plugin built on this crate agree on run-length first and packed second. */
  lemma BothOursAgree(accept: seq<int>)
    requires accept == [2, 1] || accept == [1, 2]
    ensures NegotiateEncodings(accept, [2, 1]) == [2, 1]
  {
    assert [2, 1][1..] == [1] && [1][1..] == [];
    assert Filter([1], accept) == [1];
    assert Filter([2, 1], accept) == [2, 1];
  }
}
