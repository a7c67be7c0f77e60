/** The additive scoring that the dual-pass evaluator and the protocol parser share. */
module ThreatScoring {
  const FLAG_THRESHOLD := 25.0
  const BLOCK_THRESHOLD := 60.0
  const SCORE_CAP := 100.0

  datatype Severity = Critical | High | Medium | Low

  function SeverityScore(s: Severity): real {
    match s
    case Critical => 40.0
    case High => 20.0
    case Medium => 10.0
    case Low => 4.0
  }

  datatype Verdict = Allow | Flag | Block

  function Rank(v: Verdict): nat {
    match v
    case Allow => 0
    case Flag => 1
    case Block => 2
  }

  /** The thresholds of both components. */
  function Decide(score: real): Verdict {
    if score >= BLOCK_THRESHOLD then Block else if score >= FLAG_THRESHOLD then Flag else Allow
  }

  function Capped(score: real): real {
    if score < SCORE_CAP then score else SCORE_CAP
  }

  function Sum(weights: seq<real>): real {
    if weights == [] then 0.0 else Sum(weights[..|weights| - 1]) + weights[|weights| - 1]
  }

  lemma {:induction false} SumConcat(a: seq<real>, b: seq<real>)
    ensures Sum(a + b) == Sum(a) + Sum(b)
  {
    if b == [] {
      assert a + b == a;
    } else {
      assert (a + b)[..|a + b| - 1] == a + b[..|b| - 1];
      SumConcat(a, b[..|b| - 1]);
    }
  }

  function Weighed<T>(items: seq<T>, weight: T -> real): (r: seq<real>)
    ensures |r| == |items|
    ensures forall i :: 0 <= i < |items| ==> r[i] == weight(items[i])
  {
    seq(|items|, i requires 0 <= i < |items| => weight(items[i]))
  }

  lemma WeighedConcat<T>(a: seq<T>, b: seq<T>, weight: T -> real)
    ensures Sum(Weighed(a + b, weight)) == Sum(Weighed(a, weight)) + Sum(Weighed(b, weight))
  {
    assert Weighed(a + b, weight) == Weighed(a, weight) + Weighed(b, weight);
    SumConcat(Weighed(a, weight), Weighed(b, weight));
  }

  lemma WeighedNext<T>(items: seq<T>, t: T, weight: T -> real)
    ensures Sum(Weighed(items + [t], weight)) == Sum(Weighed(items, weight)) + weight(t)
  {
    assert Weighed(items + [t], weight)[..|items|] == Weighed(items, weight);
  }

  /** Where the last element of `a` sits in a permutation of it, and what is left without it. */
  lemma LastInPermutation<T>(a: seq<T>, b: seq<T>) returns (i: nat)
    requires multiset(a) == multiset(b) && a != []
    ensures i < |b| && b[i] == a[|a| - 1]
    ensures multiset(b[..i] + b[i + 1..]) == multiset(a[..|a| - 1])
  {
    var n := |a| - 1;
    Around(a, n);
    assert a[n] in multiset(b);
    i :| 0 <= i < |b| && b[i] == a[n];
    Around(b, i);
    assert a[..n] + a[n + 1..] == a[..n];
  }

  lemma Around<T>(s: seq<T>, i: nat)
    requires i < |s|
    ensures multiset(s[..i] + s[i + 1..]) == multiset(s) - multiset{s[i]}
  {
    assert s == s[..i] + [s[i]] + s[i + 1..];
  }

  ghost predicate NonNegative(weights: seq<real>) {
    forall i :: 0 <= i < |weights| ==> weights[i] >= 0.0
  }

  lemma {:induction false} SumNonNegative(weights: seq<real>)
    requires NonNegative(weights)
    ensures Sum(weights) >= 0.0
  {
    if weights == [] {
    } else {
      SumNonNegative(weights[..|weights| - 1]);
    }
  }

  /** Any one term is a lower bound of the sum. */
  lemma {:induction false} SumAtLeast(weights: seq<real>, i: nat)
    requires NonNegative(weights) && i < |weights|
    ensures Sum(weights) >= weights[i]
  {
    var n := |weights| - 1;
    if i < n { SumAtLeast(weights[..n], i); } else { SumNonNegative(weights[..n]); }
  }

  /** So are any two different terms together. */
  lemma {:induction false} SumAtLeastTwo(weights: seq<real>, i: nat, j: nat)
    requires NonNegative(weights) && i < j < |weights|
    ensures Sum(weights) >= weights[i] + weights[j]
  {
    var n := |weights| - 1;
    if j < n { SumAtLeastTwo(weights[..n], i, j); } else { SumAtLeast(weights[..n], i); }
  }

  lemma ScaledUp(x: real, factor: real, y: real)
    requires x >= 0.0 && factor >= 1.0 && y == x * factor
    ensures y >= x
  {
  }
}
