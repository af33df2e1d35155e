/** The weight of a token in a sparse vector, as exact numbers. */
module Bm25Weights {

  const K1 := 1.5
  const B := 0.75

  /** The argument of the logarithm in a token's weight. */
  function IdfRatio(nDocs: nat, df: nat): real {
    (nDocs as real - df as real + 0.5) / (df as real + 0.5) + 1.0
  }

  function TfNorm(tf: nat, docLen: nat, avgLen: real): real
    requires tf > 0
  {
    DenominatorIsPositive(tf, docLen, avgLen);
    tf as real * (K1 + 1.0) / Denominator(tf, docLen, avgLen)
  }

  function AtLeastOne(avgLen: real): (r: real)
    ensures r >= 1.0
  {
    if avgLen > 1.0 then avgLen else 1.0
  }

  function Denominator(tf: nat, docLen: nat, avgLen: real): real {
    tf as real + K1 * (1.0 - B + B * docLen as real / AtLeastOne(avgLen))
  }

  lemma DenominatorIsPositive(tf: nat, docLen: nat, avgLen: real)
    ensures Denominator(tf, docLen, avgLen) > tf as real
  {
    var x, a := B * docLen as real, AtLeastOne(avgLen);
    assert x >= 0.0;
    assert x / a >= 0.0;
  }

  /** For a token of the vocabulary the logarithm is taken of a number above one, so its weight is
      positive; and the rarer the token, the larger the number. */
  lemma IdfIsPositive(nDocs: nat, df: nat, more: nat)
    requires 1 <= df <= more <= nDocs
    ensures IdfRatio(nDocs, df) > 1.0
    ensures IdfRatio(nDocs, more) <= IdfRatio(nDocs, df)
  {
    var n, d, m := nDocs as real, df as real, more as real;
    assert (n - d + 0.5) / (d + 0.5) > 0.0;
    QuotientFalls(n - d + 0.5, d + 0.5, n - m + 0.5, m + 0.5);
  }

  lemma QuotientFalls(a: real, b: real, c: real, d: real)
    requires 0.0 < c <= a && 0.0 < b <= d
    ensures c / d <= a / b
  {
    assert c / d <= a / d;
    assert a / d <= a / b by {
      assert a / b - a / d == a * (d - b) / (b * d);
      assert a * (d - b) >= 0.0 && b * d > 0.0;
    }
  }

  /** The frequency factor is positive and saturates below k1 + 1. */
  lemma TfNormSaturates(tf: nat, docLen: nat, avgLen: real)
    requires tf > 0
    ensures 0.0 < TfNorm(tf, docLen, avgLen) < K1 + 1.0
  {
    DenominatorIsPositive(tf, docLen, avgLen);
    var t, d := tf as real, Denominator(tf, docLen, avgLen);
    assert t * (K1 + 1.0) > 0.0;
    BelowWhenSmaller(t, d, K1 + 1.0);
  }

  lemma BelowWhenSmaller(t: real, d: real, k: real)
    requires 0.0 < t < d && k > 0.0
    ensures 0.0 < t * k / d < k
  {
    assert t * k > 0.0;
    assert t * k / d == k * (t / d);
    var q := t / d;
    assert q * d == t;
    assert q >= 1.0 ==> q * d >= 1.0 * d;
  }

  /** The logarithm is taken of (N + 1) / (df + 0.5). */
  lemma IdfRatioIs(nDocs: nat, df: nat)
    ensures IdfRatio(nDocs, df) == (nDocs + 1) as real / (df as real + 0.5)
  {
    var n, d := nDocs as real, df as real;
    assert (n - d + 0.5) / (d + 0.5) + (d + 0.5) / (d + 0.5) == (n + 1.0) / (d + 0.5);
  }

  /** The frequency factor: 2.5 tf / (tf + 0.375 + 1.125 len / avg), where an average below one counts as one. */
  lemma TfNormIs(tf: nat, docLen: nat, avgLen: real)
    requires tf > 0
    ensures var avg := if avgLen >= 1.0 then avgLen else 1.0; var t := tf as real;
      t + 0.375 + 1.125 * (docLen as real / avg) > 0.0
      && TfNorm(tf, docLen, avgLen) == 2.5 * t / (t + 0.375 + 1.125 * (docLen as real / avg))
  {
    var avg := if avgLen >= 1.0 then avgLen else 1.0;
    var len := docLen as real;
    assert AtLeastOne(avgLen) == avg;
    assert len / avg >= 0.0;
    assert B * len / avg == 0.75 * (len / avg);
    assert Denominator(tf, docLen, avgLen) == tf as real + 1.5 * (0.25 + 0.75 * (len / avg));
  }
}
