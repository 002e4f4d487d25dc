/** Field-level scoring of the dashboard (src/backend/dashboard/dashboard.py):
    text normalisation, exact match and token-level F1. Scores are reals; the
    floating-point rounding of the original is not modelled. */
module Scoring {
  import opened Wrappers
  import opened PyStr
  import opened Ratios

  /** `_normalize_text`: `None` becomes the empty string, anything else is
      lower-cased and stripped. */
  function Normalize(text: Option<string>): (r: string)
    ensures text.None? ==> r == []
    ensures r == [] || (!IsSpace(r[0]) && !IsSpace(r[|r| - 1]))
    ensures forall i :: 0 <= i < |r| ==> !('A' <= r[i] <= 'Z')
    ensures text.Some? ==>
              exists a, b :: 0 <= a <= b <= |text.value| && r == Lower(text.value)[a..b]
                             && AllSpace(text.value[..a]) && AllSpace(text.value[b..])
  {
    match text
    case None => ""
    case Some(s) =>
      LowerStripped(s);
      Strip(Lower(s))
  }

  /** Lower-casing then stripping keeps the lower-cased text between the
      white-space margins of the original. */
  lemma LowerStripped(s: string)
    ensures forall i :: 0 <= i < |Strip(Lower(s))| ==> !('A' <= Strip(Lower(s))[i] <= 'Z')
    ensures exists a, b :: 0 <= a <= b <= |s| && Strip(Lower(s)) == Lower(s)[a..b]
                           && AllSpace(s[..a]) && AllSpace(s[b..])
  {
    var l := Lower(s);
    var a, b :| 0 <= a <= b <= |l| && Strip(l) == l[a..b] && AllSpace(l[..a]) && AllSpace(l[b..]);
    NoUpperInfix(l, a, b);
    LowerMargins(s, a, b);
  }

  lemma NoUpperInfix(l: string, a: nat, b: nat)
    requires a <= b <= |l|
    requires forall i :: 0 <= i < |l| ==> !('A' <= l[i] <= 'Z')
    ensures forall i :: 0 <= i < |l[a..b]| ==> !('A' <= l[a..b][i] <= 'Z')
  {
    forall i | 0 <= i < |l[a..b]| ensures !('A' <= l[a..b][i] <= 'Z') {
      assert l[a..b][i] == l[a + i];
    }
  }

  lemma LowerMargins(s: string, a: nat, b: nat)
    requires a <= b <= |s|
    requires AllSpace(Lower(s)[..a]) && AllSpace(Lower(s)[b..])
    ensures AllSpace(s[..a]) && AllSpace(s[b..])
  {
    assert Lower(s)[..a] == Lower(s[..a]);
    assert Lower(s)[b..] == Lower(s[b..]);
    SpaceOfLower(s[..a]);
    SpaceOfLower(s[b..]);
  }

  lemma SpaceOfLower(s: string)
    requires AllSpace(Lower(s))
    ensures AllSpace(s)
  {
    forall i | 0 <= i < |s| ensures IsSpace(s[i]) {
      assert IsSpace(Lower(s)[i]);
    }
  }

  /** `_calculate_exact_match`: 1.0 when the normalised texts agree, else 0.0. */
  function ExactMatch(pred: Option<string>, truth: Option<string>): (r: real)
    ensures r == 0.0 || r == 1.0
    ensures r == 1.0 <==> Normalize(pred) == Normalize(truth)
  {
    if Normalize(pred) == Normalize(truth) then 1.0 else 0.0
  }

  /** The whitespace tokens of the normalised text. */
  function Tokens(text: Option<string>): (tokens: seq<string>)
    ensures text.None? ==> tokens == []
    ensures tokens == [] <==> Normalize(text) == []
    ensures forall k :: 0 <= k < |tokens| ==> tokens[k] != [] && NoSpace(tokens[k])
  {
    var n := Normalize(text);
    assert n != [] ==> !AllSpace(n);
    Split(n)
  }

  /** Size of the multiset intersection of two token lists: the sum of the
      values of `Counter(pred) & Counter(truth)`. It is at most the length
      of either list. */
  function CommonCount(pred: seq<string>, truth: seq<string>): (n: nat)
    ensures n <= |pred| && n <= |truth|
  {
    var a, b := multiset(pred), multiset(truth);
    SubMultisetSplit(a * b, a);
    SubMultisetSplit(a * b, b);
    |a * b|
  }

  /** `_calculate_f1_token`: token-level F1 between prediction and truth. */
  function F1Token(pred: Option<string>, truth: Option<string>): (r: real)
    ensures 0.0 <= r <= 1.0
  {
    TokenF1(Tokens(pred), Tokens(truth))
  }

  /** The body of `_calculate_f1_token` once both texts are tokenised. */
  function TokenF1(predTokens: seq<string>, truthTokens: seq<string>): (r: real)
    ensures 0.0 <= r <= 1.0
  {
    if predTokens == [] && truthTokens == [] then 1.0
    else if predTokens == [] || truthTokens == [] then 0.0
    else
      var numSame := CommonCount(predTokens, truthTokens);
      if numSame == 0 then 0.0
      else
        F1FromCounts(numSame, |predTokens|, |truthTokens|)
  }

  /** The harmonic mean of precision `numSame / nPred` and recall
      `numSame / nTruth`, computed as the source does; it equals
      `2 * numSame / (nPred + nTruth)`. */
  function F1FromCounts(numSame: nat, nPred: nat, nTruth: nat): (r: real)
    requires 0 < numSame <= nPred && numSame <= nTruth
    ensures r == 2.0 * numSame as real / (nPred + nTruth) as real
    ensures 0.0 < r <= 1.0
  {
    var precision := numSame as real / nPred as real;
    var recall := numSame as real / nTruth as real;
    HarmonicMean(numSame as real, nPred as real, nTruth as real);
    UnitRatio(2.0 * numSame as real, (nPred + nTruth) as real);
    (2.0 * precision * recall) / (precision + recall)
  }

  // ---------------------------------------------------------------------
  // Normalisation

  /** Normalising twice is normalising once, so a normalised text exactly
      matches the text it came from. */
  lemma NormalizeIdempotent(text: Option<string>)
    ensures Normalize(Some(Normalize(text))) == Normalize(text)
    ensures ExactMatch(Some(Normalize(text)), text) == 1.0
  {
    if text.Some? {
      LowerStripFixed(text.value);
    }
  }

  lemma LowerStripFixed(s: string)
    ensures Strip(Lower(Strip(Lower(s)))) == Strip(Lower(s))
  {
    var n := Strip(Lower(s));
    assert Lower(n) == n by {
      StripLower(Lower(s));
      LowerIdempotent(s);
    }
    StripOfStripped(n);
  }

  /** Case and surrounding white space do not matter. */
  lemma ExactMatchIgnoresCase()
    ensures ExactMatch(Some("ACME Corp "), Some("acme corp")) == 1.0
  {
    NormalizeAcmeCorpUpper();
    NormalizeAcmeCorpLower();
  }

  /** A longer name is not an exact match. */
  lemma ExactMatchNeedsWholeText()
    ensures ExactMatch(Some("Acme"), Some("Acme Corporation")) == 0.0
  {
    NormalizeAcme();
    NormalizeAcmeCorporation();
  }

  /** `n` is the normal form of `s` when `s` lower-cases to `n` followed by
      white space only and `n` has no white space at either end. */
  lemma NormalizeIs(s: string, n: string)
    requires |n| <= |s| && Lower(s)[..|n|] == n && AllSpace(s[|n|..])
    requires n == [] || (!IsSpace(n[0]) && !IsSpace(n[|n| - 1]))
    ensures Normalize(Some(s)) == n
  {
    var l := Lower(s);
    assert l[|n|..] == Lower(s[|n|..]);
    assert AllSpace(l[|n|..]);
    assert l[..0] == [] && l[0..|n|] == n;
    StripUnique(l, 0, |n|);
  }

  lemma NormalizeAcmeCorpUpper()
    ensures Normalize(Some("ACME Corp ")) == "acme corp"
  {
    assert Lower("ACME Corp ") == "acme corp ";
    NormalizeIs("ACME Corp ", "acme corp");
  }

  lemma NormalizeAcmeCorpLower()
    ensures Normalize(Some("acme corp")) == "acme corp"
  {
    assert Lower("acme corp") == "acme corp";
    NormalizeIs("acme corp", "acme corp");
  }

  lemma NormalizeAcme()
    ensures Normalize(Some("Acme")) == "acme"
  {
    assert Lower("Acme") == "acme";
    NormalizeIs("Acme", "acme");
  }

  /** Only the length of this normal form matters to the example above. */
  lemma NormalizeAcmeCorporation()
    ensures |Normalize(Some("Acme Corporation"))| == 16
  {
    var s := "Acme Corporation";
    NormalizeIs(s, Lower(s));
  }

  /** Exact match does not depend on the order of its arguments. */
  lemma ExactMatchSymmetric(a: Option<string>, b: Option<string>)
    ensures ExactMatch(a, b) == ExactMatch(b, a)
  {
  }

  // ---------------------------------------------------------------------
  // Multisets of tokens

  lemma SubMultisetSplit(x: multiset<string>, a: multiset<string>)
    requires x <= a
    ensures a == x + (a - x)
    ensures |a| == |x| + |a - x|
  {
    assert forall t :: a[t] == (x + (a - x))[t];
  }

  lemma SubMultisetSameSize(x: multiset<string>, a: multiset<string>)
    requires x <= a && |x| == |a|
    ensures x == a
  {
    SubMultisetSplit(x, a);
    assert |a - x| == 0;
    assert a - x == multiset{};
  }

  /** The common count is all of both lists exactly when the two lists hold
      the same tokens with the same multiplicities. */
  lemma CommonIsAll(pred: seq<string>, truth: seq<string>)
    ensures CommonCount(pred, truth) == |pred| == |truth| <==> multiset(pred) == multiset(truth)
  {
    var a, b := multiset(pred), multiset(truth);
    if CommonCount(pred, truth) == |pred| == |truth| {
      SubMultisetSameSize(a * b, a);
      SubMultisetSameSize(a * b, b);
    }
    if a == b {
      assert a * b == a;
    }
  }

  /** The harmonic mean of the precision c/a and the recall c/b is 2c/(a+b). */
  lemma HarmonicMean(c: real, a: real, b: real)
    requires c > 0.0 && a > 0.0 && b > 0.0
    ensures (c / a) + (c / b) > 0.0
    ensures (2.0 * (c / a) * (c / b)) / ((c / a) + (c / b)) == 2.0 * c / (a + b)
  {
    var p, q := c / a, c / b;
    assert p * a == c && q * b == c;
    assert p > 0.0 && q > 0.0;
    assert (p + q) * (a * b) == c * (a + b) by {
      calc {
        (p + q) * (a * b);
        (p * a) * b + (q * b) * a;
        c * b + c * a;
      }
    }
    assert (2.0 * p * q) * (a * b) == 2.0 * c * c by {
      calc {
        (2.0 * p * q) * (a * b);
        2.0 * (p * a) * (q * b);
      }
    }
    var f := (2.0 * p * q) / (p + q);
    assert f * (p + q) == 2.0 * p * q;
    assert f * c * (a + b) == 2.0 * c * c by {
      calc {
        f * c * (a + b);
        f * ((p + q) * (a * b));
        (f * (p + q)) * (a * b);
        (2.0 * p * q) * (a * b);
      }
    }
    assert f * (a + b) == 2.0 * c;
  }

  // ---------------------------------------------------------------------
  // Token F1

  /** Whenever both token lists are non-empty, F1 is twice the common count
      over the total number of tokens. */
  lemma TokenF1Closed(p: seq<string>, t: seq<string>)
    requires p != [] && t != []
    ensures TokenF1(p, t) == 2.0 * CommonCount(p, t) as real / (|p| + |t|) as real
  {
  }

  /** Token F1 does not depend on the order of its arguments. */
  lemma TokenF1Symmetric(p: seq<string>, t: seq<string>)
    ensures TokenF1(p, t) == TokenF1(t, p)
  {
    assert multiset(p) * multiset(t) == multiset(t) * multiset(p);
    if p != [] && t != [] {
      TokenF1Closed(p, t);
      TokenF1Closed(t, p);
    }
  }

  /** F1 is perfect exactly when the two token lists are equal as multisets
      (in particular when both are empty). */
  lemma TokenF1PerfectIff(p: seq<string>, t: seq<string>)
    ensures TokenF1(p, t) == 1.0 <==> multiset(p) == multiset(t)
  {
    CommonIsAll(p, t);
    if p != [] && t != [] {
      TokenF1Closed(p, t);
      var c, n, m := CommonCount(p, t), |p|, |t|;
      RatioIsOne(2.0 * c as real, (n + m) as real);
      assert TokenF1(p, t) == 1.0 <==> 2 * c == n + m;
      assert 2 * c == n + m <==> c == n == m;
    } else if p == [] && t != [] {
      assert |multiset(t)| > 0;
    } else if p != [] && t == [] {
      assert |multiset(p)| > 0;
    }
  }

  /** F1 is zero exactly when at least one side has tokens and no token is
      shared: one empty side, or disjoint non-empty sides. */
  lemma TokenF1ZeroIff(p: seq<string>, t: seq<string>)
    ensures TokenF1(p, t) == 0.0 <==> (p != [] || t != []) && CommonCount(p, t) == 0
  {
  }

  /** `_calculate_f1_token` is symmetric. */
  lemma F1Symmetric(a: Option<string>, b: Option<string>)
    ensures F1Token(a, b) == F1Token(b, a)
  {
    TokenF1Symmetric(Tokens(a), Tokens(b));
  }

  /** `_calculate_f1_token` is 1.0 exactly when the normalised texts have the
      same tokens with the same multiplicities. */
  lemma F1PerfectIff(a: Option<string>, b: Option<string>)
    ensures F1Token(a, b) == 1.0 <==> multiset(Tokens(a)) == multiset(Tokens(b))
  {
    TokenF1PerfectIff(Tokens(a), Tokens(b));
  }

  /** An exact match is also a perfect token match. */
  lemma ExactImpliesPerfectF1(a: Option<string>, b: Option<string>)
    requires ExactMatch(a, b) == 1.0
    ensures F1Token(a, b) == 1.0
  {
    TokenF1PerfectIff(Tokens(a), Tokens(b));
  }
}
