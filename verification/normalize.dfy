/**
 * Min–max normalisation of a vector of raw relevance scores
 * (`normalize_scores` in backend/server.py). Scores are exact reals;
 * floating-point rounding and NaN are not modelled.
 */
module Normalize {

  /** Smallest element of a non-empty score vector (numpy's `np.min`). */
  function Min(s: seq<real>): (m: real)
    requires |s| > 0
    ensures m in s
    ensures forall i :: 0 <= i < |s| ==> m <= s[i]
  {
    if |s| == 1 then s[0]
    else
      var rest := Min(s[1..]);
      assert rest in s;
      if s[0] <= rest then s[0] else rest
  }

  /** Largest element of a non-empty score vector (numpy's `np.max`). */
  function Max(s: seq<real>): (m: real)
    requires |s| > 0
    ensures m in s
    ensures forall i :: 0 <= i < |s| ==> s[i] <= m
  {
    if |s| == 1 then s[0]
    else
      var rest := Max(s[1..]);
      assert rest in s;
      if rest <= s[0] then s[0] else rest
  }

  /** Every score in the vector is the same. */
  predicate AllEqual(s: seq<real>)
  {
    forall i, j :: 0 <= i < |s| && 0 <= j < |s| ==> s[i] == s[j]
  }

  /** Every score in the vector is zero. */
  predicate AllZero(s: seq<real>)
  {
    forall i :: 0 <= i < |s| ==> s[i] == 0.0
  }

  /** The normalised score of `x` within the range [lo, hi], hi > lo. */
  function Scale(x: real, lo: real, hi: real): (r: real)
    requires lo <= x <= hi && lo < hi
    ensures 0.0 <= r <= 1.0
    ensures r == 0.0 <==> x == lo
    ensures r == 1.0 <==> x == hi
  {
    var d := hi - lo;
    var r := (x - lo) / d;
    assert r * d == x - lo;
    r
  }

  /**
   * `normalize_scores`: the empty vector is returned as it is; a vector with
   * no spread (max − min = 0) becomes all zeros; otherwise every score is
   * mapped to (s − min) / (max − min).
   */
  function NormalizeScores(s: seq<real>): (r: seq<real>)
    ensures |r| == |s|
    ensures forall i :: 0 <= i < |r| ==> 0.0 <= r[i] <= 1.0
  {
    if |s| == 0 then s
    else
      var lo, hi := Min(s), Max(s);
      if hi - lo == 0.0 then seq(|s|, _ => 0.0)
      else ScaleAll(s, lo, hi)
  }

  /** Every score of `s` scaled into [lo, hi]. */
  function ScaleAll(s: seq<real>, lo: real, hi: real): (r: seq<real>)
    requires lo < hi && forall i :: 0 <= i < |s| ==> lo <= s[i] <= hi
    ensures |r| == |s|
    ensures forall i :: 0 <= i < |s| ==> r[i] == Scale(s[i], lo, hi)
  {
    seq(|s|, i requires 0 <= i < |s| => Scale(s[i], lo, hi))
  }

  /** The scaled score solves r · (hi − lo) = x − lo: it is (x − lo) / (hi − lo). */
  lemma ScaleValue(x: real, lo: real, hi: real)
    requires lo <= x <= hi && lo < hi
    ensures Scale(x, lo, hi) * (hi - lo) == x - lo
  {
  }

  /**
   * With a non-zero spread, the i-th normalised score is the i-th score
   * scaled into [Min(s), Max(s)], that is (s[i] − min) / (max − min) by ScaleValue.
   */
  lemma NormalizeAt(s: seq<real>, i: int)
    requires 0 <= i < |s| && Max(s) - Min(s) != 0.0
    ensures Min(s) <= s[i] <= Max(s) && Min(s) < Max(s)
    ensures NormalizeScores(s)[i] == Scale(s[i], Min(s), Max(s))
  {
    assert NormalizeScores(s) == ScaleAll(s, Min(s), Max(s));
  }

  /** A vector whose scores are all equal normalises to all zeros, and only such a vector does. */
  lemma NormalizeAllZero(s: seq<real>)
    ensures AllZero(NormalizeScores(s)) <==> AllEqual(s)
  {
    var r := NormalizeScores(s);
    if |s| > 0 {
      var lo, hi := Min(s), Max(s);
      if hi - lo == 0.0 {
        assert AllEqual(s) by {
          forall i, j | 0 <= i < |s| && 0 <= j < |s| ensures s[i] == s[j] {
            assert lo <= s[i] <= hi && lo <= s[j] <= hi;
          }
        }
      } else {
        var k :| 0 <= k < |s| && s[k] == hi;
        var m :| 0 <= m < |s| && s[m] == lo;
        assert r[k] == 1.0;
        assert s[k] != s[m];
      }
    }
  }

  /**
   * With a non-zero spread, the scores that normalise to 0 are exactly the
   * minima and those that normalise to 1 are exactly the maxima; both occur.
   */
  lemma NormalizeExtremes(s: seq<real>)
    requires |s| > 0 && Max(s) - Min(s) != 0.0
    ensures forall i :: 0 <= i < |s| ==> (NormalizeScores(s)[i] == 0.0 <==> s[i] == Min(s))
    ensures forall i :: 0 <= i < |s| ==> (NormalizeScores(s)[i] == 1.0 <==> s[i] == Max(s))
    ensures 0.0 in NormalizeScores(s) && 1.0 in NormalizeScores(s)
  {
    var lo, hi := Min(s), Max(s);
    var r := ScaleAll(s, lo, hi);
    assert NormalizeScores(s) == r;
    var k :| 0 <= k < |s| && s[k] == hi;
    var m :| 0 <= m < |s| && s[m] == lo;
    assert r[k] == 1.0 && r[m] == 0.0;
  }

  /** Normalisation preserves the order of any two scores. */
  lemma NormalizeMonotone(s: seq<real>, i: int, j: int)
    requires 0 <= i < |s| && 0 <= j < |s|
    requires s[i] <= s[j]
    ensures NormalizeScores(s)[i] <= NormalizeScores(s)[j]
  {
    var lo, hi := Min(s), Max(s);
    if hi - lo != 0.0 {
      ScaleMonotone(s[i], s[j], lo, hi);
    }
  }

  /** With a non-zero spread, normalisation also reflects the order: it is strictly monotone. */
  lemma NormalizeStrict(s: seq<real>, i: int, j: int)
    requires 0 <= i < |s| && 0 <= j < |s|
    requires Max(s) - Min(s) != 0.0
    ensures s[i] < s[j] <==> NormalizeScores(s)[i] < NormalizeScores(s)[j]
  {
    var lo, hi := Min(s), Max(s);
    if s[i] < s[j] {
      ScaleStrict(s[i], s[j], lo, hi);
    } else {
      ScaleMonotone(s[j], s[i], lo, hi);
    }
  }

  lemma ScaleMonotone(x: real, y: real, lo: real, hi: real)
    requires lo <= x <= y <= hi && lo < hi
    ensures Scale(x, lo, hi) <= Scale(y, lo, hi)
  {
    var d := hi - lo;
    assert Scale(y, lo, hi) - Scale(x, lo, hi) == (y - x) / d;
  }

  lemma ScaleStrict(x: real, y: real, lo: real, hi: real)
    requires lo <= x < y <= hi && lo < hi
    ensures Scale(x, lo, hi) < Scale(y, lo, hi)
  {
    var d := hi - lo;
    assert Scale(y, lo, hi) - Scale(x, lo, hi) == (y - x) / d;
  }
}
