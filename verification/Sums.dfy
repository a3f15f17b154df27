/** Sums over finite sequences of integers: the arithmetic shared by the window and the accounting models. */
module Sums {

  /** The sum of all elements. */
  function Sum(s: seq<int>): int {
    if s == [] then 0 else Sum(s[..|s| - 1]) + s[|s| - 1]
  }

  /** Replacing one element changes the sum by the difference. */
  lemma {:induction false} SumUpdate(s: seq<int>, i: nat, v: int)
    requires i < |s|
    ensures Sum(s[i := v]) == Sum(s) - s[i] + v
  {
    var n := |s| - 1;
    if i == n {
      assert s[i := v][..n] == s[..n];
    } else {
      assert s[i := v][..n] == s[..n][i := v];
      SumUpdate(s[..n], i, v);
    }
  }

  lemma {:induction false} SumAppend(s: seq<int>, v: int)
    ensures Sum(s + [v]) == Sum(s) + v
  {
    assert (s + [v])[..|s|] == s;
  }

  lemma {:induction false} SumConcat(s: seq<int>, t: seq<int>)
    ensures Sum(s + t) == Sum(s) + Sum(t)
  {
    if t == [] {
      assert s + t == s;
    } else {
      var n := |t| - 1;
      assert (s + t)[..|s + t| - 1] == s + t[..n];
      SumConcat(s, t[..n]);
    }
  }

  /** Sums of elementwise congruent sequences are congruent. */
  lemma {:induction false} SumMod(s: seq<int>, t: seq<int>, m: int)
    requires m > 0 && |s| == |t|
    requires forall i :: 0 <= i < |s| ==> s[i] % m == t[i] % m
    ensures Sum(s) % m == Sum(t) % m
  {
    if s != [] {
      var n := |s| - 1;
      SumMod(s[..n], t[..n], m);
      AddMod(Sum(s[..n]), s[n], Sum(t[..n]), t[n], m);
    }
  }

  /** Addition respects congruence. */
  lemma AddMod(a: int, b: int, c: int, d: int, m: int)
    requires m > 0 && a % m == c % m && b % m == d % m
    ensures (a + b) % m == (c + d) % m
  {
    var p, q := a / m - c / m, b / m - d / m;
    assert a - c == p * m && b - d == q * m;
    assert a + b == (c + d) + (p + q) * m;
    ModShift(c + d, p + q, m);
  }

  /** Adding a multiple of the modulus does not change the remainder. */
  lemma ModShift(a: int, k: int, m: int)
    requires m > 0
    ensures (a + k * m) % m == a % m
  {
    var r := a % m;
    assert a + k * m == (a / m + k) * m + r;
    QuotientUnique(a + k * m, a / m + k, r, m);
  }

  /** Division with remainder is unique. */
  lemma QuotientUnique(a: int, q: int, r: int, m: int)
    requires m > 0 && a == q * m + r && 0 <= r < m
    ensures a / m == q && a % m == r
  {
    var d := a / m - q;
    assert d * m == r - a % m;
    MultipleSmall(d, m);
  }

  /** A multiple strictly between -m and m is zero. */
  lemma MultipleSmall(d: int, m: int)
    requires m > 0 && -m < d * m < m
    ensures d == 0
  {
  }

  lemma {:induction false} SumNonNegative(s: seq<int>)
    requires forall i :: 0 <= i < |s| ==> 0 <= s[i]
    ensures Sum(s) >= 0
    ensures forall i :: 0 <= i < |s| ==> s[i] <= Sum(s)
  {
    if s != [] {
      SumNonNegative(s[..|s| - 1]);
      forall i | 0 <= i < |s| ensures s[i] <= Sum(s) {
        if i < |s| - 1 {
          assert s[..|s| - 1][i] == s[i];
        }
      }
    }
  }

  lemma {:induction false} SumZero(s: seq<int>)
    requires forall i :: 0 <= i < |s| ==> s[i] == 0
    ensures Sum(s) == 0
  {
    if s != [] {
      SumZero(s[..|s| - 1]);
    }
  }
}
