/** Sums and bounds of real numbers, and lists of distinct indices. */
module RealSums {
  function Max(a: real, b: real): real {
    if a < b then b else a
  }

  function Min(a: real, b: real): real {
    if a < b then a else b
  }

  ghost predicate Distinct<T>(s: seq<T>) {
    forall i, j :: 0 <= i < j < |s| ==> s[i] != s[j]
  }

  predicate Indices(ks: seq<nat>, n: nat) {
    forall j :: 0 <= j < |ks| ==> ks[j] < n
  }

  function Sum(s: seq<real>): real {
    if s == [] then 0.0 else Sum(s[..|s| - 1]) + s[|s| - 1]
  }

  lemma {:induction false} SumPut(s: seq<real>, i: nat, x: real)
    requires i < |s|
    ensures Sum(s[i := x]) == Sum(s) - s[i] + x
  {
    if i < |s| - 1 {
      SumPut(s[..|s| - 1], i, x);
      assert s[i := x][..|s| - 1] == s[..|s| - 1][i := x];
    } else {
      assert s[i := x][..|s| - 1] == s[..|s| - 1];
    }
  }

  lemma {:induction false} SumBelow(s: seq<real>, t: seq<real>)
    requires |s| == |t| && forall i :: 0 <= i < |s| ==> s[i] <= t[i]
    ensures Sum(s) <= Sum(t)
    ensures Sum(s) == Sum(t) ==> s == t
  {
    if s != [] {
      SumBelow(s[..|s| - 1], t[..|t| - 1]);
      if Sum(s) == Sum(t) {
        assert s == s[..|s| - 1] + [s[|s| - 1]] && t == t[..|t| - 1] + [t[|t| - 1]];
      }
    }
  }

  lemma SumNext(s: seq<real>, k: nat)
    requires k < |s|
    ensures Sum(s[..k + 1]) == Sum(s[..k]) + s[k]
  {
    assert s[..k + 1][..k] == s[..k];
  }

  lemma SumWhole(s: seq<real>)
    ensures Sum(s[..|s|]) == Sum(s) && Sum(s[..0]) == 0.0
  {
    assert s[..|s|] == s;
  }
}
