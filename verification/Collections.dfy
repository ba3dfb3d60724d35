/** What several components need about sets and sequences. */
module Collections {
  lemma SubsetSize<T>(a: set<T>, b: set<T>)
    requires a <= b
    ensures |a| <= |b|
  {
    assert b == a + (b - a);
  }

  ghost predicate Distinct<T>(s: seq<T>) {
    forall i, j :: 0 <= i < j < |s| ==> s[i] != s[j]
  }

  function Sum(s: seq<int>): int {
    if s == [] then 0 else Sum(s[..|s| - 1]) + s[|s| - 1]
  }

  lemma {:induction false} SumConcat(a: seq<int>, b: seq<int>)
    ensures Sum(a + b) == Sum(a) + Sum(b)
  {
    if b == [] {
      assert a + b == a;
    } else {
      assert (a + b)[..|a + b| - 1] == a + b[..|b| - 1];
      SumConcat(a, b[..|b| - 1]);
    }
  }

  /** With SumConcat: the sum counts every element exactly once. */
  lemma SumOfOne(x: int)
    ensures Sum([]) == 0 && Sum([x]) == x
  {
    assert [x][..0] == [];
  }

  lemma {:induction false} SumAdds(a: seq<int>, b: seq<int>, c: seq<int>)
    requires |a| == |b| == |c| && forall i :: 0 <= i < |a| ==> c[i] == a[i] + b[i]
    ensures Sum(c) == Sum(a) + Sum(b)
  {
    if a != [] {
      var n := |a| - 1;
      SumAdds(a[..n], b[..n], c[..n]);
    }
  }

  lemma {:induction false} SumScales(a: seq<int>, b: seq<int>, k: int)
    requires |a| == |b| && forall i :: 0 <= i < |a| ==> b[i] == a[i] * k
    ensures Sum(b) == Sum(a) * k
  {
    if a != [] {
      var n := |a| - 1;
      SumScales(a[..n], b[..n], k);
      assert Sum(b) == Sum(a[..n]) * k + a[n] * k == (Sum(a[..n]) + a[n]) * k;
    }
  }

  lemma {:induction false} SumOfZeros(a: seq<int>)
    requires forall i :: 0 <= i < |a| ==> a[i] == 0
    ensures Sum(a) == 0
  {
    if a != [] {
      SumOfZeros(a[..|a| - 1]);
    }
  }

  ghost function Indicator<T>(s: seq<T>, x: T): seq<int> {
    seq(|s|, i requires 0 <= i < |s| => if s[i] == x then 1 else 0)
  }

  /** Exactly one position of a list without duplicates holds x, if x is in it. */
  lemma {:induction false} IndicatorSum<T>(s: seq<T>, x: T)
    requires Distinct(s)
    ensures Sum(Indicator(s, x)) == if x in s then 1 else 0
  {
    if s != [] {
      var n := |s| - 1;
      IndicatorSum(s[..n], x);
      assert Indicator(s, x)[..n] == Indicator(s[..n], x);
      assert s == s[..n] + [s[n]];
    }
  }

  ghost predicate Spaced(times: seq<nat>, every: nat) {
    forall i :: 0 <= i < |times| - 1 ==> times[i + 1] - times[i] >= every
  }

  lemma {:induction false} SpacedFar(times: seq<nat>, every: nat, i: nat, j: nat)
    requires Spaced(times, every) && i <= j < |times|
    ensures times[j] - times[i] >= (j - i) * every
    decreases j
  {
    if i < j {
      SpacedFar(times, every, i, j - 1);
      assert times[j - 1 + 1] - times[j - 1] >= every;
      assert (j - i) * every == (j - 1 - i) * every + every;
    }
  }
}
