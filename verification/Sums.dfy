/** Sums over a sequence: how counters follow the parts they count. */
module Sums {
  function Sum<T>(s: seq<T>, f: T -> nat): nat {
    if s == [] then 0 else Sum(s[..|s| - 1], f) + f(s[|s| - 1])
  }

  lemma {:induction false} SumUpdate<T>(s: seq<T>, k: nat, x: T, f: T -> nat)
    requires k < |s|
    ensures Sum(s[k := x], f) == Sum(s, f) - f(s[k]) + f(x)
    decreases |s|
  {
    if k == |s| - 1 {
      assert s[k := x][..k] == s[..k];
    } else {
      assert s[k := x][..|s| - 1] == s[..|s| - 1][k := x];
      SumUpdate(s[..|s| - 1], k, x, f);
    }
  }

  lemma SumAppend<T>(s: seq<T>, x: T, f: T -> nat)
    ensures Sum(s + [x], f) == Sum(s, f) + f(x)
  {
    assert (s + [x])[..|s|] == s;
  }

  lemma {:induction false} SumBounds<T>(s: seq<T>, f: T -> nat, g: T -> nat)
    requires forall k :: 0 <= k < |s| ==> f(s[k]) <= g(s[k])
    ensures Sum(s, f) <= Sum(s, g)
    decreases |s|
  {
    if s != [] {
      SumBounds(s[..|s| - 1], f, g);
    }
  }

  lemma SumSame<T>(s: seq<T>, f: T -> nat, g: T -> nat)
    requires forall k :: 0 <= k < |s| ==> f(s[k]) == g(s[k])
    ensures Sum(s, f) == Sum(s, g)
  {
    SumBounds(s, f, g);
    SumBounds(s, g, f);
  }

  lemma {:induction false} SumZero<T>(s: seq<T>, f: T -> nat)
    ensures Sum(s, f) == 0 <==> forall k :: 0 <= k < |s| ==> f(s[k]) == 0
    decreases |s|
  {
    if s != [] {
      SumZero(s[..|s| - 1], f);
    }
  }

  lemma {:induction false} SomePositive<T>(s: seq<T>, f: T -> nat) returns (k: nat)
    requires Sum(s, f) > 0
    ensures k < |s| && f(s[k]) > 0
    decreases |s|
  {
    if f(s[|s| - 1]) > 0 {
      k := |s| - 1;
    } else {
      k := SomePositive(s[..|s| - 1], f);
    }
  }

  lemma {:induction false} SumOfOnes<T>(s: seq<T>, f: T -> nat)
    requires forall k :: 0 <= k < |s| ==> f(s[k]) <= 1
    ensures Sum(s, f) <= |s|
    ensures (forall k :: 0 <= k < |s| ==> f(s[k]) == 1) ==> Sum(s, f) == |s|
    decreases |s|
  {
    if s != [] {
      SumOfOnes(s[..|s| - 1], f);
    }
  }

  /** A sum of ones and zeros is the number of ones. */
  lemma {:induction false} SumCounts<T>(s: seq<T>, f: T -> nat, ones: set<int>)
    requires forall k :: 0 <= k < |s| ==> f(s[k]) <= 1
    requires forall k :: k in ones ==> 0 <= k < |s|
    requires forall k :: 0 <= k < |s| ==> (k in ones <==> f(s[k]) == 1)
    ensures Sum(s, f) == |ones|
    decreases |s|
  {
    if s == [] {
      assert forall k :: k in ones ==> 0 <= k < |s|;
      assert ones == {};
    } else {
      var n := |s| - 1;
      SumCounts(s[..n], f, ones - {n});
    }
  }
}
