/** The insertion pass the services run in place on slices (sortFloats, sortStrings, the count passes of
    mostCommon and topCounts), its meaning, and the top-N lists built with it. */
module Ranking {
  import opened Text

  // ---------- what one pass computes ----------

  /** Put x behind every element it does not precede, scanning from the right end. */
  function Insert<T>(s: seq<T>, x: T, before: (T, T) -> bool): seq<T> {
    if s == [] || !before(x, s[|s| - 1]) then s + [x]
    else Insert(s[..|s| - 1], x, before) + [s[|s| - 1]]
  }

  function InsertAll<T>(s: seq<T>, before: (T, T) -> bool): seq<T> {
    if s == [] then [] else Insert(InsertAll(s[..|s| - 1], before), s[|s| - 1], before)
  }

  ghost predicate StrictWeakOrder<T(!new)>(before: (T, T) -> bool) {
    && (forall x :: !before(x, x))
    && (forall x, y, z :: before(x, y) && before(y, z) ==> before(x, z))
    && (forall x, y, z :: before(x, z) ==> before(x, y) || before(y, z))
  }

  /** No element precedes an element to its left. */
  ghost predicate Sorted<T>(s: seq<T>, before: (T, T) -> bool) {
    forall i, j :: 0 <= i < j < |s| ==> !before(s[j], s[i])
  }

  /** Each element precedes every element to its right. */
  ghost predicate StrictlySorted<T>(s: seq<T>, before: (T, T) -> bool) {
    forall i, j :: 0 <= i < j < |s| ==> before(s[i], s[j])
  }

  lemma {:induction false} InsertWhere<T>(s: seq<T>, p: nat, x: T, before: (T, T) -> bool)
    requires p <= |s| && (p > 0 ==> !before(x, s[p - 1]))
    requires forall k :: p <= k < |s| ==> before(x, s[k])
    ensures Insert(s, x, before) == s[..p] + [x] + s[p..]
    decreases |s|
  {
    if p < |s| {
      InsertWhere(s[..|s| - 1], p, x, before);
      assert s[..|s| - 1][..p] == s[..p];
      assert s[..|s| - 1][p..] + [s[|s| - 1]] == s[p..];
    } else {
      assert s[..p] + [x] + s[p..] == s + [x];
    }
  }

  /** Where Insert puts x. */
  lemma {:induction false} InsertSplit<T>(s: seq<T>, x: T, before: (T, T) -> bool) returns (p: nat)
    ensures p <= |s| && (p > 0 ==> !before(x, s[p - 1]))
    ensures forall k :: p <= k < |s| ==> before(x, s[k])
    ensures Insert(s, x, before) == s[..p] + [x] + s[p..]
  {
    p := |s|;
    while p > 0 && before(x, s[p - 1])
      invariant p <= |s| && forall k :: p <= k < |s| ==> before(x, s[k])
    {
      p := p - 1;
    }
    InsertWhere(s, p, x, before);
  }

  lemma InsertPermutes<T>(s: seq<T>, x: T, before: (T, T) -> bool)
    ensures multiset(Insert(s, x, before)) == multiset(s) + multiset{x}
    ensures |Insert(s, x, before)| == |s| + 1
  {
    var p := InsertSplit(s, x, before);
    hide Insert;
    assert s == s[..p] + s[p..];
    assert multiset(s) == multiset(s[..p]) + multiset(s[p..]);
  }

  lemma {:induction false} InsertAllPermutes<T>(s: seq<T>, before: (T, T) -> bool)
    ensures multiset(InsertAll(s, before)) == multiset(s)
    ensures |InsertAll(s, before)| == |s|
    decreases |s|
  {
    hide Insert;
    if s != [] {
      var init, x := s[..|s| - 1], s[|s| - 1];
      InsertAllPermutes(init, before);
      InsertPermutes(InsertAll(init, before), x, before);
      assert s == init + [x];
      assert multiset(s) == multiset(init) + multiset{x};
    }
  }

  lemma InsertSorts<T(!new)>(r: seq<T>, x: T, before: (T, T) -> bool)
    requires StrictWeakOrder(before) && Sorted(r, before)
    ensures Sorted(Insert(r, x, before), before)
  {
    var p := InsertSplit(r, x, before);
    var t := Insert(r, x, before);
    hide Insert;
    forall i | 0 <= i < p ensures !before(x, r[i]) {
      assert i < p - 1 ==> !before(r[p - 1], r[i]);
    }
    forall k | p <= k < |r| ensures !before(r[k], x) {
      assert before(x, r[k]) && !before(x, x);
    }
    forall i, j | 0 <= i < j < |t| ensures !before(t[j], t[i]) {
      assert t[i] == if i < p then r[i] else if i == p then x else r[i - 1];
      assert t[j] == if j < p then r[j] else if j == p then x else r[j - 1];
    }
  }

  lemma {:induction false} InsertAllSorts<T(!new)>(s: seq<T>, before: (T, T) -> bool)
    requires StrictWeakOrder(before)
    ensures Sorted(InsertAll(s, before), before)
    decreases |s|
  {
    hide StrictWeakOrder, Insert;
    if s != [] {
      InsertAllSorts(s[..|s| - 1], before);
      InsertSorts(InsertAll(s[..|s| - 1], before), s[|s| - 1], before);
    }
  }

  /** Elements that satisfy a predicate. */
  function Select<T>(s: seq<T>, keep: T -> bool): seq<T> {
    if s == [] then [] else Select(s[..|s| - 1], keep) + if keep(s[|s| - 1]) then [s[|s| - 1]] else []
  }

  lemma {:induction false} SelectConcat<T>(s: seq<T>, t: seq<T>, keep: T -> bool)
    ensures Select(s + t, keep) == Select(s, keep) + Select(t, keep)
    decreases |t|
  {
    if t == [] {
      assert s + t == s;
    } else {
      assert (s + t)[..|s + t| - 1] == s + t[..|t| - 1];
      SelectConcat(s, t[..|t| - 1], keep);
    }
  }

  lemma {:induction false} SelectNone<T>(s: seq<T>, keep: T -> bool)
    requires forall i :: 0 <= i < |s| ==> !keep(s[i])
    ensures Select(s, keep) == []
    decreases |s|
  {
    if s != [] {
      SelectNone(s[..|s| - 1], keep);
    }
  }

  lemma InsertStable<T(!new)>(r: seq<T>, x: T, before: (T, T) -> bool, keep: T -> bool)
    requires forall x, y :: keep(x) && keep(y) ==> !before(x, y)
    ensures Select(Insert(r, x, before), keep) == Select(r, keep) + if keep(x) then [x] else []
  {
    var p := InsertSplit(r, x, before);
    assert r == r[..p] + r[p..];
    SelectConcat(r[..p] + [x], r[p..], keep);
    SelectConcat(r[..p], [x], keep);
    SelectConcat(r[..p], r[p..], keep);
    assert Select([x], keep) == if keep(x) then [x] else [];
    if keep(x) {
      SelectNone(r[p..], keep);
    }
  }

  /** Stability: within any class of mutually unordered elements the pass keeps the original order. */
  lemma {:induction false} InsertAllStable<T(!new)>(s: seq<T>, before: (T, T) -> bool, keep: T -> bool)
    requires forall x, y :: keep(x) && keep(y) ==> !before(x, y)
    ensures Select(InsertAll(s, before), keep) == Select(s, keep)
    decreases |s|
  {
    if s != [] {
      InsertAllStable(s[..|s| - 1], before, keep);
      InsertStable(InsertAll(s[..|s| - 1], before), s[|s| - 1], before, keep);
    }
  }

  /** The inner loop: `for j := i; j > 0 && before(v[j], v[j-1]); j-- { swap }`. */
  method SinkLeft<T>(v: array<T>, i: nat, before: (T, T) -> bool)
    requires i < v.Length
    modifies v
    ensures v[..] == Insert(old(v[..i]), old(v[i]), before) + old(v[i + 1..])
  {
    ghost var sorted, x := v[..i], v[i];
    var j := i;
    while j > 0 && before(v[j], v[j - 1])
      invariant 0 <= j <= i
      invariant forall k :: 0 <= k < j ==> v[k] == sorted[k]
      invariant v[j] == x
      invariant forall k :: j < k <= i ==> v[k] == sorted[k - 1]
      invariant forall k :: i < k < v.Length ==> v[k] == old(v[k])
      invariant forall k :: j <= k < i ==> before(x, sorted[k])
    {
      v[j], v[j - 1] := v[j - 1], v[j];
      j := j - 1;
    }
    InsertWhere(sorted, j, x, before);
    assert v[..] == sorted[..j] + [x] + sorted[j..] + old(v[i + 1..]);
  }

  /** `for i { for j := i; j > 0 && before(v[j], v[j-1]); j-- { swap } }`. */
  method InsertionPass<T>(v: array<T>, before: (T, T) -> bool)
    modifies v
    ensures v[..] == InsertAll(old(v[..]), before)
  {
    ghost var s := v[..];
    var i := 0;
    while i < v.Length
      invariant 0 <= i <= v.Length
      invariant v[..i] == InsertAll(s[..i], before)
      invariant v[i..] == s[i..]
    {
      ghost var now := v[..];
      SinkLeft(v, i, before);
      assert s[..i + 1][..i] == s[..i];
      assert v[..i + 1] == Insert(now[..i], now[i], before);
      i := i + 1;
    }
    assert v[..] == v[..i] && s[..i] == s;
  }

  // ---------- ordered lists of counts ----------

  datatype Entry = Entry(name: string, value: nat)

  function CountOf(counter: map<string, nat>, k: string): nat {
    if k in counter then counter[k] else 0
  }

  /** More first; names in ascending order among equal counts. */
  predicate Precedes(counter: map<string, nat>, x: string, y: string) {
    CountOf(counter, x) > CountOf(counter, y)
    || (CountOf(counter, x) == CountOf(counter, y) && LexLess(x, y))
  }

  function MoreCommon(counter: map<string, nat>): (string, string) -> bool {
    (x, y) => CountOf(counter, x) > CountOf(counter, y)
  }

  function TopBefore(counter: map<string, nat>): (string, string) -> bool {
    (x, y) => Precedes(counter, x, y)
  }

  lemma LexCompare(x: string, y: string, z: string)
    ensures !LexLess(x, x)
    ensures LexLess(x, y) && LexLess(y, z) ==> LexLess(x, z)
    ensures LexLess(x, z) ==> LexLess(x, y) || LexLess(y, z)
  {
    LexTrichotomy(x, x);
    LexTrichotomy(x, y);
    if LexLess(x, y) && LexLess(y, z) { LexTransitive(x, y, z); }
    if LexLess(y, x) && LexLess(x, z) { LexTransitive(y, x, z); }
  }

  lemma TopCompare(counter: map<string, nat>, x: string, y: string, z: string)
    ensures !Precedes(counter, x, x)
    ensures Precedes(counter, x, y) && Precedes(counter, y, z) ==> Precedes(counter, x, z)
    ensures Precedes(counter, x, z) ==> Precedes(counter, x, y) || Precedes(counter, y, z)
    ensures x != y ==> Precedes(counter, x, y) || Precedes(counter, y, x)
  {
    LexCompare(x, y, z);
    LexTrichotomy(x, y);
  }

  /** The pass by count alone turns an order by name into the order by (count descending, name ascending). */
  lemma {:induction false} CountPassRefinesNames(s: seq<string>, counter: map<string, nat>)
    requires StrictlySorted(s, LexLess)
    ensures StrictlySorted(InsertAll(s, MoreCommon(counter)), TopBefore(counter))
    decreases |s|
  {
    if s != [] {
      var init, x := s[..|s| - 1], s[|s| - 1];
      var r := InsertAll(init, MoreCommon(counter));
      CountPassRefinesNames(init, counter);
      InsertAllPermutes(init, MoreCommon(counter));
      forall k | 0 <= k < |r| ensures LexLess(r[k], x) {
        assert r[k] in multiset(init);
      }
      InsertByCount(r, x, counter);
    }
  }

  lemma InsertByCount(r: seq<string>, x: string, counter: map<string, nat>)
    requires StrictlySorted(r, TopBefore(counter))
    requires forall k :: 0 <= k < |r| ==> LexLess(r[k], x)
    ensures StrictlySorted(Insert(r, x, MoreCommon(counter)), TopBefore(counter))
  {
    var top := TopBefore(counter);
    var p := InsertSplit(r, x, MoreCommon(counter));
    var t := r[..p] + [x] + r[p..];
    forall i | 0 <= i < p ensures top(r[i], x) {
      assert top(r[p - 1], x);
      TopCompare(counter, r[i], r[p - 1], x);
    }
    forall k | p <= k < |r| ensures top(x, r[k]) {
    }
    forall i, j | 0 <= i < j < |t| ensures top(t[i], t[j]) {
      var i', j' := if i <= p then i else i - 1, if j <= p then j else j - 1;
      assert i != p ==> t[i] == r[i'];
      assert j != p ==> t[j] == r[j'];
    }
  }

  /** What a top list is: the first entries of the one order by (count descending, name ascending). */
  ghost predicate IsTopList(counter: map<string, nat>, limit: int, out: seq<Entry>) {
    && |out| == (if 0 < limit < |counter| then limit else |counter|)
    && (forall i :: 0 <= i < |out| ==> out[i].name in counter && out[i].value == counter[out[i].name])
    && (forall i, j :: 0 <= i < j < |out| ==> Precedes(counter, out[i].name, out[j].name))
    && (forall k :: k in counter && !Listed(out, k) ==> AllPrecede(counter, out, k))
  }

  ghost predicate Listed(out: seq<Entry>, k: string) {
    exists i :: 0 <= i < |out| && out[i].name == k
  }

  ghost predicate AllPrecede(counter: map<string, nat>, out: seq<Entry>, k: string) {
    forall i :: 0 <= i < |out| ==> Precedes(counter, out[i].name, k)
  }

  /** There is one top list, so the order in which a map hands out its keys cannot show. */
  lemma TopListUnique(counter: map<string, nat>, limit: int, a: seq<Entry>, b: seq<Entry>)
    requires IsTopList(counter, limit, a) && IsTopList(counter, limit, b)
    ensures a == b
  {
    TopListPrefix(counter, limit, a, b, |a|);
    assert a == a[..|a|] && b == b[..|b|];
  }

  lemma {:induction false} TopListPrefix(counter: map<string, nat>, limit: int, a: seq<Entry>, b: seq<Entry>, n: nat)
    requires IsTopList(counter, limit, a) && IsTopList(counter, limit, b) && n <= |a|
    ensures |a| == |b| && a[..n] == b[..n]
    decreases n
  {
    if n > 0 {
      TopListPrefix(counter, limit, a, b, n - 1);
      TopListAgrees(counter, limit, a, b, n - 1);
    }
  }

  lemma TopListAgrees(counter: map<string, nat>, limit: int, a: seq<Entry>, b: seq<Entry>, i: nat)
    requires IsTopList(counter, limit, a) && IsTopList(counter, limit, b)
    requires i < |a| && a[..i] == b[..i]
    ensures a[..i + 1] == b[..i + 1]
  {
    TopListNotBefore(counter, limit, a, b, i);
    TopListNotBefore(counter, limit, b, a, i);
    TopCompare(counter, a[i].name, b[i].name, a[i].name);
    assert a[..i + 1] == a[..i] + [a[i]] && b[..i + 1] == b[..i] + [b[i]];
  }

  lemma TopListNotBefore(counter: map<string, nat>, limit: int, a: seq<Entry>, b: seq<Entry>, i: nat)
    requires IsTopList(counter, limit, a) && IsTopList(counter, limit, b)
    requires i < |a| && a[..i] == b[..i]
    ensures !Precedes(counter, a[i].name, b[i].name)
  {
    var x, y := a[i].name, b[i].name;
    TopCompare(counter, x, y, x);
    forall j | 0 <= j < i ensures b[j].name != x {
      assert a[j] == a[..i][j] == b[..i][j] == b[j];
      assert Precedes(counter, a[j].name, x);
    }
    if Listed(b, x) {
      var j :| 0 <= j < |b| && b[j].name == x;
      assert j >= i;
    } else {
      assert AllPrecede(counter, b, x);
    }
  }

  predicate Distinct<T(==)>(s: seq<T>) {
    forall i, j :: 0 <= i < j < |s| ==> s[i] != s[j]
  }

  lemma InsertDistinct<T>(r: seq<T>, x: T, before: (T, T) -> bool)
    requires Distinct(r) && x !in r
    ensures Distinct(Insert(r, x, before))
    ensures forall y :: y in Insert(r, x, before) <==> y in r || y == x
  {
    var p := InsertSplit(r, x, before);
    var t := Insert(r, x, before);
    assert forall i :: 0 <= i < |t| ==> t[i] == if i < p then r[i] else if i == p then x else r[i - 1];
    forall y ensures y in t <==> y in r || y == x {
      if y in r {
        var k :| 0 <= k < |r| && r[k] == y;
        assert t[if k < p then k else k + 1] == y;
      }
      if y == x { assert t[p] == y; }
    }
  }

  lemma {:induction false} InsertAllDistinct<T>(s: seq<T>, before: (T, T) -> bool)
    requires Distinct(s)
    ensures Distinct(InsertAll(s, before))
    ensures forall x :: x in InsertAll(s, before) <==> x in s
    decreases |s|
  {
    if s != [] {
      InsertAllDistinct(s[..|s| - 1], before);
      assert s == s[..|s| - 1] + [s[|s| - 1]];
      InsertDistinct(InsertAll(s[..|s| - 1], before), s[|s| - 1], before);
    }
  }

  /** A sorted sequence of distinct names is strictly sorted. */
  lemma SortedDistinct(s: seq<string>)
    requires Sorted(s, LexLess) && Distinct(s)
    ensures StrictlySorted(s, LexLess)
  {
    forall i, j | 0 <= i < j < |s| ensures LexLess(s[i], s[j]) {
      LexTrichotomy(s[i], s[j]);
    }
  }

  /** Both passes over the keys, whatever the order in which the map hands them out. */
  lemma RankedKeys(counter: map<string, nat>, collected: seq<string>) returns (ranked: seq<string>)
    requires Distinct(collected)
    ensures ranked == InsertAll(InsertAll(collected, LexLess), MoreCommon(counter))
    ensures StrictlySorted(ranked, TopBefore(counter))
    ensures |ranked| == |collected| && forall k :: k in ranked <==> k in collected
  {
    var byName := InsertAll(collected, LexLess);
    ranked := InsertAll(byName, MoreCommon(counter));
    forall x, y, z { LexCompare(x, y, z); }
    InsertAllSorts(collected, LexLess);
    InsertAllPermutes(collected, LexLess);
    InsertAllDistinct(collected, LexLess);
    SortedDistinct(byName);
    CountPassRefinesNames(byName, counter);
    InsertAllPermutes(byName, MoreCommon(counter));
    InsertAllDistinct(byName, MoreCommon(counter));
  }

  lemma PrefixIsTopList(counter: map<string, nat>, limit: int, ranked: seq<string>, out: seq<Entry>)
    requires StrictlySorted(ranked, TopBefore(counter))
    requires |ranked| == |counter| && forall k :: k in ranked <==> k in counter
    requires |out| == (if 0 < limit < |ranked| then limit else |ranked|)
    requires forall i :: 0 <= i < |out| ==> out[i] == Entry(ranked[i], CountOf(counter, ranked[i]))
    ensures IsTopList(counter, limit, out)
  {
    forall i | 0 <= i < |out| ensures out[i].name in counter {
      assert ranked[i] in ranked;
    }
    forall k | k in counter && !Listed(out, k) ensures AllPrecede(counter, out, k) {
      var p :| 0 <= p < |ranked| && ranked[p] == k;
      assert forall i :: 0 <= i < |out| ==> ranked[i] == out[i].name && ranked[i] != k;
      assert p >= |out|;
      forall i | 0 <= i < |out| ensures Precedes(counter, out[i].name, k) {
        assert TopBefore(counter)(ranked[i], ranked[p]);
      }
    }
  }

  /** `for k := range counter { keys = append(keys, k) }`: the map hands out its keys in any order. */
  method CollectKeys(counter: map<string, nat>) returns (collected: seq<string>)
    ensures Distinct(collected) && |collected| == |counter|
    ensures forall k :: k in collected <==> k in counter
  {
    var remaining := counter.Keys;
    collected := [];
    while remaining != {}
      invariant remaining <= counter.Keys
      invariant forall k :: k in collected <==> k in counter && k !in remaining
      invariant Distinct(collected)
      invariant |collected| + |remaining| == |counter|
      decreases remaining
    {
      var k :| k in remaining;
      remaining, collected := remaining - {k}, collected + [k];
    }
  }

  method PairWithCounts(keys: array<string>, size: nat, counter: map<string, nat>) returns (out: seq<Entry>)
    requires size <= keys.Length
    ensures |out| == size
    ensures forall i :: 0 <= i < size ==> out[i] == Entry(keys[i], CountOf(counter, keys[i]))
  {
    out := [];
    for i := 0 to size
      invariant |out| == i && forall j :: 0 <= j < i ==> out[j] == Entry(keys[j], CountOf(counter, keys[j]))
    {
      out := out + [Entry(keys[i], CountOf(counter, keys[i]))];
    }
  }

  /** `sort.Strings(keys)` and the pass by count. */
  method RankKeys(collected: seq<string>, counter: map<string, nat>) returns (keys: array<string>)
    ensures fresh(keys)
    ensures keys[..] == InsertAll(InsertAll(collected, LexLess), MoreCommon(counter))
  {
    keys := new string[|collected|](i requires 0 <= i < |collected| => collected[i]);
    assert keys[..] == collected;
    InsertionPass(keys, LexLess);
    InsertionPass(keys, MoreCommon(counter));
  }

  /** mostCommon and topCounts: collect the keys, sort them by name, run the pass by count, cut, pair up. */
  method MostCommon(counter: map<string, nat>, limit: int) returns (out: seq<Entry>)
    ensures IsTopList(counter, limit, out)
  {
    var collected := CollectKeys(counter);
    var keys := RankKeys(collected, counter);
    ghost var ranked := RankedKeys(counter, collected);
    hide InsertAll, IsTopList;
    var size := if 0 < limit < keys.Length then limit else keys.Length;
    out := PairWithCounts(keys, size, counter);
    assert forall i :: 0 <= i < keys.Length ==> keys[i] == ranked[i];
    PrefixIsTopList(counter, limit, ranked, out);
  }
}
