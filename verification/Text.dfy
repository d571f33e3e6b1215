/** Strings as the Go code uses them: byte order, trimming, splitting and joining lines,
    ASCII case mapping and decimal numbers. */
module Text {

  // ---------- order ----------

  /** Go's `<` on strings. */
  predicate LexLess(a: string, b: string)
    decreases |b|
  {
    |b| > 0 && (|a| == 0 || a[0] < b[0] || (a[0] == b[0] && LexLess(a[1..], b[1..])))
  }

  lemma {:induction false} LexTrichotomy(a: string, b: string)
    ensures a == b || LexLess(a, b) || LexLess(b, a)
    ensures !(LexLess(a, b) && LexLess(b, a))
    ensures a == b ==> !LexLess(a, b)
    decreases |b|
  {
    if |a| > 0 && |b| > 0 {
      LexTrichotomy(a[1..], b[1..]);
      if a[0] == b[0] && a[1..] == b[1..] {
        assert a == [a[0]] + a[1..] && b == [b[0]] + b[1..];
      }
    }
  }

  lemma {:induction false} LexTransitive(a: string, b: string, c: string)
    requires LexLess(a, b) && LexLess(b, c)
    ensures LexLess(a, c)
    decreases |b|
  {
    if |a| > 0 && a[0] == b[0] == c[0] {
      LexTransitive(a[1..], b[1..], c[1..]);
    }
  }

  /** A common prefix does not matter. */
  lemma {:induction false} LexAfterPrefix(p: string, x: string, y: string)
    ensures LexLess(p + x, p + y) == LexLess(x, y)
    decreases |p|
  {
    if p == "" {
      assert p + x == x && p + y == y;
    } else {
      assert (p + x)[1..] == p[1..] + x && (p + y)[1..] == p[1..] + y;
      LexAfterPrefix(p[1..], x, y);
    }
  }

  /** Two strings of one length that already differ decide the order of whatever follows. */
  lemma {:induction false} LexByHead(a: string, b: string, x: string, y: string)
    requires |a| == |b| && LexLess(a, b)
    ensures LexLess(a + x, b + y)
    decreases |a|
  {
    assert (a + x)[1..] == a[1..] + x && (b + y)[1..] == b[1..] + y;
    if a[0] == b[0] {
      LexByHead(a[1..], b[1..], x, y);
    }
  }

  // ---------- characters ----------

  /** Go's unicode.IsSpace. */
  predicate IsSpace(c: char) {
    '\U{0009}' <= c <= '\U{000D}' || c == ' ' || c == '\U{0085}' || c == '\U{00A0}' || c == '\U{1680}'
    || '\U{2000}' <= c <= '\U{200A}' || c == '\U{2028}' || c == '\U{2029}' || c == '\U{202F}'
    || c == '\U{205F}' || c == '\U{3000}'
  }

  predicate IsDot(c: char) { c == '.' }

  function LowerChar(c: char): char {
    if 'A' <= c <= 'Z' then (c as int + 32) as char else c
  }

  function UpperChar(c: char): char {
    if 'a' <= c <= 'z' then (c as int - 32) as char else c
  }

  function ToLower(s: string): (r: string)
    ensures |r| == |s| && forall i :: 0 <= i < |s| ==> r[i] == LowerChar(s[i])
  {
    seq(|s|, i requires 0 <= i < |s| => LowerChar(s[i]))
  }

  function ToUpper(s: string): (r: string)
    ensures |r| == |s| && forall i :: 0 <= i < |s| ==> r[i] == UpperChar(s[i])
  {
    seq(|s|, i requires 0 <= i < |s| => UpperChar(s[i]))
  }

  // ---------- trimming ----------

  function TrimLeft(s: string, cut: char -> bool): (r: string)
    ensures |r| <= |s| && (r != "" ==> !cut(r[0]))
    ensures forall i :: 0 <= i < |r| ==> r[i] in s
  {
    if s != "" && cut(s[0]) then TrimLeft(s[1..], cut) else s
  }

  function TrimRight(s: string, cut: char -> bool): (r: string)
    ensures |r| <= |s| && r == s[..|r|] && (r != "" ==> !cut(r[|r| - 1]))
  {
    if s != "" && cut(s[|s| - 1]) then TrimRight(s[..|s| - 1], cut) else s
  }

  function Trim(s: string, cut: char -> bool): (r: string)
    ensures Trimmed(r, cut)
    ensures forall i :: 0 <= i < |r| ==> r[i] in s
  {
    TrimRight(TrimLeft(s, cut), cut)
  }

  predicate Trimmed(s: string, cut: char -> bool) {
    s != "" ==> !cut(s[0]) && !cut(s[|s| - 1])
  }

  lemma TrimOfTrimmed(s: string, cut: char -> bool)
    requires Trimmed(s, cut)
    ensures Trim(s, cut) == s
  {
  }

  predicate AllCut(s: string, cut: char -> bool) { forall k :: 0 <= k < |s| ==> cut(s[k]) }

  /** Trimming takes characters of the kind off both ends and leaves the middle as it is. */
  lemma TrimMeans(s: string, cut: char -> bool)
    ensures exists i, j :: 0 <= i <= j <= |s| && Trim(s, cut) == s[i..j] && AllCut(s[..i], cut) && AllCut(s[j..], cut)
  {
    var left := TrimLeft(s, cut);
    var i := TrimLeftMeans(s, cut);
    TrimRightMeans(left, cut);
    var j := i + |Trim(s, cut)|;
    assert s[i..j] == left[..|Trim(s, cut)|];
    assert s[j..] == left[|Trim(s, cut)|..];
    assert AllCut(s[..i], cut) && AllCut(s[j..], cut);
  }

  lemma {:induction false} TrimLeftMeans(s: string, cut: char -> bool) returns (i: nat)
    ensures i <= |s| && TrimLeft(s, cut) == s[i..] && forall k :: 0 <= k < i ==> cut(s[k])
    decreases |s|
  {
    i := 0;
    if s != "" && cut(s[0]) {
      var j := TrimLeftMeans(s[1..], cut);
      i := j + 1;
      assert forall k :: 1 <= k < i ==> s[k] == s[1..][k - 1];
    }
  }

  lemma {:induction false} TrimRightMeans(s: string, cut: char -> bool)
    ensures forall k :: |TrimRight(s, cut)| <= k < |s| ==> cut(s[k])
    decreases |s|
  {
    if s != "" && cut(s[|s| - 1]) {
      TrimRightMeans(s[..|s| - 1], cut);
    }
  }

  function TrimSpace(s: string): (r: string)
    ensures Trimmed(r, IsSpace)
    ensures forall i :: 0 <= i < |r| ==> r[i] in s
  {
    Trim(s, IsSpace)
  }

  /** `strings.ToLower(strings.Trim(strings.TrimSpace(v), "."))`: normalizeFQDN and risk.norm. */
  function NormName(s: string): string {
    ToLower(Trim(TrimSpace(s), IsDot))
  }

  predicate NoSpace(s: string) {
    forall i :: 0 <= i < |s| ==> !IsSpace(s[i])
  }

  /** Lowering keeps white space and dots where they are. */
  lemma LowerKeepsClass(s: string)
    ensures forall i :: 0 <= i < |s| ==> IsSpace(ToLower(s)[i]) == IsSpace(s[i]) && IsDot(ToLower(s)[i]) == IsDot(s[i])
  {
  }

  lemma LowerTwice(s: string)
    ensures ToLower(ToLower(s)) == ToLower(s)
  {
  }

  /** Normalising twice is normalising once, when the text holds no white space. */
  lemma NormIdempotent(s: string)
    requires NoSpace(s)
    ensures NoSpace(NormName(s)) && NormName(NormName(s)) == NormName(s)
  {
    var u := Trim(TrimSpace(s), IsDot);
    assert NoSpace(u);
    LowerKeepsClass(u);
    LowerTwice(u);
    TrimOfTrimmed(ToLower(u), IsSpace);
    TrimOfTrimmed(ToLower(u), IsDot);
  }

  // ---------- lines ----------

  predicate NoBreak(s: string) {
    forall i :: 0 <= i < |s| ==> s[i] != '\n'
  }

  /** `strings.Split(s, "\n")`. */
  function SplitLines(s: string): (r: seq<string>)
    ensures |r| >= 1 && forall i :: 0 <= i < |r| ==> NoBreak(r[i])
  {
    if s == "" then [""]
    else
      var rest := SplitLines(s[1..]);
      if s[0] == '\n' then [""] + rest
      else
        assert NoBreak([s[0]] + rest[0]);
        [[s[0]] + rest[0]] + rest[1..]
  }

  function JoinLines(rows: seq<string>): string {
    if |rows| == 0 then ""
    else if |rows| == 1 then rows[0]
    else rows[0] + "\n" + JoinLines(rows[1..])
  }

  lemma {:induction false} SplitFirst(a: string, t: string)
    requires NoBreak(a)
    ensures SplitLines(a + "\n" + t) == [a] + SplitLines(t)
    decreases |a|
  {
    var s := a + "\n" + t;
    if a == "" {
      assert s[1..] == t;
    } else {
      assert s[1..] == a[1..] + "\n" + t;
      SplitFirst(a[1..], t);
      assert [a[0]] + a[1..] == a;
    }
  }

  lemma {:induction false} SplitSingle(a: string)
    requires NoBreak(a)
    ensures SplitLines(a) == [a]
    decreases |a|
  {
    if a != "" {
      SplitSingle(a[1..]);
      assert [a[0]] + a[1..] == a;
    }
  }

  /** Splitting and joining again gives the text back. */
  lemma {:induction false} JoinOfSplit(s: string)
    ensures JoinLines(SplitLines(s)) == s
    decreases |s|
  {
    if s != "" {
      JoinOfSplit(s[1..]);
      var rest := SplitLines(s[1..]);
      if s[0] == '\n' {
        assert SplitLines(s)[1..] == rest;
      } else {
        assert SplitLines(s)[1..] == rest[1..];
      }
    }
  }

  /** Joining lines that hold no line break and splitting them again gives them back. */
  lemma {:induction false} SplitOfJoin(rows: seq<string>)
    requires |rows| >= 1 && forall i :: 0 <= i < |rows| ==> NoBreak(rows[i])
    ensures SplitLines(JoinLines(rows)) == rows
    decreases |rows|
  {
    if |rows| == 1 {
      SplitSingle(rows[0]);
    } else {
      SplitOfJoin(rows[1..]);
      SplitFirst(rows[0], JoinLines(rows[1..]));
      assert [rows[0]] + rows[1..] == rows;
    }
  }

  // ---------- numbers ----------

  function Digit(d: nat): (c: char)
    requires d < 10
    ensures '0' <= c <= '9'
  {
    ('0' as int + d) as char
  }

  /** `%d` of a non-negative number. */
  function Decimal(n: nat): (r: string)
    ensures |r| >= 1 && forall i :: 0 <= i < |r| ==> '0' <= r[i] <= '9'
  {
    if n < 10 then [Digit(n)] else Decimal(n / 10) + [Digit(n % 10)]
  }

  /** The number that digits stand for. */
  function Value(s: string): nat
    requires forall i :: 0 <= i < |s| ==> '0' <= s[i] <= '9'
  {
    if s == "" then 0 else Value(s[..|s| - 1]) * 10 + (s[|s| - 1] as int - '0' as int)
  }

  /** No other number shorter than ten prints as one digit, so the last digit can be peeled off. */
  lemma {:induction false} DecimalInjective(n: nat, m: nat)
    requires Decimal(n) == Decimal(m)
    ensures n == m
    decreases n
  {
    var a, b := Decimal(n), Decimal(m);
    assert a[|a| - 1] == Digit(n % 10) && b[|b| - 1] == Digit(m % 10);
    assert n % 10 == m % 10;
    if n >= 10 && m >= 10 {
      assert a[..|a| - 1] == Decimal(n / 10) && b[..|b| - 1] == Decimal(m / 10);
      DecimalInjective(n / 10, m / 10);
    }
  }

  // ---------- joined keys ----------

  predicate NoBar(s: string) {
    forall i :: 0 <= i < |s| ==> s[i] != '|'
  }

  lemma {:induction false} BarSplits(a: string, x: string, b: string, y: string)
    requires NoBar(a) && NoBar(b) && a + "|" + x == b + "|" + y
    ensures a == b && x == y
    decreases |a|
  {
    var s, t := a + "|" + x, b + "|" + y;
    assert s[0] == t[0];
    if a == "" {
      assert t[0] == '|' && b == "";
      assert s[1..] == x && t[1..] == y;
    } else if b == "" {
      assert false;
    } else {
      assert s[1..] == a[1..] + "|" + x && t[1..] == b[1..] + "|" + y;
      BarSplits(a[1..], x, b[1..], y);
      assert a == [a[0]] + a[1..] && b == [b[0]] + b[1..];
    }
  }
}
