/** isoFormat of internal/service/riskboard.go and the event order that rests on it. */
module IsoTime {
  import opened Text
  import opened Ranking

  /** Wall-clock fields to the microsecond. */
  datatype Time = Time(year: nat, month: nat, day: nat, hour: nat, minute: nat, second: nat, micro: nat) {
    predicate Valid() {
      year <= 9999 && 1 <= month <= 12 && 1 <= day <= 31 && hour < 24 && minute < 60 && second < 60 && micro < 1_000_000
    }
  }

  /** What a clock in UTC shows at Go's zero time, the instant IsZero tests for. Elsewhere it is the reading of
      the local clock at that instant; the functions below take it as `zero`. */
  const UTC_ZERO := Time(1, 1, 1, 0, 0, 0, 0)

  predicate Earlier(a: Time, b: Time) {
    if a.year != b.year then a.year < b.year
    else if a.month != b.month then a.month < b.month
    else if a.day != b.day then a.day < b.day
    else if a.hour != b.hour then a.hour < b.hour
    else if a.minute != b.minute then a.minute < b.minute
    else if a.second != b.second then a.second < b.second
    else a.micro < b.micro
  }

  function Pow10(w: nat): nat { if w == 0 then 1 else 10 * Pow10(w - 1) }

  /** n in exactly w digits. */
  function Padded(n: nat, w: nat): (s: string)
    ensures |s| == w
  {
    if w == 0 then "" else Padded(n / 10, w - 1) + [Digit(n % 10)]
  }

  function IsoSeconds(t: Time): string {
    Padded(t.year, 4) + ("-" + (Padded(t.month, 2) + ("-" + (Padded(t.day, 2) + ("T" + (Padded(t.hour, 2)
      + (":" + (Padded(t.minute, 2) + (":" + Padded(t.second, 2))))))))))
  }

  function IsoFormat(zero: Time, t: Time): string {
    if t == zero then "" else IsoSeconds(t) + Fraction(t.micro)
  }

  /** The fraction is absent for a whole second. */
  function Fraction(micro: nat): string {
    if micro == 0 then "" else "." + Padded(micro, 6)
  }

  lemma {:induction false} PaddedOrder(n: nat, m: nat, w: nat)
    requires n < m < Pow10(w)
    ensures LexLess(Padded(n, w), Padded(m, w))
    decreases w
  {
    if n / 10 < m / 10 {
      PaddedOrder(n / 10, m / 10, w - 1);
      LexByHead(Padded(n / 10, w - 1), Padded(m / 10, w - 1), [Digit(n % 10)], [Digit(m % 10)]);
    } else {
      assert n / 10 == m / 10 && n % 10 < m % 10;
      LexAfterPrefix(Padded(n / 10, w - 1), [Digit(n % 10)], [Digit(m % 10)]);
    }
  }

  /** A fixed-width number in front of a separator and a rest decides the order unless it is equal. */
  lemma FieldOrder(n: nat, m: nat, w: nat, x: string, y: string)
    requires n < Pow10(w) && m < Pow10(w)
    ensures n < m ==> LexLess(Padded(n, w) + x, Padded(m, w) + y)
    ensures n == m ==> LexLess(Padded(n, w) + x, Padded(m, w) + y) == LexLess(x, y)
  {
    if n < m {
      PaddedOrder(n, m, w);
      LexByHead(Padded(n, w), Padded(m, w), x, y);
    } else if n == m {
      LexAfterPrefix(Padded(n, w), x, y);
    }
  }

  lemma Powers()
    ensures Pow10(2) == 100 && Pow10(4) == 10_000 && Pow10(6) == 1_000_000
  {
    assert Pow10(3) == 1_000;
    assert Pow10(5) == 100_000;
  }

  /** An absent fraction sorts before any other. */
  lemma FractionOrder(a: nat, b: nat)
    requires a < b < 1_000_000
    ensures LexLess(Fraction(a), Fraction(b))
  {
    Powers();
    if a > 0 {
      PaddedOrder(a, b, 6);
      LexAfterPrefix(".", Padded(a, 6), Padded(b, 6));
    }
  }

  /** The printed form with its fraction, one field after the other. */
  function Tail(t: Time, from: nat): string
    requires from <= 6
    decreases 6 - from
  {
    if from == 6 then Fraction(t.micro)
    else Separator(from) + (Padded(Field(t, from), Width(from)) + Tail(t, from + 1))
  }

  function Width(k: nat): nat { if k == 0 then 4 else 2 }

  function Separator(k: nat): string {
    if k == 0 then "" else if k <= 2 then "-" else if k == 3 then "T" else ":"
  }

  function Field(t: Time, k: nat): nat
    requires k < 6
  {
    if k == 0 then t.year else if k == 1 then t.month else if k == 2 then t.day
    else if k == 3 then t.hour else if k == 4 then t.minute else t.second
  }

  lemma Push(sep: string, d: string, x: string, f: string)
    ensures (sep + (d + x)) + f == sep + (d + (x + f))
  {
  }

  lemma Reassociate(y: string, mo: string, d: string, h: string, mi: string, s: string, f: string)
    ensures (y + ("-" + (mo + ("-" + (d + ("T" + (h + (":" + (mi + (":" + s)))))))))) + f
      == "" + (y + ("-" + (mo + ("-" + (d + ("T" + (h + (":" + (mi + (":" + (s + f)))))))))))
  {
    var s5 := ":" + s;
    var s4 := ":" + (mi + s5);
    var s3 := "T" + (h + s4);
    var s2 := "-" + (d + s3);
    var s1 := "-" + (mo + s2);
    Push("", ":", s, f);
    Push(":", mi, s5, f);
    Push("T", h, s4, f);
    Push("-", d, s3, f);
    Push("-", mo, s2, f);
    Push("", y, s1, f);
  }

  lemma TailIsIso(zero: Time, t: Time)
    requires t != zero
    ensures IsoFormat(zero, t) == Tail(t, 0)
  {
    TailEnds(t);
    Reassociate(Padded(t.year, 4), Padded(t.month, 2), Padded(t.day, 2), Padded(t.hour, 2), Padded(t.minute, 2),
                Padded(t.second, 2), Fraction(t.micro));
  }

  lemma TailEnds(t: Time)
    ensures Tail(t, 5) == ":" + (Padded(t.second, 2) + Fraction(t.micro))
    ensures Tail(t, 3) == "T" + (Padded(t.hour, 2) + (":" + (Padded(t.minute, 2) + Tail(t, 5))))
    ensures Tail(t, 1) == "-" + (Padded(t.month, 2) + ("-" + (Padded(t.day, 2) + Tail(t, 3))))
    ensures Tail(t, 0) == "" + (Padded(t.year, 4) + Tail(t, 1))
  {
    assert Tail(t, 6) == Fraction(t.micro);
    assert Tail(t, 4) == ":" + (Padded(t.minute, 2) + Tail(t, 5));
    assert Tail(t, 2) == "-" + (Padded(t.day, 2) + Tail(t, 3));
  }

  predicate EarlierFrom(a: Time, b: Time, k: nat)
    requires k <= 6
    decreases 6 - k
  {
    if k == 6 then a.micro < b.micro
    else if Field(a, k) != Field(b, k) then Field(a, k) < Field(b, k)
    else EarlierFrom(a, b, k + 1)
  }

  lemma {:induction false} TailOrder(a: Time, b: Time, k: nat)
    requires a.Valid() && b.Valid() && k <= 6 && EarlierFrom(a, b, k)
    ensures LexLess(Tail(a, k), Tail(b, k))
    decreases 6 - k
  {
    if k == 6 {
      FractionOrder(a.micro, b.micro);
    } else {
      Powers();
      var x, y := Tail(a, k + 1), Tail(b, k + 1);
      FieldOrder(Field(a, k), Field(b, k), Width(k), x, y);
      if Field(a, k) == Field(b, k) {
        TailOrder(a, b, k + 1);
      }
      LexAfterPrefix(Separator(k), Padded(Field(a, k), Width(k)) + x, Padded(Field(b, k), Width(k)) + y);
    }
  }

  /** isoFormat keeps the order of any two times exactly when the later one is not Go's zero time
      (which it prints as the empty string). */
  lemma IsoOrder(zero: Time, a: Time, b: Time)
    requires a.Valid() && b.Valid() && Earlier(a, b)
    ensures LexLess(IsoFormat(zero, a), IsoFormat(zero, b)) <==> b != zero
  {
    if b != zero {
      TailIsIso(zero, b);
      if a == zero {
        assert Tail(b, 0) == "" + (Padded(b.year, 4) + Tail(b, 1));
      } else {
        TailIsIso(zero, a);
        assert EarlierFrom(a, b, 5) == (if a.second != b.second then a.second < b.second else EarlierFrom(a, b, 6));
        assert EarlierFrom(a, b, 3) == (if a.hour != b.hour then a.hour < b.hour else EarlierFrom(a, b, 4));
        assert EarlierFrom(a, b, 1) == (if a.month != b.month then a.month < b.month else EarlierFrom(a, b, 2));
        assert EarlierFrom(a, b, 0);
        TailOrder(a, b, 0);
      }
    }
  }

  /** The failing family has members: a time in year 0 against the zero time. */
  lemma ZeroTimeBreaksOrder()
    ensures exists a: Time ::
      a.Valid() && UTC_ZERO.Valid() && Earlier(a, UTC_ZERO) && !LexLess(IsoFormat(UTC_ZERO, a), IsoFormat(UTC_ZERO, UTC_ZERO))
  {
    var a := Time(0, 12, 31, 23, 59, 59, 0);
    assert a.Valid() && Earlier(a, UTC_ZERO);
    IsoOrder(UTC_ZERO, a, UTC_ZERO);
  }

  // ---------- reading it back ----------

  predicate Digits(s: string) { forall i :: 0 <= i < |s| ==> '0' <= s[i] <= '9' }

  lemma {:induction false} PaddedReads(n: nat, w: nat)
    requires n < Pow10(w)
    ensures Digits(Padded(n, w)) && Value(Padded(n, w)) == n
    decreases w
  {
    if w > 0 {
      PaddedReads(n / 10, w - 1);
      var s := Padded(n, w);
      assert s[..w - 1] == Padded(n / 10, w - 1);
    }
  }

  /** Where the parts of the printed form are. */
  lemma Layout(y: string, mo: string, d: string, h: string, mi: string, s: string, f: string)
    requires |y| == 4 && |mo| == |d| == |h| == |mi| == |s| == 2
    ensures var t := (y + ("-" + (mo + ("-" + (d + ("T" + (h + (":" + (mi + (":" + s)))))))))) + f;
      && |t| == 19 + |f| && t[..4] == y && t[5..7] == mo && t[8..10] == d && t[11..13] == h && t[14..16] == mi
      && t[17..19] == s && t[19..] == f && t[4] == t[7] == '-' && t[10] == 'T' && t[13] == t[16] == ':'
  {
    var t := (y + ("-" + (mo + ("-" + (d + ("T" + (h + (":" + (mi + (":" + s)))))))))) + f;
    assert |t| == 19 + |f|;
    assert t[4] == t[7] == '-' && t[10] == 'T' && t[13] == t[16] == ':';
    assert t[5] == mo[0] && t[6] == mo[1] && t[8] == d[0] && t[9] == d[1] && t[11] == h[0] && t[12] == h[1];
    assert t[14] == mi[0] && t[15] == mi[1] && t[17] == s[0] && t[18] == s[1];
    assert t[..4] == y;
    assert t[19..] == f;
    assert t[5..7] == mo;
    assert t[8..10] == d;
    assert t[11..13] == h;
    assert t[14..16] == mi;
    assert t[17..19] == s;
  }

  /** s reads as n. */
  predicate Reads(s: string, n: nat) { Digits(s) && Value(s) == n }

  /** The printed form is year, month, day, hour, minute and second in 4, 2, 2, 2, 2 and 2 digits with their
      separators, and for a time that is not a whole second a point and the microsecond in 6 digits; so the time
      can be read back from it. */
  lemma IsoReads(zero: Time, t: Time)
    requires t.Valid() && t != zero
    ensures var s := IsoFormat(zero, t);
      && |s| == (if t.micro == 0 then 19 else 26)
      && Reads(s[..4], t.year) && Reads(s[5..7], t.month) && Reads(s[8..10], t.day)
      && Reads(s[11..13], t.hour) && Reads(s[14..16], t.minute) && Reads(s[17..19], t.second)
      && s[4] == s[7] == '-' && s[10] == 'T' && s[13] == s[16] == ':'
      && (t.micro != 0 ==> s[19] == '.' && Reads(s[20..], t.micro))
  {
    Powers();
    PaddedReads(t.year, 4);
    PaddedReads(t.month, 2);
    PaddedReads(t.day, 2);
    PaddedReads(t.hour, 2);
    PaddedReads(t.minute, 2);
    PaddedReads(t.second, 2);
    PaddedReads(t.micro, 6);
    Layout(Padded(t.year, 4), Padded(t.month, 2), Padded(t.day, 2), Padded(t.hour, 2), Padded(t.minute, 2),
           Padded(t.second, 2), Fraction(t.micro));
    hide Padded, Value, Digits, Pow10;
    if t.micro != 0 {
      assert IsoFormat(zero, t)[20..] == Fraction(t.micro)[1..] == Padded(t.micro, 6);
    }
  }

  // ---------- the event board ----------

  datatype Event = Event(id: string, time: Time)

  /** `events[i].DetectedAt > events[j].DetectedAt`. */
  function Newest(zero: Time): (Event, Event) -> bool {
    (x: Event, y: Event) => LexLess(IsoFormat(zero, y.time), IsoFormat(zero, x.time))
  }

  ghost predicate AllValid(events: seq<Event>) {
    forall e :: e in events ==> e.time.Valid()
  }

  /** There is no event at the zero time, or none before it. */
  ghost predicate NoneBeforeZero(zero: Time, events: seq<Event>) {
    forall a, b :: a in events && b in events && b.time == zero ==> !Earlier(a.time, b.time)
  }

  lemma NewestIsStrict(zero: Time)
    ensures StrictWeakOrder(Newest(zero))
  {
    forall x: Event, y: Event, z: Event
      ensures !Newest(zero)(x, x)
      ensures Newest(zero)(x, y) && Newest(zero)(y, z) ==> Newest(zero)(x, z)
      ensures Newest(zero)(x, z) ==> Newest(zero)(x, y) || Newest(zero)(y, z)
    {
      LexCompare(IsoFormat(zero, x.time), IsoFormat(zero, x.time), IsoFormat(zero, x.time));
      LexCompare(IsoFormat(zero, z.time), IsoFormat(zero, y.time), IsoFormat(zero, x.time));
    }
  }

  ghost predicate Chronological(events: seq<Event>) {
    forall i, j :: 0 <= i < j < |events| ==> !Earlier(events[i].time, events[j].time)
  }

  /** The stable sort by string, newest first, keeps all events, and it is chronological exactly when no event
      lies before one at the zero time. */
  lemma SortedByStringIsChronological(zero: Time, all: seq<Event>)
    requires AllValid(all)
    ensures var sorted := InsertAll(all, Newest(zero));
      && multiset(sorted) == multiset(all) && |sorted| == |all|
      && (Chronological(sorted) <==> NoneBeforeZero(zero, all))
  {
    var sorted := InsertAll(all, Newest(zero));
    NewestIsStrict(zero);
    InsertAllSorts(all, Newest(zero));
    InsertAllPermutes(all, Newest(zero));
    hide InsertAll, IsoFormat;
    forall i | 0 <= i < |sorted| ensures sorted[i] in all {
      assert sorted[i] in multiset(all);
    }
    if NoneBeforeZero(zero, all) {
      forall i, j | 0 <= i < j < |sorted| ensures !Earlier(sorted[i].time, sorted[j].time) {
        assert sorted[i] in all && sorted[j] in all && !Newest(zero)(sorted[j], sorted[i]);
        if Earlier(sorted[i].time, sorted[j].time) {
          IsoOrder(zero, sorted[i].time, sorted[j].time);
        }
      }
    }
    if Chronological(sorted) {
      forall a, b | a in all && b in all && b.time == zero ensures !Earlier(a.time, b.time) {
        ZeroComesLast(zero, all, sorted, a, b);
      }
    }
  }

  /** A time before the zero time prints as more than the empty string. */
  lemma BeforeZeroPrintsMore(zero: Time, t: Time)
    requires t.Valid() && zero.Valid() && Earlier(t, zero)
    ensures LexLess(IsoFormat(zero, zero), IsoFormat(zero, t))
  {
    TailIsIso(zero, t);
    TailEnds(t);
    assert IsoFormat(zero, zero) == "" && IsoFormat(zero, t) != "";
  }

  lemma ZeroComesLast(zero: Time, all: seq<Event>, sorted: seq<Event>, a: Event, b: Event)
    requires AllValid(all) && multiset(sorted) == multiset(all) && Sorted(sorted, Newest(zero)) && Chronological(sorted)
    requires a in all && b in all && b.time == zero
    ensures !Earlier(a.time, b.time)
  {
    assert a in multiset(sorted) && b in multiset(sorted);
    var i :| 0 <= i < |sorted| && sorted[i] == a;
    var j :| 0 <= j < |sorted| && sorted[j] == b;
    hide IsoFormat;
    if Earlier(a.time, b.time) {
      BeforeZeroPrintsMore(zero, a.time);
    }
  }

  lemma PrefixIsChronological(events: seq<Event>, n: nat)
    requires n <= |events| && Chronological(events)
    ensures Chronological(events[..n])
  {
  }

  /** The first of chronological events is a latest one. */
  lemma FirstIsLatest(events: seq<Event>, e: Event)
    requires Chronological(events) && e in events
    ensures !Earlier(events[0].time, e.time)
  {
    var k :| 0 <= k < |events| && events[k] == e;
  }

  /** `sort.SliceStable(events, newest first)` and the cut to `limit`: the board holds the first of the sorted
      events and shows every event when nothing is cut; unless an event lies before one at the zero time it is
      chronological, latest first, and its first event is the latest of all. */
  method BuildRiskEvents(zero: Time, single: seq<Event>, batch: seq<Event>, limit: int) returns (events: seq<Event>)
    requires AllValid(single + batch)
    ensures |events| == if 0 < limit < |single| + |batch| then limit else |single| + |batch|
    ensures events <= InsertAll(single + batch, Newest(zero))
    ensures |events| == |single| + |batch| ==> multiset(events) == multiset(single) + multiset(batch)
    ensures |events| == |single| + |batch| ==> (Chronological(events) <==> NoneBeforeZero(zero, single + batch))
    ensures NoneBeforeZero(zero, single + batch) ==>
      Chronological(events) && (events != [] ==> forall e :: e in single + batch ==> !Earlier(events[0].time, e.time))
  {
    var all := single + batch;
    var slice := new Event[|all|](i requires 0 <= i < |all| => all[i]);
    assert slice[..] == all;
    InsertionPass(slice, Newest(zero));
    var sorted := slice[..];
    SortedByStringIsChronological(zero, all);
    hide InsertAll, Newest, Chronological, NoneBeforeZero;
    events := sorted;
    if limit > 0 && |events| > limit {
      events := events[..limit];
    }
    assert multiset(all) == multiset(single) + multiset(batch);
    if NoneBeforeZero(zero, all) {
      PrefixIsChronological(sorted, |events|);
      forall e | e in all && events != [] ensures !Earlier(events[0].time, e.time) {
        assert e in multiset(sorted);
        FirstIsLatest(sorted, e);
      }
    }
  }
}
