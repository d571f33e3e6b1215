/** parseRRLine of internal/service/trust.go: records from lines of the form "name TTL IN TYPE VALUE". */
module RecordLines {
  import opened Text
  import opened TrustRecords
  import opened Wrappers

  // ---------- fields ----------

  /** The length of the longest prefix without white space. */
  function WordLength(s: string): (n: nat)
    ensures n <= |s| && NoSpace(s[..n]) && (n < |s| ==> IsSpace(s[n]))
  {
    if s == "" || IsSpace(s[0]) then 0 else 1 + WordLength(s[1..])
  }

  /** strings.Fields. */
  function Fields(s: string): (r: seq<string>)
    ensures forall i :: 0 <= i < |r| ==> IsToken(r[i])
    decreases |s|
  {
    if s == "" then []
    else if IsSpace(s[0]) then Fields(s[1..])
    else [s[..WordLength(s)]] + Fields(s[WordLength(s)..])
  }

  predicate IsToken(s: string) { s != "" && NoSpace(s) }

  predicate AllTokens(parts: seq<string>) { forall i :: 0 <= i < |parts| ==> IsToken(parts[i]) }

  /** strings.Join with one space. */
  function Join(parts: seq<string>): string {
    if parts == [] then ""
    else if |parts| == 1 then parts[0]
    else parts[0] + " " + Join(parts[1..])
  }

  lemma {:induction false} WordStops(w: string, rest: string)
    requires NoSpace(w) && (rest == "" || IsSpace(rest[0]))
    ensures WordLength(w + rest) == |w|
    decreases |w|
  {
    if w == "" {
      assert w + rest == rest;
    } else {
      assert (w + rest)[1..] == w[1..] + rest;
      WordStops(w[1..], rest);
    }
  }

  lemma FirstField(w: string, rest: string)
    requires IsToken(w) && (rest == "" || IsSpace(rest[0]))
    ensures Fields(w + rest) == [w] + Fields(rest)
  {
    var s := w + rest;
    WordStops(w, rest);
    assert s[0] == w[0] && s[..|w|] == w && s[|w|..] == rest;
    hide WordLength;
  }

  lemma SpaceSkipped(s: string)
    ensures Fields(" " + s) == Fields(s)
  {
    assert (" " + s)[1..] == s;
  }

  /** Splitting what was joined. */
  lemma {:induction false} FieldsOfJoin(parts: seq<string>)
    requires AllTokens(parts)
    ensures Fields(Join(parts)) == parts
    decreases |parts|
  {
    if parts == [] {
      assert Fields("") == [];
    } else {
      var rest := if |parts| == 1 then "" else " " + Join(parts[1..]);
      assert Join(parts) == parts[0] + rest;
      FirstField(parts[0], rest);
      hide IsToken, Join;
      FieldsOfJoin(parts[1..]);
      if |parts| > 1 {
        SpaceSkipped(Join(parts[1..]));
        hide Fields;
      }
    }
  }

  lemma {:induction false} JoinTrimmed(parts: seq<string>)
    requires AllTokens(parts)
    ensures Trimmed(Join(parts), IsSpace) && (parts != [] ==> Join(parts) != "")
    decreases |parts|
  {
    if |parts| > 1 {
      JoinTrimmed(parts[1..]);
      var s, t := Join(parts), Join(parts[1..]);
      assert s[|s| - 1] == t[|t| - 1];
    }
  }

  // ---------- numbers ----------

  predicate AllDigits(s: string) { s != "" && forall i :: 0 <= i < |s| ==> '0' <= s[i] <= '9' }

  const INT64 := 0x8000_0000_0000_0000

  /** strconv.Atoi: an optional sign and digits, within 64 bits. */
  function Atoi(s: string): Option<int> {
    var signed := s != "" && (s[0] == '+' || s[0] == '-');
    var digits := if signed then s[1..] else s;
    if !AllDigits(digits) then None
    else
      var v: int := Value(digits);
      var n := if signed && s[0] == '-' then -v else v;
      if -INT64 <= n < INT64 then Some(n) else None
  }

  lemma {:induction false} ValueOfDecimal(n: nat)
    ensures Value(Decimal(n)) == n
  {
    if n >= 10 {
      ValueOfDecimal(n / 10);
      var d := Decimal(n);
      assert d[..|d| - 1] == Decimal(n / 10);
    } else {
      assert Decimal(n)[..0] == "";
    }
  }

  lemma AtoiOfDecimal(n: nat)
    requires n < INT64
    ensures Atoi(Decimal(n)) == Some(n)
  {
    ValueOfDecimal(n);
    hide Decimal, Value;
    assert '0' <= Decimal(n)[0] <= '9';
  }

  // ---------- lines ----------

  /** TTL and class may be missing; the fourth field must be there. */
  function ParseFields(parts: seq<string>, section: string): Option<Record> {
    if |parts| < 4 then None
    else
      var ttl := Atoi(parts[1]);
      var afterTtl := if ttl.Some? then 2 else 1;
      var cursor := if ToUpper(parts[afterTtl]) == "IN" then afterTtl + 1 else afterTtl;
      Some(Record(section, NormName(parts[0]), ToUpper(parts[cursor]), TrimSpace(Join(parts[cursor + 1..])), ttl))
  }

  function ParseRRLine(line: string, section: string): Option<Record> {
    ParseFields(Fields(TrimSpace(line)), section)
  }

  function PrintedParts(name: string, ttl: nat, rrtype: string, values: seq<string>): seq<string> {
    [name, Decimal(ttl), "IN", rrtype] + values
  }

  function PrintRR(name: string, ttl: nat, rrtype: string, values: seq<string>): string {
    Join(PrintedParts(name, ttl, rrtype, values))
  }

  lemma DecimalIsToken(n: nat)
    ensures IsToken(Decimal(n))
  {
    var d := Decimal(n);
    assert forall i :: 0 <= i < |d| ==> '0' <= d[i] <= '9';
  }

  /** A record with or without its TTL and its class, as fields. */
  function FormOf(name: string, ttl: Option<nat>, classed: bool, rrtype: string, values: seq<string>): seq<string> {
    [name] + (if ttl.Some? then [Decimal(ttl.value)] else []) + (if classed then ["IN"] else []) + [rrtype] + values
  }

  /** The type cannot be taken for a missing TTL or class. */
  predicate Telling(ttl: Option<nat>, classed: bool, rrtype: string) {
    classed || (ToUpper(rrtype) != "IN" && (ttl.None? ==> Atoi(rrtype).None?))
  }

  lemma FormFields(name: string, ttl: Option<nat>, classed: bool, rrtype: string, values: seq<string>)
    requires IsToken(name) && IsToken(rrtype) && AllTokens(values)
    ensures var form := FormOf(name, ttl, classed, rrtype, values); Fields(TrimSpace(Join(form))) == form
  {
    hide Decimal, Fields, Join;
    if ttl.Some? { DecimalIsToken(ttl.value); }
    var form := FormOf(name, ttl, classed, rrtype, values);
    assert AllTokens(form);
    JoinTrimmed(form);
    TrimOfTrimmed(Join(form), IsSpace);
    FieldsOfJoin(form);
  }

  lemma FormAt(name: string, ttl: Option<nat>, classed: bool, rrtype: string, values: seq<string>)
    ensures var form, at := FormOf(name, ttl, classed, rrtype, values), 1 + (if ttl.Some? then 1 else 0) + (if classed then 1 else 0);
      && |form| == at + 1 + |values| && form[0] == name && form[at] == rrtype && form[at + 1..] == values
      && (ttl.Some? ==> form[1] == Decimal(ttl.value)) && (classed ==> form[at - 1] == "IN")
  {
    hide Decimal;
  }

  lemma FormParses(section: string, name: string, ttl: Option<nat>, classed: bool, rrtype: string, values: seq<string>)
    requires (ttl.Some? ==> ttl.value < INT64) && Telling(ttl, classed, rrtype)
    ensures ParseFields(FormOf(name, ttl, classed, rrtype, values), section) ==
      if |FormOf(name, ttl, classed, rrtype, values)| < 4 then None
      else Some(Record(section, NormName(name), ToUpper(rrtype), TrimSpace(Join(values)), if ttl.Some? then Some(ttl.value) else None))
  {
    if ttl.Some? { AtoiOfDecimal(ttl.value); }
    assert Atoi("IN").None? && ToUpper("IN") == "IN";
    FormAt(name, ttl, classed, rrtype, values);
    hide FormOf, Decimal, Join, NormName, Atoi, ToUpper, TrimSpace;
  }

  /** A line may leave out the TTL, the class or both: with four fields or more it is read as what it says, and
      with fewer it is not a record. */
  lemma AnyFormParses(section: string, name: string, ttl: Option<nat>, classed: bool, rrtype: string, values: seq<string>)
    requires IsToken(name) && IsToken(rrtype) && AllTokens(values) && (ttl.Some? ==> ttl.value < INT64)
    requires Telling(ttl, classed, rrtype)
    ensures var form := FormOf(name, ttl, classed, rrtype, values);
      ParseRRLine(Join(form), section) ==
        if |form| < 4 then None
        else Some(Record(section, NormName(name), ToUpper(rrtype), Join(values), if ttl.Some? then Some(ttl.value) else None))
  {
    JoinTrimmed(values);
    TrimOfTrimmed(Join(values), IsSpace);
    assert TrimSpace(Join(values)) == Join(values);
    hide FormOf, Decimal, Fields, Join, NormName, Atoi, ToUpper, TrimSpace, IsToken, AllTokens, Trimmed, Telling;
    FormFields(name, ttl, classed, rrtype, values);
    FormParses(section, name, ttl, classed, rrtype, values);
  }

  /** Round trip: what was printed is read back, with the name normalised and the type in upper case. */
  lemma PrintThenParse(section: string, name: string, ttl: nat, rrtype: string, values: seq<string>)
    requires IsToken(name) && IsToken(rrtype) && AllTokens(values) && ttl < INT64
    ensures ParseRRLine(PrintRR(name, ttl, rrtype, values), section)
         == Some(Record(section, NormName(name), ToUpper(rrtype), Join(values), Some(ttl)))
  {
    assert FormOf(name, Some(ttl), true, rrtype, values) == PrintedParts(name, ttl, rrtype, values);
    hide Decimal, Fields, Join, NormName, Atoi, ParseRRLine;
    AnyFormParses(section, name, Some(ttl), true, rrtype, values);
  }

  /** Whatever the line: types come out in upper case and values without space at their ends, which is what
      makes the key of a discovery agree with the key of a baseline. */
  lemma ParsedIsCanonical(line: string, section: string, hostId: nat)
    requires ParseRRLine(line, section).Some?
    ensures var r := ParseRRLine(line, section).value;
      IsUpper(r.rrtype) && Trimmed(r.value, IsSpace) && SeenKey(hostId, r) == HashInput(hostId, r)
  {
    hide Fields, Join, NormName, Atoi, SeenKey;
    var parts := Fields(TrimSpace(line));
    var afterTtl := if Atoi(parts[1]).Some? then 2 else 1;
    UpperTwice(parts[if ToUpper(parts[afterTtl]) == "IN" then afterTtl + 1 else afterTtl]);
  }
}
