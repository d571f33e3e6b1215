/** Batch input: ParseBatchInput over text and txt files (internal/service/batch.go) and the targetsText that
    internal/service/batch_reporting.go prints back. */
module BatchInput {
  import opened Text
  import opened Wrappers

  datatype Status = Valid | Invalid | Duplicate

  const REASON_INVALID := "malformed domain"
  const REASON_DUPLICATE := "duplicate domain"
  const MAX_VALID_TARGETS := 10000

  datatype Record = Record(lineNo: nat, raw: string, normalized: string, status: Status, skipReason: string)

  datatype Stats = Stats(total: nat, valid: nat, invalid: nat, duplicate: nat)

  datatype Parsed = Parsed(records: seq<Record>, stats: Stats)

  datatype ParseError = NoContent | NoValidDomain | TooManyDomains

  datatype Row = Row(lineNo: nat, value: string)

  // ---------- normalisation ----------

  function TrimDotSuffix(s: string): string {
    if s != "" && s[|s| - 1] == '.' then s[..|s| - 1] else s
  }

  function NormalizeBatchDomain(raw: string): string {
    TrimDotSuffix(ToLower(TrimSpace(raw)))
  }

  /** Trimmed and in lower case, less one dot at the end if there is one. */
  lemma NormalizedMeans(raw: string)
    ensures var v, n := ToLower(TrimSpace(raw)), NormalizeBatchDomain(raw);
      if v != "" && v[|v| - 1] == '.' then v == n + "." else v == n
  {
    hide ToLower, TrimSpace;
    var v := ToLower(TrimSpace(raw));
    if v != "" && v[|v| - 1] == '.' {
      assert v == v[..|v| - 1] + ".";
    }
  }

  predicate Alpha(c: char) { 'a' <= c <= 'z' || 'A' <= c <= 'Z' }

  predicate AlphaNum(c: char) { Alpha(c) || '0' <= c <= '9' }

  predicate LabelChars(s: string) { forall i :: 0 <= i < |s| ==> AlphaNum(s[i]) || s[i] == '-' }

  predicate IsLabel(s: string) { 1 <= |s| <= 63 && AlphaNum(s[0]) && LabelChars(s) }

  predicate IsTopLabel(s: string) {
    (2 <= |s| <= 63 && forall i :: 0 <= i < |s| ==> Alpha(s[i]))
    || (6 <= |s| <= 63 && s[..4] == "xn--" && LabelChars(s))
  }

  /** `(?:label\.)+top`. */
  predicate DomainFrom(s: string, start: nat, dots: nat)
    requires start <= |s|
    decreases |s| - start
  {
    if exists k :: start <= k < |s| && s[k] == '.' then
      var k := NextDot(s, start);
      IsLabel(s[start..k]) && DomainFrom(s, k + 1, dots + 1)
    else dots > 0 && IsTopLabel(s[start..])
  }

  function NextDot(s: string, start: nat): (k: nat)
    requires exists k :: start <= k < |s| && s[k] == '.'
    ensures start <= k < |s| && s[k] == '.' && forall j :: start <= j < k ==> s[j] != '.'
    decreases |s| - start
  {
    if s[start] == '.' then start else NextDot(s, start + 1)
  }

  predicate IsValidBatchDomain(s: string) {
    !("://" <= s) && DomainFrom(s, 0, 0)
  }

  /** Labels joined by dots. */
  function JoinDots(labels: seq<string>): string {
    if |labels| == 0 then ""
    else if |labels| == 1 then labels[0]
    else labels[0] + "." + JoinDots(labels[1..])
  }

  /** Labels as a domain has them: the last is a top-level label, those before it are plain ones. */
  predicate Labels(labels: seq<string>) {
    labels != [] && IsTopLabel(labels[|labels| - 1]) && forall i :: 0 <= i < |labels| - 1 ==> IsLabel(labels[i])
  }

  predicate NoDot(s: string) { forall i :: 0 <= i < |s| ==> s[i] != '.' }

  lemma LabelsHaveNoDot(s: string)
    requires IsLabel(s) || IsTopLabel(s)
    ensures NoDot(s)
  {
  }

  lemma {:induction false} DomainHasLabels(s: string, start: nat, dots: nat) returns (labels: seq<string>)
    requires start <= |s| && DomainFrom(s, start, dots)
    ensures Labels(labels) && |labels| + dots >= 2 && JoinDots(labels) == s[start..]
    decreases |s| - start
  {
    hide IsLabel, IsTopLabel;
    if exists k :: start <= k < |s| && s[k] == '.' {
      var k := NextDot(s, start);
      var rest := DomainHasLabels(s, k + 1, dots + 1);
      labels := [s[start..k]] + rest;
      assert labels[1..] == rest;
      assert s[start..] == s[start..k] + "." + s[k + 1..];
    } else {
      labels := [s[start..]];
    }
  }

  lemma FirstDot(s: string, start: nat, first: string, rest: string)
    requires start <= |s| && s[start..] == first + "." + rest && NoDot(first)
    ensures var k := start + |first|;
      k < |s| && s[k] == '.' && s[start..k] == first && s[k + 1..] == rest && NextDot(s, start) == k
  {
    var t, k := s[start..], start + |first|;
    assert |t| == |first| + 1 + |rest| && t[|first|] == '.';
    assert t[..|first|] == first && t[|first| + 1..] == rest;
    assert s[start..k] == t[..|first|] && s[k + 1..] == t[|first| + 1..];
    assert forall j :: start <= j < k ==> s[j] == first[j - start];
  }

  lemma {:induction false} LabelsMakeDomain(s: string, start: nat, dots: nat, labels: seq<string>)
    requires start <= |s| && Labels(labels) && |labels| + dots >= 2 && JoinDots(labels) == s[start..]
    ensures DomainFrom(s, start, dots)
    decreases |labels|
  {
    hide IsLabel, IsTopLabel;
    LabelsHaveNoDot(labels[0]);
    if |labels| == 1 {
      assert forall k :: start <= k < |s| ==> s[k] == labels[0][k - start];
    } else {
      var k := start + |labels[0]|;
      FirstDot(s, start, labels[0], JoinDots(labels[1..]));
      LabelsMakeDomain(s, k + 1, dots + 1, labels[1..]);
    }
  }

  /** A valid batch domain is at least two labels joined by dots, the last a top-level one. */
  lemma ValidDomainShape(s: string)
    ensures IsValidBatchDomain(s) <==> exists labels :: |labels| >= 2 && Labels(labels) && JoinDots(labels) == s
  {
    assert s[0..] == s;
    if IsValidBatchDomain(s) {
      var labels := DomainHasLabels(s, 0, 0);
    }
    if labels :| |labels| >= 2 && Labels(labels) && JoinDots(labels) == s {
      LabelsMakeDomain(s, 0, 0, labels);
      NoSchemeInLabels(s, labels);
    }
  }

  lemma NoSchemeInLabels(s: string, labels: seq<string>)
    requires |labels| >= 2 && Labels(labels) && JoinDots(labels) == s
    ensures !("://" <= s)
  {
    assert s[0] == labels[0][0] && AlphaNum(s[0]);
  }

  // ---------- what parsing means ----------

  predicate KeepsLine(line: string) {
    var value := TrimSpace(line);
    value != "" && value[0] != '#'
  }

  /** Every line that is neither blank nor a comment, trimmed, with its number from 1. */
  function RowsOf(lines: seq<string>): seq<Row> {
    if lines == [] then []
    else
      var init, last := RowsOf(lines[..|lines| - 1]), lines[|lines| - 1];
      if KeepsLine(last) then init + [Row(|lines|, TrimSpace(last))] else init
  }

  predicate Recordable(row: Row) { NormalizeBatchDomain(row.value) != "" }

  predicate SeenIn(records: seq<Record>, normalized: string) {
    exists i :: 0 <= i < |records| && records[i].normalized == normalized && IsValidBatchDomain(normalized)
  }

  function Classify(row: Row, earlier: seq<Record>): Record {
    var normalized := NormalizeBatchDomain(row.value);
    if !IsValidBatchDomain(normalized) then
      Record(row.lineNo, TrimSpace(row.value), normalized, Invalid, REASON_INVALID)
    else if SeenIn(earlier, normalized) then
      Record(row.lineNo, TrimSpace(row.value), normalized, Duplicate, REASON_DUPLICATE)
    else
      Record(row.lineNo, TrimSpace(row.value), normalized, Valid, "")
  }

  function RecordsOf(rows: seq<Row>): seq<Record> {
    if rows == [] then []
    else
      var init, last := RecordsOf(rows[..|rows| - 1]), rows[|rows| - 1];
      if Recordable(last) then init + [Classify(last, init)] else init
  }

  function CountStatus(records: seq<Record>, s: Status): nat {
    if records == [] then 0
    else CountStatus(records[..|records| - 1], s) + if records[|records| - 1].status == s then 1 else 0
  }

  function StatsOf(records: seq<Record>): Stats {
    Stats(|records|, CountStatus(records, Valid), CountStatus(records, Invalid), CountStatus(records, Duplicate))
  }

  function ParseRows(rows: seq<Row>): Result<Parsed, ParseError> {
    var records := RecordsOf(rows);
    if rows == [] then Err(NoContent)
    else if CountStatus(records, Valid) == 0 then Err(NoValidDomain)
    else if CountStatus(records, Valid) > MAX_VALID_TARGETS then Err(TooManyDomains)
    else Ok(Parsed(records, StatsOf(records)))
  }

  function ParseText(text: string): Result<Parsed, ParseError> {
    ParseRows(RowsOf(SplitLines(text)))
  }

  const BOM := '\U{FEFF}'

  function ParseTxt(content: string): Result<Parsed, ParseError> {
    ParseText(if [BOM] <= content then content[1..] else content)
  }

  // ---------- properties of the parse ----------

  lemma {:induction false} StatusesPartition(records: seq<Record>)
    ensures |records| == CountStatus(records, Valid) + CountStatus(records, Invalid) + CountStatus(records, Duplicate)
    decreases |records|
  {
    if records != [] {
      StatusesPartition(records[..|records| - 1]);
    }
  }

  /** A record says what its text deserves, by position: invalid text, a repeat of an earlier valid name, or
      the first occurrence of a valid name. */
  ghost predicate RecordRight(records: seq<Record>, i: nat)
    requires i < |records|
  {
    var r := records[i];
    && r.normalized == NormalizeBatchDomain(r.raw) && r.normalized != "" && Trimmed(r.raw, IsSpace)
    && (r.status == Invalid <==> !IsValidBatchDomain(r.normalized))
    && (r.status == Duplicate <==> IsValidBatchDomain(r.normalized) && exists j :: 0 <= j < i && records[j].normalized == r.normalized)
    && r.skipReason == (match r.status case Valid => "" case Invalid => REASON_INVALID case Duplicate => REASON_DUPLICATE)
  }

  ghost predicate AllRight(records: seq<Record>) {
    forall i :: 0 <= i < |records| ==> RecordRight(records, i)
  }

  lemma ClassifyRight(row: Row, init: seq<Record>)
    requires Trimmed(row.value, IsSpace) && Recordable(row)
    requires AllRight(init)
    ensures AllRight(init + [Classify(row, init)])
  {
    hide IsValidBatchDomain, NormalizeBatchDomain;
    TrimOfTrimmed(row.value, IsSpace);
    var records := init + [Classify(row, init)];
    assert Classify(row, init).raw == row.value;
    hide TrimSpace;
    assert forall j :: 0 <= j < |init| ==> records[j] == init[j];
    forall i | 0 <= i < |init| ensures RecordRight(records, i) {
      assert RecordRight(init, i);
    }
  }

  lemma {:induction false} RecordsRight(rows: seq<Row>)
    requires forall i :: 0 <= i < |rows| ==> Trimmed(rows[i].value, IsSpace)
    ensures AllRight(RecordsOf(rows))
    decreases |rows|
  {
    if rows != [] {
      hide AllRight, Classify, Recordable;
      var init, last := RecordsOf(rows[..|rows| - 1]), rows[|rows| - 1];
      RecordsRight(rows[..|rows| - 1]);
      if Recordable(last) {
        ClassifyRight(last, init);
      }
    }
  }

  lemma {:induction false} RowsTrimmed(lines: seq<string>)
    ensures forall i :: 0 <= i < |RowsOf(lines)| ==>
      && Trimmed(RowsOf(lines)[i].value, IsSpace) && KeepsLine(RowsOf(lines)[i].value)
    ensures (forall i :: 0 <= i < |lines| ==> NoBreak(lines[i]))
      ==> forall i :: 0 <= i < |RowsOf(lines)| ==> NoBreak(RowsOf(lines)[i].value)
    decreases |lines|
  {
    if lines != [] {
      RowsTrimmed(lines[..|lines| - 1]);
      var last := lines[|lines| - 1];
      TrimOfTrimmed(TrimSpace(last), IsSpace);
    }
  }

  ghost predicate LinesRise(records: seq<Record>) {
    forall i, j :: 0 <= i < j < |records| ==> records[i].lineNo < records[j].lineNo
  }

  ghost predicate ValidDistinct(records: seq<Record>) {
    forall i, j :: 0 <= i < j < |records| && records[i].status == Valid && records[j].status == Valid
      ==> records[i].normalized != records[j].normalized
  }

  lemma RightIsDistinct(records: seq<Record>)
    requires AllRight(records)
    ensures ValidDistinct(records)
  {
    hide IsValidBatchDomain, NormalizeBatchDomain, Trimmed;
    forall i, j | 0 <= i < j < |records| && records[i].status == Valid && records[j].status == Valid
      ensures records[i].normalized != records[j].normalized
    {
      assert RecordRight(records, i) && RecordRight(records, j);
    }
  }

  /** A parse that succeeds: records are right by position, so valid names are pairwise distinct first
      occurrences; the total is the sum of the three counts; line numbers rise strictly. */
  lemma ParsedIsRight(text: string)
    ensures ParseText(text).Ok? ==> var p := ParseText(text).value;
      && AllRight(p.records)
      && ValidDistinct(p.records) && LinesRise(p.records)
      && p.stats == StatsOf(p.records)
      && p.stats.total == p.stats.valid + p.stats.invalid + p.stats.duplicate
      && 1 <= p.stats.valid <= MAX_VALID_TARGETS
  {
    hide AllRight, RecordsOf, RowsOf, KeepsLine, LinesRise, ValidDistinct;
    var rows := RowsOf(SplitLines(text));
    RowsTrimmed(SplitLines(text));
    RecordsRight(rows);
    RightIsDistinct(RecordsOf(rows));
    RowLinesRise(SplitLines(text));
    RecordLinesRise(rows);
    StatusesPartition(RecordsOf(rows));
  }

  /** The line of the row's number, trimmed, and neither blank nor a comment. */
  predicate IsLine(r: Row, lines: seq<string>) {
    1 <= r.lineNo <= |lines| && KeepsLine(lines[r.lineNo - 1]) && r.value == TrimSpace(lines[r.lineNo - 1])
  }

  lemma {:induction false} RowsAre(lines: seq<string>)
    ensures forall r :: r in RowsOf(lines) <==> IsLine(r, lines)
    decreases |lines|
  {
    hide KeepsLine, TrimSpace;
    if lines != [] {
      var n := |lines| - 1;
      RowsAre(lines[..n]);
      RowsNext(lines);
      hide RowsOf;
      forall r ensures r in RowsOf(lines) <==> IsLine(r, lines) {
        assert r.lineNo - 1 < n && r.lineNo >= 1 ==> lines[..n][r.lineNo - 1] == lines[r.lineNo - 1];
      }
    }
  }

  lemma RowsNext(lines: seq<string>)
    requires lines != []
    ensures var n := |lines| - 1;
      forall r :: r in RowsOf(lines) <==>
        r in RowsOf(lines[..n]) || (KeepsLine(lines[n]) && r == Row(|lines|, TrimSpace(lines[n])))
  {
    hide KeepsLine, TrimSpace;
  }

  lemma {:induction false} RowOfRecord(rows: seq<Row>, r: Record) returns (row: Row)
    requires forall i :: 0 <= i < |rows| ==> Trimmed(rows[i].value, IsSpace)
    requires r in RecordsOf(rows)
    ensures row in rows && IsRecordOf(r, row)
    decreases |rows|
  {
    hide Recordable, IsValidBatchDomain, NormalizeBatchDomain, SeenIn;
    var n := |rows| - 1;
    if r in RecordsOf(rows[..n]) {
      row := RowOfRecord(rows[..n], r);
    } else {
      row := rows[n];
      TrimOfTrimmed(row.value, IsSpace);
    }
  }

  lemma {:induction false} RecordOfRow(rows: seq<Row>, row: Row) returns (r: Record)
    requires forall i :: 0 <= i < |rows| ==> Trimmed(rows[i].value, IsSpace)
    requires row in rows && Recordable(row)
    ensures r in RecordsOf(rows) && IsRecordOf(r, row)
    decreases |rows|
  {
    hide Recordable, IsValidBatchDomain, NormalizeBatchDomain, SeenIn;
    var n := |rows| - 1;
    assert rows == rows[..n] + [rows[n]];
    if row in rows[..n] {
      r := RecordOfRow(rows[..n], row);
    } else {
      r := Classify(row, RecordsOf(rows[..n]));
      TrimOfTrimmed(row.value, IsSpace);
    }
  }

  predicate IsRecordOf(r: Record, row: Row) {
    Recordable(row) && r.lineNo == row.lineNo && r.raw == row.value
  }

  /** Line n makes a record: it is there, not blank, no comment, and not empty when normalised. */
  predicate LineCounts(lines: seq<string>, n: nat) {
    1 <= n <= |lines| && KeepsLine(lines[n - 1]) && NormalizeBatchDomain(TrimSpace(lines[n - 1])) != ""
  }

  /** The records are those of the lines that count, each with its line number and its trimmed text. */
  ghost predicate Covers(lines: seq<string>, records: seq<Record>) {
    && (forall r :: r in records ==> LineCounts(lines, r.lineNo) && r.raw == TrimSpace(lines[r.lineNo - 1]))
    && (forall n: nat :: LineCounts(lines, n) ==> exists r :: r in records && r.lineNo == n)
  }

  lemma RecordsCover(lines: seq<string>)
    ensures Covers(lines, RecordsOf(RowsOf(lines)))
  {
    var rows := RowsOf(lines);
    RowsTrimmed(lines);
    RowsAre(lines);
    hide RowsOf, RecordsOf, KeepsLine, NormalizeBatchDomain, TrimSpace, Trimmed;
    forall r | r in RecordsOf(rows) ensures LineCounts(lines, r.lineNo) && r.raw == TrimSpace(lines[r.lineNo - 1]) {
      var row := RowOfRecord(rows, r);
      assert IsLine(row, lines);
    }
    forall n: nat | LineCounts(lines, n) ensures exists r :: r in RecordsOf(rows) && r.lineNo == n {
      var row := Row(n, TrimSpace(lines[n - 1]));
      assert IsLine(row, lines) && row in rows;
      var r := RecordOfRow(rows, row);
    }
  }

  /** No line that counts is lost by a parse, and nothing else makes a record. */
  lemma ParsedCovers(text: string)
    ensures ParseText(text).Ok? ==> Covers(SplitLines(text), ParseText(text).value.records)
    ensures JoinLines(SplitLines(text)) == text
  {
    RecordsCover(SplitLines(text));
    JoinOfSplit(text);
    hide Covers, RowsOf, RecordsOf;
  }

  ghost predicate RowsRise(rows: seq<Row>, bound: nat) {
    && (forall i :: 0 <= i < |rows| ==> rows[i].lineNo <= bound)
    && (forall i, j :: 0 <= i < j < |rows| ==> rows[i].lineNo < rows[j].lineNo)
  }

  lemma {:induction false} RowLinesRise(lines: seq<string>)
    ensures RowsRise(RowsOf(lines), |lines|)
    decreases |lines|
  {
    hide KeepsLine, TrimSpace;
    if lines != [] {
      RowLinesRise(lines[..|lines| - 1]);
    }
  }

  lemma {:induction false} RecordLinesRise(rows: seq<Row>)
    requires forall i, j :: 0 <= i < j < |rows| ==> rows[i].lineNo < rows[j].lineNo
    ensures LinesRise(RecordsOf(rows))
    ensures forall i :: 0 <= i < |RecordsOf(rows)| ==> |rows| > 0 && RecordsOf(rows)[i].lineNo <= rows[|rows| - 1].lineNo
    decreases |rows|
  {
    hide Recordable, IsValidBatchDomain, NormalizeBatchDomain, TrimSpace, SeenIn;
    if rows != [] {
      var init := rows[..|rows| - 1];
      RecordLinesRise(init);
      assert init != [] ==> init[|init| - 1].lineNo < rows[|rows| - 1].lineNo;
    }
  }

  // ---------- the round trip ----------

  function RawTargets(records: seq<Record>): (raws: seq<string>)
    ensures |raws| == |records| && forall i :: 0 <= i < |raws| ==> raws[i] == records[i].raw
  {
    seq(|records|, i requires 0 <= i < |records| => records[i].raw)
  }

  /** joinLines over the raw targets in line order. */
  function TargetsText(records: seq<Record>): string {
    JoinLines(RawTargets(records))
  }

  predicate SameButLines(a: Record, b: Record) { a == b.(lineNo := a.lineNo) }

  predicate AllSameButLines(a: seq<Record>, b: seq<Record>) {
    |a| == |b| && forall i :: 0 <= i < |a| ==> SameButLines(a[i], b[i])
  }

  /** `p` survives being printed as targetsText and parsed again. */
  predicate SurvivesPrint(p: Parsed) {
    var again := ParseText(TargetsText(p.records));
    again.Ok? && again.value.stats == p.stats && AllSameButLines(p.records, again.value.records)
  }

  /** Printing a parsed text and parsing the print gives the same raw and normalised targets, statuses and
      reasons in the same order, and the same statistics. */
  lemma PrintThenParse(text: string)
    ensures ParseText(text).Ok? ==> SurvivesPrint(ParseText(text).value)
  {
    hide SurvivesPrint, RowsOf, RecordsOf, CountStatus, Clean;
    var rows := RowsOf(SplitLines(text));
    CleanRows(SplitLines(text));
    if ParseRows(rows).Ok? {
      CleanRowsSurvive(rows);
    }
  }

  lemma CleanRows(lines: seq<string>)
    requires forall i :: 0 <= i < |lines| ==> NoBreak(lines[i])
    ensures forall i :: 0 <= i < |RowsOf(lines)| ==> Clean(RowsOf(lines)[i].value)
  {
    hide KeepsLine, RowsOf, Trimmed;
    RowsTrimmed(lines);
  }

  lemma CleanRowsSurvive(rows: seq<Row>)
    requires forall i :: 0 <= i < |rows| ==> Clean(rows[i].value)
    requires ParseRows(rows).Ok?
    ensures SurvivesPrint(ParseRows(rows).value)
  {
    var records := RecordsOf(rows);
    var raws := RawTargets(records);
    StatusesPartition(records);
    hide RecordsOf, RowsOf, KeepsLine, NormalizeBatchDomain, CountStatus, AllSameButLines, Trimmed, NoBreak;
    RawsComeFromRows(rows);
    SplitOfJoin(raws);
    RowsOfRaws(raws);
    RecordsOfRaws(rows);
    CountsAgree(records, RecordsOf(RowsOf(raws)));
    assert |RowsOf(raws)| == |raws| > 0;
  }

  /** The same for a txt upload, whose byte order mark is dropped before parsing. */
  lemma PrintThenParseTxt(content: string)
    ensures ParseTxt(content).Ok? ==> SurvivesPrint(ParseTxt(content).value)
  {
    hide ParseText, SurvivesPrint;
    PrintThenParse(if [BOM] <= content then content[1..] else content);
  }

  ghost predicate Clean(value: string) {
    Trimmed(value, IsSpace) && KeepsLine(value) && NoBreak(value)
  }

  lemma {:induction false} RawsComeFromRows(rows: seq<Row>)
    requires forall i :: 0 <= i < |rows| ==> Clean(rows[i].value)
    ensures forall i :: 0 <= i < |RecordsOf(rows)| ==> Clean(RecordsOf(rows)[i].raw)
    decreases |rows|
  {
    if rows != [] {
      hide NormalizeBatchDomain, IsValidBatchDomain, SeenIn, NoBreak, KeepsLine;
      RawsComeFromRows(rows[..|rows| - 1]);
      TrimOfTrimmed(rows[|rows| - 1].value, IsSpace);
    }
  }

  lemma {:induction false} RowsOfRaws(raws: seq<string>)
    requires forall i :: 0 <= i < |raws| ==> Clean(raws[i])
    ensures |RowsOf(raws)| == |raws| && forall i :: 0 <= i < |raws| ==> RowsOf(raws)[i] == Row(i + 1, raws[i])
    decreases |raws|
  {
    if raws != [] {
      RowsOfRaws(raws[..|raws| - 1]);
      TrimOfTrimmed(raws[|raws| - 1], IsSpace);
    }
  }

  /** Parsing the raw targets again classifies each exactly as before. */
  lemma {:induction false} RecordsOfRaws(rows: seq<Row>)
    requires forall i :: 0 <= i < |rows| ==> Clean(rows[i].value)
    ensures AllSameButLines(RecordsOf(rows), RecordsOf(RowsOf(RawTargets(RecordsOf(rows)))))
    decreases |rows|
  {
    if rows != [] {
      hide Recordable, Clean, Classify, RowsOf, AllSameButLines;
      var init, last := rows[..|rows| - 1], rows[|rows| - 1];
      RecordsOfRaws(init);
      if Recordable(last) {
        OneMoreRaw(RecordsOf(init), last);
      }
    }
  }

  lemma RawsOneMore(before: seq<Record>, last: Row)
    requires Clean(last.value)
    ensures var all := before + [Classify(last, before)];
      RowsOf(RawTargets(all)) == RowsOf(RawTargets(before)) + [Row(|before| + 1, last.value)]
  {
    var raws := RawTargets(before + [Classify(last, before)]);
    TrimOfTrimmed(last.value, IsSpace);
    hide NormalizeBatchDomain, IsValidBatchDomain, TrimSpace, SeenIn;
    assert raws[|before|] == last.value;
    assert raws[..|before|] == RawTargets(before);
  }

  lemma OneMoreRaw(before: seq<Record>, last: Row)
    requires Clean(last.value) && Recordable(last)
    requires AllSameButLines(before, RecordsOf(RowsOf(RawTargets(before))))
    ensures var all := before + [Classify(last, before)];
      AllSameButLines(all, RecordsOf(RowsOf(RawTargets(all))))
  {
    var again := RecordsOf(RowsOf(RawTargets(before)));
    var row := Row(|before| + 1, last.value);
    RawsOneMore(before, last);
    hide NormalizeBatchDomain, IsValidBatchDomain, TrimSpace, SeenIn, RowsOf, RawTargets, RecordsOf;
    RecordsOfOneMore(RowsOf(RawTargets(before)), row);
    SeenAlike(before, again, NormalizeBatchDomain(last.value));
    SameOneMore(before, again, Classify(last, before), Classify(row, again));
  }

  lemma SameOneMore(a: seq<Record>, b: seq<Record>, x: Record, y: Record)
    requires AllSameButLines(a, b) && SameButLines(x, y)
    ensures AllSameButLines(a + [x], b + [y])
  {
  }

  lemma RecordsOfOneMore(rows: seq<Row>, row: Row)
    requires Recordable(row)
    ensures RecordsOf(rows + [row]) == RecordsOf(rows) + [Classify(row, RecordsOf(rows))]
  {
    hide Recordable, Classify;
    assert (rows + [row])[..|rows|] == rows;
  }

  lemma SeenAlike(a: seq<Record>, b: seq<Record>, normalized: string)
    requires AllSameButLines(a, b)
    ensures SeenIn(a, normalized) == SeenIn(b, normalized)
  {
    hide IsValidBatchDomain;
    assert forall i :: 0 <= i < |a| ==> SameButLines(a[i], b[i]) && a[i].normalized == b[i].normalized;
    if SeenIn(a, normalized) {
      var i :| 0 <= i < |a| && a[i].normalized == normalized && IsValidBatchDomain(normalized);
      assert b[i].normalized == normalized;
    }
  }

  lemma {:induction false} CountsAgree(a: seq<Record>, b: seq<Record>)
    requires AllSameButLines(a, b)
    ensures StatsOf(a) == StatsOf(b)
    decreases |a|
  {
    if a != [] {
      assert SameButLines(a[|a| - 1], b[|b| - 1]);
      assert forall i :: 0 <= i < |a| - 1 ==> SameButLines(a[i], b[i]);
      CountsAgree(a[..|a| - 1], b[..|b| - 1]);
    }
  }

  // ---------- the code ----------

  /** The line loop of iterBatchRows, the same for text and txt. */
  method IterBatchRows(text: string) returns (rows: seq<Row>)
    ensures rows == RowsOf(SplitLines(text))
  {
    rows := [];
    var lines := SplitLines(text);
    for i := 0 to |lines|
      invariant rows == RowsOf(lines[..i])
    {
      assert lines[..i + 1][..i] == lines[..i];
      var value := TrimSpace(lines[i]);
      if value == "" || value[0] == '#' {
        continue;
      }
      rows := rows + [Row(i + 1, value)];
    }
    assert lines[..|lines|] == lines;
  }

  /** Of a txt upload the byte order mark is dropped first; posted text is taken as it is. */
  method ParseBatchInput(txtUpload: bool, text: string) returns (result: Result<Parsed, ParseError>)
    ensures result == if txtUpload then ParseTxt(text) else ParseText(text)
  {
    var content := text;
    if txtUpload && [BOM] <= content {
      content := content[1..];
    }
    var rows := IterBatchRows(content);
    if |rows| == 0 {
      return Err(NoContent);
    }
    result := CollectRecords(rows);
  }

  /** One row of the record loop: its record, given the valid domains seen so far. */
  method ClassifyRow(row: Row, normalized: string, seenBefore: set<string>, ghost records: seq<Record>)
    returns (record: Record, seen: set<string>)
    requires normalized == NormalizeBatchDomain(row.value) && SeenIs(seenBefore, records)
    ensures record == Classify(row, records)
    ensures SeenIs(seen, records + [record])
  {
    hide SeenIs, SeenIn, IsValidBatchDomain, NormalizeBatchDomain, TrimSpace;
    SeenGrows(seenBefore, records, Classify(row, records));
    record, seen := Record(row.lineNo, TrimSpace(row.value), normalized, Valid, ""), seenBefore;
    if !IsValidBatchDomain(normalized) {
      record := record.(status := Invalid, skipReason := REASON_INVALID);
    } else if normalized in seen {
      assert seen + {normalized} == seen;
      record := record.(status := Duplicate, skipReason := REASON_DUPLICATE);
    } else {
      seen := seen + {normalized};
    }
  }

  /** The record loop of ParseBatchInput and its final checks. */
  method CollectRecords(rows: seq<Row>) returns (result: Result<Parsed, ParseError>)
    requires rows != []
    ensures result == ParseRows(rows)
  {
    hide SeenIs, Classify, NormalizeBatchDomain, RecordsOf, CountStatus;
    var records: seq<Record>, seen: set<string> := [], {};
    var valid, invalid, duplicate := 0, 0, 0;
    NoRecords(rows);
    for i := 0 to |rows|
      invariant records == RecordsOf(rows[..i])
      invariant SeenIs(seen, records)
      invariant valid == CountStatus(records, Valid)
      invariant invalid == CountStatus(records, Invalid)
      invariant duplicate == CountStatus(records, Duplicate)
    {
      RecordsNext(rows, i);
      var normalized := NormalizeBatchDomain(rows[i].value);
      if normalized == "" {
        continue;
      }
      var record;
      record, seen := ClassifyRow(rows[i], normalized, seen, records);
      CountNext(records, record);
      records := records + [record];
      match record.status
      case Valid => valid := valid + 1;
      case Invalid => invalid := invalid + 1;
      case Duplicate => duplicate := duplicate + 1;
    }
    assert rows[..|rows|] == rows;
    if valid == 0 {
      return Err(NoValidDomain);
    }
    if valid > MAX_VALID_TARGETS {
      return Err(TooManyDomains);
    }
    result := Ok(Parsed(records, Stats(|records|, valid, invalid, duplicate)));
  }

  lemma NoRecords(rows: seq<Row>)
    ensures RecordsOf(rows[..0]) == [] && SeenIs({}, [])
    ensures forall s :: CountStatus([], s) == 0
  {
  }

  lemma RecordsNext(rows: seq<Row>, k: nat)
    requires k < |rows|
    ensures var before := RecordsOf(rows[..k]);
      RecordsOf(rows[..k + 1]) == if Recordable(rows[k]) then before + [Classify(rows[k], before)] else before
  {
    assert rows[..k + 1][..k] == rows[..k];
  }

  lemma CountNext(records: seq<Record>, record: Record)
    ensures forall s :: CountStatus(records + [record], s) == CountStatus(records, s) + if record.status == s then 1 else 0
  {
    assert (records + [record])[..|records|] == records;
  }

  /** The set holds the valid domains recorded so far. */
  ghost predicate SeenIs(seen: set<string>, records: seq<Record>) {
    forall d :: d in seen <==> SeenIn(records, d)
  }

  lemma SeenGrows(seen: set<string>, earlier: seq<Record>, record: Record)
    requires SeenIs(seen, earlier)
    ensures record.normalized in seen <==> SeenIn(earlier, record.normalized)
    ensures SeenIs(if IsValidBatchDomain(record.normalized) then seen + {record.normalized} else seen, earlier + [record])
  {
    hide IsValidBatchDomain;
    var all := earlier + [record];
    assert forall i :: 0 <= i < |earlier| ==> all[i] == earlier[i];
    assert all[|earlier|] == record;
    forall d
      ensures SeenIn(all, d) <==> SeenIn(earlier, d) || (d == record.normalized && IsValidBatchDomain(d))
    {
      if SeenIn(earlier, d) {
        var i :| 0 <= i < |earlier| && earlier[i].normalized == d && IsValidBatchDomain(d);
        assert all[i].normalized == d;
      }
    }
  }
}
