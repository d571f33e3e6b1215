/** Evaluate of internal/risk/engine.go: the fourteen verdicts on one host, computed in loops over the baseline
    and the observation, against what each verdict means. */
module RiskEngine {
  import opened Ranking
  import opened Text
  import opened TrustRecords
  import opened Wrappers

  /** A baseline row; its record's own ttl is not looked at. */
  datatype BaselineRow = BaselineRow(record: Record, ttlMin: Option<int>, ttlMax: Option<int>)

  datatype Host = Host(fqdn: string, allowWildcard: bool, allowAxfr: bool, allowRebind: bool)

  datatype Observation = Observation(
    rcode: string, errorKind: string, nsNames: seq<string>, glueIps: seq<string>, uniqueIps: seq<string>,
    wildcardHit: bool, axfrSuccess: bool, records: seq<Record>, latencies: seq<real>, traceBroken: bool,
    resolverAnswers: map<string, seq<string>>)

  datatype IpClass = Private | Public | NoAddress

  datatype Verdict = Verdict(riskType: string, suspicious: bool)

  // ---------- what the sets mean ----------

  predicate IsPrimary(r: Record) { r.section == "answer" && (r.rrtype == "A" || r.rrtype == "AAAA" || r.rrtype == "CNAME") }

  predicate IsAddress(r: Record) { r.rrtype == "A" || r.rrtype == "AAAA" }

  predicate At(r: Record, name: string) { NormName(r.name) == NormName(name) }

  function NameType(r: Record): string { NormName(r.name) + "|" + r.rrtype }

  function Records(bs: seq<BaselineRow>): set<Record> { set b | b in bs :: b.record }

  function PrimaryExpected(rs: set<Record>): set<string> { set r | r in rs && IsPrimary(r) :: r.value }

  function AnswerKeys(rs: set<Record>): set<string> { set r | r in rs && r.section == "answer" :: NameType(r) }

  function NsName(r: Record): string { NormName(Trim(r.value, IsDot)) }

  function NsNames(rs: set<Record>): set<string> { set r | r in rs && r.rrtype == "NS" :: NsName(r) }

  function GlueIps(rs: set<Record>): set<string> {
    set r | r in rs && IsAddress(r) && NormName(r.name) in NsNames(rs) :: r.value
  }

  function PrimaryObserved(fqdn: string, rs: set<Record>): set<string> {
    set r | r in rs && IsPrimary(r) && At(r, fqdn) :: r.value
  }

  /** Normalised, without the empty name. */
  function NormSet(values: set<string>): set<string> {
    set v | v in values && NormName(v) != "" :: NormName(v)
  }

  function SetOf<T>(s: seq<T>): set<T> { set x | x in s }

  /** The size test and one inclusion decide equality. */
  predicate SetEqual(a: set<string>, b: set<string>) { |a| == |b| && a <= b }

  lemma SetEqualRight(a: set<string>, b: set<string>)
    ensures SetEqual(a, b) <==> a == b
  {
    if a <= b {
      assert |b - a| == |b| - |a|;
      if |a| == |b| {
        assert b - a == {};
      }
    }
  }

  // ---------- what the verdicts mean ----------

  predicate RecordDeleted(bs: seq<BaselineRow>, o: Observation) {
    !(AnswerKeys(Records(bs)) <= AnswerKeys(SetOf(o.records)))
  }

  predicate AnswerEmpty(host: Host, bs: seq<BaselineRow>, o: Observation) {
    PrimaryExpected(Records(bs)) != {} && o.rcode == "NOERROR" && PrimaryObserved(host.fqdn, SetOf(o.records)) == {}
  }

  predicate NsNameHijacked(bs: seq<BaselineRow>, o: Observation) {
    var expected, observed := NsNames(Records(bs)), NormSet(SetOf(o.nsNames));
    expected != {} && observed != {} && NormSet(expected) != observed
  }

  predicate NsIpHijacked(bs: seq<BaselineRow>, o: Observation) {
    var expected := GlueIps(Records(bs));
    expected != {} && o.glueIps != [] && forall ip :: ip in o.glueIps ==> NormName(ip) !in NormSet(expected)
  }

  predicate AnswersAddress(b: BaselineRow) { b.record.section == "answer" && IsAddress(b.record) }

  /** Below every lower bound of the baseline, of which there is one. */
  predicate BelowAll(bs: seq<BaselineRow>, ttl: int) {
    && (exists b :: b in bs && AnswersAddress(b) && b.ttlMin.Some?)
    && (forall b :: b in bs && AnswersAddress(b) && b.ttlMin.Some? ==> ttl < b.ttlMin.value)
  }

  predicate AboveAll(bs: seq<BaselineRow>, ttl: int) {
    && (exists b :: b in bs && AnswersAddress(b) && b.ttlMax.Some?)
    && (forall b :: b in bs && AnswersAddress(b) && b.ttlMax.Some? ==> ttl > b.ttlMax.value)
  }

  predicate TtlOut(host: Host, bs: seq<BaselineRow>, rows: seq<Record>) {
    exists r :: r in rows && r.section == "answer" && r.rrtype == "A" && At(r, host.fqdn) && r.ttl.Some?
      && (BelowAll(bs, r.ttl.value) || AboveAll(bs, r.ttl.value))
  }

  predicate MultiClass(ips: seq<string>, ipClass: string -> IpClass) {
    exists a, b :: a in ips && b in ips && ipClass(a) != ipClass(b)
  }

  predicate OffBaseline(bs: seq<BaselineRow>, ips: seq<string>) {
    bs != [] && exists ip :: ip in ips && NormName(ip) !in NormSet(PrimaryExpected(Records(bs)))
  }

  predicate Rebound(host: Host, bs: seq<BaselineRow>, o: Observation, ipClass: string -> IpClass) {
    !host.allowRebind && |o.uniqueIps| > 1
    && (MultiClass(o.uniqueIps, ipClass) || OffBaseline(bs, o.uniqueIps) || TtlOut(host, bs, o.records))
  }

  function NormList(values: seq<string>): seq<string> {
    seq(|values|, i requires 0 <= i < |values| => NormName(values[i]))
  }

  /** Two resolvers disagree: their normalised answers differ as multisets. */
  predicate Diverged(o: Observation) {
    exists a, b :: a in o.resolverAnswers && b in o.resolverAnswers
      && multiset(NormList(o.resolverAnswers[a])) != multiset(NormList(o.resolverAnswers[b]))
  }

  function CountAbove(s: seq<real>, limit: real): nat {
    if s == [] then 0 else CountAbove(s[..|s| - 1], limit) + if s[|s| - 1] > limit then 1 else 0
  }

  lemma {:induction false} CountAboveMeans(s: seq<real>, limit: real)
    ensures CountAbove(s, limit) == |set i | 0 <= i < |s| && s[i] > limit|
    decreases |s|
  {
    if s != [] {
      var n := |s| - 1;
      CountAboveMeans(s[..n], limit);
      var before := set i | 0 <= i < n && s[..n][i] > limit;
      assert (set i | 0 <= i < |s| && s[i] > limit) == if s[n] > limit then before + {n} else before;
    }
  }

  /** From three samples on: more than the slowest twentieth of them took over two seconds. */
  predicate Slow(o: Observation) {
    var n := |o.latencies|;
    n >= 3 && CountAbove(o.latencies, 2000.0) >= n - n * 95 / 100
  }

  predicate Unreachable(bs: seq<BaselineRow>, o: Observation) {
    PrimaryExpected(Records(bs)) != {} && o.errorKind == "timeout"
  }

  predicate NoService(bs: seq<BaselineRow>, o: Observation) {
    PrimaryExpected(Records(bs)) != {} && (o.errorKind == "servfail" || o.errorKind == "connection_refused")
  }

  // ---------- the verdicts, read off the rows ----------

  predicate IsAnswer(r: Record) { r.section == "answer" && r.rrtype in {"A", "AAAA", "CNAME"} }

  predicate ExpectsAnswer(bs: seq<BaselineRow>) { exists b :: b in bs && IsAnswer(b.record) }

  /** Some answer row has the name, normalised, and the type. */
  predicate Answered(rows: seq<Record>, name: string, rrtype: string) {
    exists r :: r in rows && r.section == "answer" && NormName(r.name) == NormName(name) && r.rrtype == rrtype
  }

  /** Some answer of the baseline is not answered by name and type. */
  predicate RecordMissing(bs: seq<BaselineRow>, o: Observation) {
    exists b :: b in bs && b.record.section == "answer" && !Answered(o.records, b.record.name, b.record.rrtype)
  }

  predicate NoBarInNames(bs: seq<BaselineRow>, o: Observation) {
    (forall b :: b in bs ==> NoBar(b.record.name)) && (forall r :: r in o.records ==> NoBar(r.name))
  }

  lemma NameTypeInjective(r: Record, s: Record)
    requires NoBar(r.name) && NoBar(s.name)
    ensures NameType(r) == NameType(s) <==> NormName(r.name) == NormName(s.name) && r.rrtype == s.rrtype
  {
    NormKeepsNoBar(r.name);
    NormKeepsNoBar(s.name);
    hide NormName, NoBar;
    if NameType(r) == NameType(s) {
      BarSplits(NormName(r.name), r.rrtype, NormName(s.name), s.rrtype);
    }
  }

  /** A deletion is an answer of the baseline whose name and type nobody answers any more, when names hold no
      separator. */
  lemma DeletionMeans(bs: seq<BaselineRow>, o: Observation)
    requires NoBarInNames(bs, o)
    ensures RecordDeleted(bs, o) <==> RecordMissing(bs, o)
  {
    hide NameType, NormName, NoBar;
    forall b | b in bs && b.record.section == "answer"
      ensures NameType(b.record) in AnswerKeys(SetOf(o.records)) <==> Answered(o.records, b.record.name, b.record.rrtype)
    {
      forall r | r in o.records
        ensures NameType(r) == NameType(b.record) <==> NormName(r.name) == NormName(b.record.name) && r.rrtype == b.record.rrtype
      {
        NameTypeInjective(r, b.record);
      }
    }
    if k :| k in AnswerKeys(Records(bs)) && k !in AnswerKeys(SetOf(o.records)) {
      var b :| b in bs && b.record.section == "answer" && NameType(b.record) == k;
    }
    if b :| b in bs && b.record.section == "answer" && !Answered(o.records, b.record.name, b.record.rrtype) {
      assert b.record in Records(bs);
      assert NameType(b.record) in AnswerKeys(Records(bs));
    }
  }

  lemma ExpectedMeans(bs: seq<BaselineRow>)
    ensures PrimaryExpected(Records(bs)) != {} <==> ExpectsAnswer(bs)
  {
    if v :| v in PrimaryExpected(Records(bs)) {
      var b :| b in bs && IsPrimary(b.record) && b.record.value == v;
      assert IsAnswer(b.record);
    }
    if b :| b in bs && IsAnswer(b.record) {
      assert b.record in Records(bs) && IsPrimary(b.record);
      assert b.record.value in PrimaryExpected(Records(bs));
    }
  }

  /** The host is expected to answer; and nothing is reachable, nobody serves, or it does not answer. */
  lemma AnswerVerdictsMean(host: Host, bs: seq<BaselineRow>, o: Observation)
    ensures Unreachable(bs, o) <==> ExpectsAnswer(bs) && o.errorKind == "timeout"
    ensures NoService(bs, o) <==> ExpectsAnswer(bs) && o.errorKind in {"servfail", "connection_refused"}
    ensures AnswerEmpty(host, bs, o) <==>
      && ExpectsAnswer(bs) && o.rcode == "NOERROR"
      && forall r :: r in o.records && IsAnswer(r) ==> NormName(r.name) != NormName(host.fqdn)
  {
    hide NormName;
    ExpectedMeans(bs);
    forall r | r in o.records && IsAnswer(r) && NormName(r.name) == NormName(host.fqdn)
      ensures r.value in PrimaryObserved(host.fqdn, SetOf(o.records))
    {
      assert r in SetOf(o.records);
    }
  }

  predicate ExpectedNs(bs: seq<BaselineRow>, n: string) {
    exists b :: b in bs && b.record.rrtype == "NS" && NormName(Trim(b.record.value, IsDot)) == n
  }

  predicate ExpectedNsOnceMore(bs: seq<BaselineRow>, n: string) {
    exists b :: b in bs && b.record.rrtype == "NS" && NormName(NormName(Trim(b.record.value, IsDot))) == n
  }

  predicate ObservedNs(o: Observation, n: string) { exists v :: v in o.nsNames && NormName(v) == n }

  lemma NsNamesMean(bs: seq<BaselineRow>)
    ensures forall n :: n in NsNames(Records(bs)) <==> ExpectedNs(bs, n)
    ensures forall n :: n in NormSet(NsNames(Records(bs))) <==> n != "" && ExpectedNsOnceMore(bs, n)
  {
    hide NormName, Trim;
    forall b | b in bs && b.record.rrtype == "NS" ensures NormName(Trim(b.record.value, IsDot)) in NsNames(Records(bs)) {
      assert b.record in Records(bs);
      assert NsName(b.record) in NsNames(Records(bs));
    }
    forall n | n in NsNames(Records(bs)) ensures ExpectedNs(bs, n) {
      var b :| b in bs && b.record.rrtype == "NS" && NsName(b.record) == n;
    }
  }

  /** The baseline names a name server, one is observed, and some name is among the ones and not the others. */
  lemma NsNameVerdictMeans(bs: seq<BaselineRow>, o: Observation)
    ensures NsNameHijacked(bs, o) <==>
      && (exists b :: b in bs && b.record.rrtype == "NS")
      && (exists n :: n != "" && ObservedNs(o, n))
      && (exists n :: n != "" && ObservedNs(o, n) != ExpectedNsOnceMore(bs, n))
  {
    hide NormName, Trim;
    NsNamesMean(bs);
    var expected, observed := NsNames(Records(bs)), NormSet(SetOf(o.nsNames));
    forall n ensures n in observed <==> n != "" && ObservedNs(o, n) {
      if n != "" && ObservedNs(o, n) {
        var v :| v in o.nsNames && NormName(v) == n;
        assert v in SetOf(o.nsNames);
      }
    }
    if b :| b in bs && b.record.rrtype == "NS" {
      assert ExpectedNs(bs, NormName(Trim(b.record.value, IsDot)));
    }
    hide NsNames, NormSet, SetOf, ExpectedNsOnceMore, ObservedNs;
    assert expected != {} <==> exists n :: ExpectedNs(bs, n);
    assert NormSet(expected) != observed <==> exists n :: (n in NormSet(expected)) != (n in observed);
  }

  /** A name server's address in the baseline. */
  predicate NsAddress(bs: seq<BaselineRow>, b: BaselineRow) {
    b in bs && IsAddress(b.record) && ExpectedNs(bs, NormName(b.record.name))
  }

  /** The baseline has addresses of name servers, some are observed, and none of these is one of those. */
  lemma NsIpVerdictMeans(bs: seq<BaselineRow>, o: Observation)
    ensures NsIpHijacked(bs, o) <==>
      && (exists b :: NsAddress(bs, b)) && o.glueIps != []
      && forall ip, b :: ip in o.glueIps && NormName(ip) != "" && NsAddress(bs, b) ==> NormName(ip) != NormName(b.record.value)
  {
    hide NormName, Trim;
    NsNamesMean(bs);
    hide NsNames, ExpectedNs;
    var glue := GlueIps(Records(bs));
    forall b | NsAddress(bs, b) ensures b.record.value in glue {
      assert b.record in Records(bs);
    }
    forall v | v in glue ensures exists b :: NsAddress(bs, b) && b.record.value == v {
      var b :| b in bs && IsAddress(b.record) && NormName(b.record.name) in NsNames(Records(bs)) && b.record.value == v;
      assert NsAddress(bs, b);
    }
    hide GlueIps, NsAddress, Records;
    forall ip | ip in o.glueIps
      ensures NormName(ip) in NormSet(glue) <==>
        NormName(ip) != "" && exists b :: NsAddress(bs, b) && NormName(b.record.value) == NormName(ip)
    {
      if NormName(ip) in NormSet(glue) {
        var v :| v in glue && NormName(v) != "" && NormName(v) == NormName(ip);
        var b :| NsAddress(bs, b) && b.record.value == v;
      }
    }
  }

  /** The baseline has rows, and none of its answers has the address. */
  predicate Unexpected(bs: seq<BaselineRow>, ip: string) {
    bs != [] && forall b :: b in bs && IsAnswer(b.record) && NormName(b.record.value) != "" ==>
      NormName(b.record.value) != NormName(ip)
  }

  /** Several addresses, not allowed, and: of different classes, or one unexpected, or with a TTL that is out. */
  lemma RebindVerdictMeans(host: Host, bs: seq<BaselineRow>, o: Observation, ipClass: string -> IpClass)
    ensures Rebound(host, bs, o, ipClass) <==>
      && !host.allowRebind && |o.uniqueIps| > 1
      && (MultiClass(o.uniqueIps, ipClass) || (exists ip :: ip in o.uniqueIps && Unexpected(bs, ip)) || TtlOut(host, bs, o.records))
  {
    hide NormName, MultiClass, TtlOut;
    forall ip | ip in o.uniqueIps && bs != []
      ensures NormName(ip) !in NormSet(PrimaryExpected(Records(bs))) <==> Unexpected(bs, ip)
    {
      if NormName(ip) in NormSet(PrimaryExpected(Records(bs))) {
        var b :| b in bs && IsPrimary(b.record) && NormName(b.record.value) != "" && NormName(b.record.value) == NormName(ip);
        assert IsAnswer(b.record);
      }
      if b :| b in bs && IsAnswer(b.record) && NormName(b.record.value) != "" && NormName(b.record.value) == NormName(ip) {
        assert b.record in Records(bs) && IsPrimary(b.record);
        assert b.record.value in PrimaryExpected(Records(bs));
      }
    }
  }

  // ---------- the baseline loops ----------

  /** The least of the bounds there are. */
  ghost predicate LeastBound(bounds: set<int>, m: Option<int>) {
    match m
    case None => bounds == {}
    case Some(x) => x in bounds && forall y :: y in bounds ==> x <= y
  }

  ghost predicate GreatestBound(bounds: set<int>, m: Option<int>) {
    match m
    case None => bounds == {}
    case Some(x) => x in bounds && forall y :: y in bounds ==> y <= x
  }

  function LowerBounds(bs: seq<BaselineRow>): set<int> {
    set b | b in bs && AnswersAddress(b) && b.ttlMin.Some? :: b.ttlMin.value
  }

  function UpperBounds(bs: seq<BaselineRow>): set<int> {
    set b | b in bs && AnswersAddress(b) && b.ttlMax.Some? :: b.ttlMax.value
  }

  method ReadNames(bs: seq<BaselineRow>) returns (primary: set<string>, keys: set<string>, nsNames: set<string>)
    ensures primary == PrimaryExpected(Records(bs)) && keys == AnswerKeys(Records(bs)) && nsNames == NsNames(Records(bs))
  {
    hide NameType, NsName;
    primary, keys, nsNames := {}, {}, {};
    for k := 0 to |bs|
      invariant primary == PrimaryExpected(Records(bs[..k]))
      invariant keys == AnswerKeys(Records(bs[..k]))
    {
      RecordsNext(bs, k);
      var r := bs[k].record;
      if r.section != "answer" { continue; }
      if r.rrtype == "A" || r.rrtype == "AAAA" || r.rrtype == "CNAME" { primary := primary + {r.value}; }
      keys := keys + {NameType(r)};
    }
    for k := 0 to |bs|
      invariant nsNames == NsNames(Records(bs[..k]))
    {
      RecordsNext(bs, k);
      if bs[k].record.rrtype == "NS" { nsNames := nsNames + {NsName(bs[k].record)}; }
    }
    assert bs[..|bs|] == bs;
  }

  lemma RecordsNext(bs: seq<BaselineRow>, k: nat)
    requires k < |bs|
    ensures Records(bs[..k + 1]) == Records(bs[..k]) + {bs[k].record}
  {
    assert bs[..k + 1] == bs[..k] + [bs[k]];
  }

  method ReadGlue(bs: seq<BaselineRow>, nsNames: set<string>) returns (glue: set<string>)
    requires nsNames == NsNames(Records(bs))
    ensures glue == GlueIps(Records(bs))
  {
    hide NormName, NsNames;
    glue := {};
    for k := 0 to |bs|
      invariant glue == set r | r in Records(bs[..k]) && IsAddress(r) && NormName(r.name) in nsNames :: r.value
    {
      RecordsNext(bs, k);
      var r := bs[k].record;
      if (r.rrtype == "A" || r.rrtype == "AAAA") && NormName(r.name) in nsNames { glue := glue + {r.value}; }
    }
    assert bs[..|bs|] == bs;
  }

  method ReadTtls(bs: seq<BaselineRow>) returns (ttlMin: Option<int>, ttlMax: Option<int>)
    ensures LeastBound(LowerBounds(bs), ttlMin) && GreatestBound(UpperBounds(bs), ttlMax)
  {
    ttlMin, ttlMax := None, None;
    for k := 0 to |bs|
      invariant LeastBound(LowerBounds(bs[..k]), ttlMin) && GreatestBound(UpperBounds(bs[..k]), ttlMax)
    {
      BoundsNext(bs, k);
      var b := bs[k];
      hide LowerBounds, UpperBounds;
      if AnswersAddress(b) {
        if b.ttlMin.Some? && (ttlMin == None || b.ttlMin.value < ttlMin.value) { ttlMin := b.ttlMin; }
        if b.ttlMax.Some? && (ttlMax == None || b.ttlMax.value > ttlMax.value) { ttlMax := b.ttlMax; }
      }
    }
    assert bs[..|bs|] == bs;
  }

  lemma BoundsNext(bs: seq<BaselineRow>, k: nat)
    requires k < |bs|
    ensures LowerBounds(bs[..k + 1])
         == LowerBounds(bs[..k]) + if AnswersAddress(bs[k]) && bs[k].ttlMin.Some? then {bs[k].ttlMin.value} else {}
    ensures UpperBounds(bs[..k + 1])
         == UpperBounds(bs[..k]) + if AnswersAddress(bs[k]) && bs[k].ttlMax.Some? then {bs[k].ttlMax.value} else {}
  {
    assert bs[..k + 1] == bs[..k] + [bs[k]];
  }

  lemma OutOfBounds(bs: seq<BaselineRow>, ttlMin: Option<int>, ttlMax: Option<int>, ttl: int)
    requires LeastBound(LowerBounds(bs), ttlMin) && GreatestBound(UpperBounds(bs), ttlMax)
    ensures BelowAll(bs, ttl) <==> ttlMin.Some? && ttl < ttlMin.value
    ensures AboveAll(bs, ttl) <==> ttlMax.Some? && ttl > ttlMax.value
  {
    forall b | b in bs && AnswersAddress(b) && b.ttlMin.Some? ensures b.ttlMin.value in LowerBounds(bs) {}
    forall b | b in bs && AnswersAddress(b) && b.ttlMax.Some? ensures b.ttlMax.value in UpperBounds(bs) {}
  }

  // ---------- the observation loops ----------

  method ReadObserved(fqdn: string, rows: seq<Record>) returns (primary: set<string>, keys: set<string>)
    ensures primary == PrimaryObserved(fqdn, SetOf(rows)) && keys == AnswerKeys(SetOf(rows))
  {
    hide NameType, NormName;
    primary, keys := {}, {};
    for k := 0 to |rows|
      invariant primary == PrimaryObserved(fqdn, SetOf(rows[..k]))
      invariant keys == AnswerKeys(SetOf(rows[..k]))
    {
      var r := rows[k];
      assert rows[..k + 1] == rows[..k] + [r];
      assert SetOf(rows[..k + 1]) == SetOf(rows[..k]) + {r};
      if r.section != "answer" { continue; }
      if (r.rrtype == "A" || r.rrtype == "AAAA" || r.rrtype == "CNAME") && NormName(r.name) == NormName(fqdn) {
        primary := primary + {r.value};
      }
      keys := keys + {NameType(r)};
    }
    assert rows[..|rows|] == rows;
  }

  method CheckTtls(host: Host, bs: seq<BaselineRow>, rows: seq<Record>, ttlMin: Option<int>, ttlMax: Option<int>)
    returns (out: bool)
    requires LeastBound(LowerBounds(bs), ttlMin) && GreatestBound(UpperBounds(bs), ttlMax)
    ensures out <==> TtlOut(host, bs, rows)
  {
    hide LeastBound, GreatestBound, NormName, BelowAll, AboveAll;
    out := false;
    if ttlMin == None && ttlMax == None {
      forall r | r in rows && r.ttl.Some? ensures !BelowAll(bs, r.ttl.value) && !AboveAll(bs, r.ttl.value) {
        OutOfBounds(bs, ttlMin, ttlMax, r.ttl.value);
      }
      return;
    }
    for k := 0 to |rows|
      invariant out <==> TtlOut(host, bs, rows[..k])
    {
      var r := rows[k];
      assert rows[..k + 1] == rows[..k] + [r];
      if r.section != "answer" || r.rrtype != "A" || NormName(r.name) != NormName(host.fqdn) || r.ttl == None { continue; }
      OutOfBounds(bs, ttlMin, ttlMax, r.ttl.value);
      if (ttlMin.Some? && r.ttl.value < ttlMin.value) || (ttlMax.Some? && r.ttl.value > ttlMax.value) { out := true; }
    }
    assert rows[..|rows|] == rows;
  }

  method CheckRebind(host: Host, bs: seq<BaselineRow>, primary: set<string>, o: Observation, ipClass: string -> IpClass)
    returns (hit: bool)
    requires primary == PrimaryExpected(Records(bs))
    ensures hit <==> Rebound(host, bs, o, ipClass)
  {
    hide NormName, TtlOut, LeastBound, GreatestBound, PrimaryExpected, NormSet;
    var classes: set<IpClass> := {};
    var off := false;
    for k := 0 to |o.uniqueIps|
      invariant classes == set ip | ip in o.uniqueIps[..k] :: ipClass(ip)
      invariant off <==> exists ip :: ip in o.uniqueIps[..k] && NormName(ip) !in NormSet(primary)
    {
      var ip := o.uniqueIps[k];
      assert o.uniqueIps[..k + 1] == o.uniqueIps[..k] + [ip];
      classes := classes + {ipClass(ip)};
      if NormName(ip) !in NormSet(primary) { off := true; }
    }
    assert o.uniqueIps[..|o.uniqueIps|] == o.uniqueIps;
    var ttlMin, ttlMax := ReadTtls(bs);
    var ttlOut := CheckTtls(host, bs, o.records, ttlMin, ttlMax);
    ManyClasses(o.uniqueIps, ipClass, classes);
    hit := !host.allowRebind && |o.uniqueIps| > 1 && (|classes| > 1 || (bs != [] && off) || ttlOut);
  }

  lemma ManyClasses(ips: seq<string>, ipClass: string -> IpClass, classes: set<IpClass>)
    requires classes == set ip | ip in ips :: ipClass(ip)
    ensures |classes| > 1 <==> MultiClass(ips, ipClass)
  {
    if a, b :| a in ips && b in ips && ipClass(a) != ipClass(b) {
      assert {ipClass(a), ipClass(b)} <= classes;
      SubsetSize({ipClass(a), ipClass(b)}, classes);
    } else if ips != [] {
      assert classes == {ipClass(ips[0])};
    } else {
      assert classes == {};
    }
  }

  lemma SubsetSize<T>(a: set<T>, b: set<T>)
    requires a <= b
    ensures |a| <= |b|
  {
    assert |b - a| == |b| - |a|;
  }

  // ---------- divergence ----------

  lemma SameLast(s: seq<string>, t: seq<string>)
    requires Sorted(s, LexLess) && Sorted(t, LexLess) && multiset(s) == multiset(t) && s != []
    ensures t != [] && s[|s| - 1] == t[|t| - 1]
  {
    hide LexLess;
    var x := s[|s| - 1];
    assert x in multiset(t);
    var y := t[|t| - 1];
    assert y in multiset(s);
    var i :| 0 <= i < |t| && t[i] == x;
    var j :| 0 <= j < |s| && s[j] == y;
    LexTrichotomy(x, y);
  }

  /** Sorting makes equal multisets equal. */
  lemma {:induction false} SortedUnique(s: seq<string>, t: seq<string>)
    requires Sorted(s, LexLess) && Sorted(t, LexLess) && multiset(s) == multiset(t)
    ensures s == t
    decreases |s|
  {
    hide LexLess, Sorted;
    if s == [] {
      assert |multiset(t)| == 0;
    } else {
      SameLast(s, t);
      DropLast(s);
      DropLast(t);
      SortedPrefix(s);
      SortedPrefix(t);
      SortedUnique(s[..|s| - 1], t[..|t| - 1]);
      assert s == s[..|s| - 1] + [s[|s| - 1]] && t == t[..|t| - 1] + [t[|t| - 1]];
    }
  }

  lemma DropLast(s: seq<string>)
    requires s != []
    ensures multiset(s[..|s| - 1]) == multiset(s) - multiset{s[|s| - 1]}
  {
    assert s == s[..|s| - 1] + [s[|s| - 1]];
  }

  lemma SortedPrefix(s: seq<string>)
    requires s != [] && Sorted(s, LexLess)
    ensures Sorted(s[..|s| - 1], LexLess)
  {
    hide LexLess;
  }

  lemma LexIsStrict()
    ensures StrictWeakOrder(LexLess)
  {
    forall x, y, z {
      LexCompare(x, y, z);
    }
  }

  /** ipSignature, as the list that it prints. */
  function Signature(ips: seq<string>): seq<string> { InsertAll(NormList(ips), LexLess) }

  lemma SignatureRight(a: seq<string>, b: seq<string>)
    ensures Signature(a) == Signature(b) <==> multiset(NormList(a)) == multiset(NormList(b))
  {
    LexIsStrict();
    InsertAllPermutes(NormList(a), LexLess);
    InsertAllPermutes(NormList(b), LexLess);
    InsertAllSorts(NormList(a), LexLess);
    InsertAllSorts(NormList(b), LexLess);
    hide NormList, InsertAll;
    if multiset(NormList(a)) == multiset(NormList(b)) {
      SortedUnique(Signature(a), Signature(b));
    }
  }

  method CheckDivergence(o: Observation) returns (hit: bool)
    ensures hit <==> Diverged(o)
  {
    hide NormList, Signature;
    hit := false;
    if |o.resolverAnswers| < 2 {
      if a, b :| a in o.resolverAnswers && b in o.resolverAnswers && a != b {
        SubsetSize({a, b}, o.resolverAnswers.Keys);
      }
      return;
    }
    var signatures: set<seq<string>>, todo := {}, o.resolverAnswers.Keys;
    while todo != {}
      invariant todo <= o.resolverAnswers.Keys
      invariant signatures == set r | r in o.resolverAnswers.Keys - todo :: Signature(o.resolverAnswers[r])
      decreases todo
    {
      var r :| r in todo;
      todo := todo - {r};
      signatures := signatures + {Signature(o.resolverAnswers[r])};
    }
    hit := |signatures| > 1;
    ManySignatures(o, signatures);
  }

  lemma ManySignatures(o: Observation, signatures: set<seq<string>>)
    requires signatures == set r | r in o.resolverAnswers.Keys :: Signature(o.resolverAnswers[r])
    ensures |signatures| > 1 <==> Diverged(o)
  {
    hide NormList, Signature;
    var m := o.resolverAnswers;
    forall a, b | a in m && b in m
      ensures Signature(m[a]) == Signature(m[b]) <==> multiset(NormList(m[a])) == multiset(NormList(m[b]))
    {
      SignatureRight(m[a], m[b]);
    }
    if a, b :| a in m && b in m && Signature(m[a]) != Signature(m[b]) {
      SubsetSize({Signature(m[a]), Signature(m[b])}, signatures);
    } else if a :| a in m {
      assert signatures == {Signature(m[a])};
    } else {
      assert signatures == {};
    }
  }

  // ---------- latency ----------

  predicate LessReal(x: real, y: real) { x < y }

  lemma {:induction false} CountConcat(s: seq<real>, t: seq<real>, limit: real)
    ensures CountAbove(s + t, limit) == CountAbove(s, limit) + CountAbove(t, limit)
    decreases |t|
  {
    if t == [] {
      assert s + t == s;
    } else {
      assert (s + t)[..|s + t| - 1] == s + t[..|t| - 1];
      CountConcat(s, t[..|t| - 1], limit);
    }
  }

  lemma {:induction false} CountSorted(s: seq<real>, limit: real)
    ensures CountAbove(InsertAll(s, LessReal), limit) == CountAbove(s, limit)
    decreases |s|
  {
    if s != [] {
      var r, x := InsertAll(s[..|s| - 1], LessReal), s[|s| - 1];
      CountSorted(s[..|s| - 1], limit);
      var p := InsertSplit(r, x, LessReal);
      assert r == r[..p] + r[p..];
      CountConcat(r[..p], r[p..], limit);
      CountConcat(r[..p], [x], limit);
      CountConcat(r[..p] + [x], r[p..], limit);
    }
  }

  lemma {:induction false} CountAtMost(s: seq<real>, limit: real)
    ensures CountAbove(s, limit) <= |s|
    decreases |s|
  {
    if s != [] {
      CountAtMost(s[..|s| - 1], limit);
    }
  }

  lemma {:induction false} CountAllAbove(s: seq<real>, limit: real)
    requires forall i :: 0 <= i < |s| ==> s[i] > limit
    ensures CountAbove(s, limit) == |s|
    decreases |s|
  {
    if s != [] {
      CountAllAbove(s[..|s| - 1], limit);
    }
  }

  lemma {:induction false} CountNoneAbove(s: seq<real>, limit: real)
    requires forall i :: 0 <= i < |s| ==> s[i] <= limit
    ensures CountAbove(s, limit) == 0
    decreases |s|
  {
    if s != [] {
      CountNoneAbove(s[..|s| - 1], limit);
    }
  }

  lemma CountAscending(t: seq<real>, k: nat, limit: real)
    requires k < |t| && forall i, j :: 0 <= i < j < |t| ==> t[i] <= t[j]
    ensures t[k] > limit <==> CountAbove(t, limit) >= |t| - k
  {
    hide CountAbove;
    if t[k] > limit {
      assert t == t[..k] + t[k..];
      CountConcat(t[..k], t[k..], limit);
      CountAllAbove(t[k..], limit);
    } else {
      assert t == t[..k + 1] + t[k + 1..];
      CountConcat(t[..k + 1], t[k + 1..], limit);
      CountNoneAbove(t[..k + 1], limit);
      CountAtMost(t[k + 1..], limit);
    }
  }

  /** The k-th smallest sample exceeds the limit exactly when at least n - k samples do. */
  lemma OrderStatistic(s: seq<real>, k: nat, limit: real)
    requires k < |s|
    ensures |InsertAll(s, LessReal)| == |s|
    ensures InsertAll(s, LessReal)[k] > limit <==> CountAbove(s, limit) >= |s| - k
  {
    InsertAllPermutes(s, LessReal);
    InsertAllSorts(s, LessReal);
    CountSorted(s, limit);
    var t := InsertAll(s, LessReal);
    hide InsertAll, CountAbove;
    forall i, j | 0 <= i < j < |t| ensures t[i] <= t[j] {
      assert !LessReal(t[j], t[i]);
    }
    CountAscending(t, k, limit);
  }

  method CheckLatency(o: Observation) returns (hit: bool)
    ensures hit <==> Slow(o)
  {
    hit := false;
    var n := |o.latencies|;
    if n >= 3 {
      var samples := new real[n](i requires 0 <= i < n => o.latencies[i]);
      assert samples[..] == o.latencies;
      InsertionPass(samples, LessReal);
      OrderStatistic(o.latencies, n * 95 / 100, 2000.0);
      var p95 := samples[n * 95 / 100];
      hit := p95 > 2000.0;
    }
  }

  // ---------- all verdicts ----------

  method CheckNsIps(glue: set<string>, ips: seq<string>) returns (hit: bool)
    ensures hit <==> glue != {} && ips != [] && forall ip :: ip in ips ==> NormName(ip) !in NormSet(glue)
  {
    hide NormName, NormSet;
    if glue == {} || ips == [] { return false; }
    var intersect := 0;
    for k := 0 to |ips|
      invariant intersect >= 0
      invariant intersect == 0 <==> forall i :: 0 <= i < k ==> NormName(ips[i]) !in NormSet(glue)
    {
      if NormName(ips[k]) in NormSet(glue) { intersect := intersect + 1; }
    }
    hit := intersect == 0;
  }

  method CheckDeletion(bs: seq<BaselineRow>, o: Observation, expectedKeys: set<string>, observedKeys: set<string>)
    returns (deleted: bool)
    requires expectedKeys == AnswerKeys(Records(bs)) && observedKeys == AnswerKeys(SetOf(o.records))
    ensures deleted <==> RecordDeleted(bs, o)
    ensures NoBarInNames(bs, o) ==> (deleted <==> RecordMissing(bs, o))
  {
    EmptyBaseline();
    if NoBarInNames(bs, o) { DeletionMeans(bs, o); }
    hide AnswerKeys, RecordMissing, NoBarInNames;
    deleted := bs != [] && exists key :: key in expectedKeys && key !in observedKeys;
  }

  /** The verdicts in their fixed order. */
  method Evaluate(host: Host, bs: seq<BaselineRow>, o: Observation, ipClass: string -> IpClass)
    returns (verdicts: seq<Verdict>)
    ensures verdicts == [
      Verdict("unreach", Unreachable(bs, o)),
      Verdict("no_service", NoService(bs, o)),
      Verdict("refused", o.rcode == "REFUSED"),
      Verdict("empty_answer", AnswerEmpty(host, bs, o)),
      Verdict("record_deletion", RecordDeleted(bs, o)),
      Verdict("resolution_path_anomaly", o.traceBroken),
      Verdict("latency_distribution_anomaly", Slow(o)),
      Verdict("route_path_anomaly", false),
      Verdict("ns_ip_hijack", NsIpHijacked(bs, o)),
      Verdict("ns_name_hijack", NsNameHijacked(bs, o)),
      Verdict("resolver_divergence", Diverged(o)),
      Verdict("wildcard_poisoning", !host.allowWildcard && o.wildcardHit),
      Verdict("dns_rebind", Rebound(host, bs, o, ipClass)),
      Verdict("axfr_exposed", !host.allowAxfr && o.axfrSuccess)]
    ensures NoBarInNames(bs, o) ==> verdicts[4] == Verdict("record_deletion", RecordMissing(bs, o))
  {
    hide RecordDeleted, RecordMissing, NoBarInNames, Slow, Diverged, Rebound, GlueIps, NsNames, PrimaryExpected, PrimaryObserved, AnswerKeys, NormSet;
    var hasBaseline := bs != [];
    var primary, expectedKeys, nsNames := ReadNames(bs);
    var glue := ReadGlue(bs, nsNames);
    var observed, observedKeys := ReadObserved(host.fqdn, o.records);
    EmptyBaseline();
    var deleted := CheckDeletion(bs, o, expectedKeys, observedKeys);
    var observedNs := NormSet(SetOf(o.nsNames));
    SetEqualRight(NormSet(nsNames), observedNs);
    var nsNameHit := hasBaseline && nsNames != {} && |observedNs| > 0 && !SetEqual(NormSet(nsNames), observedNs);
    var noGlueMatch := CheckNsIps(glue, o.glueIps);
    var nsIpHit := hasBaseline && noGlueMatch;
    var rebindHit := CheckRebind(host, bs, primary, o, ipClass);
    var divergenceHit := CheckDivergence(o);
    var latencyHit := CheckLatency(o);
    verdicts := [
      Verdict("unreach", primary != {} && o.errorKind == "timeout"),
      Verdict("no_service", primary != {} && (o.errorKind == "servfail" || o.errorKind == "connection_refused")),
      Verdict("refused", o.rcode == "REFUSED"),
      Verdict("empty_answer", primary != {} && o.rcode == "NOERROR" && observed == {}),
      Verdict("record_deletion", deleted),
      Verdict("resolution_path_anomaly", o.traceBroken),
      Verdict("latency_distribution_anomaly", latencyHit),
      Verdict("route_path_anomaly", false),
      Verdict("ns_ip_hijack", nsIpHit),
      Verdict("ns_name_hijack", nsNameHit),
      Verdict("resolver_divergence", divergenceHit),
      Verdict("wildcard_poisoning", !host.allowWildcard && o.wildcardHit),
      Verdict("dns_rebind", rebindHit),
      Verdict("axfr_exposed", !host.allowAxfr && o.axfrSuccess)];
  }

  /** Without a baseline nothing is expected. */
  lemma EmptyBaseline()
    ensures AnswerKeys(Records([])) == NsNames(Records([])) == GlueIps(Records([])) == {}
  {
  }
}
