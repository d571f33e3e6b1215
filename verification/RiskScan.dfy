/** What a scan extracts from the rows it observes (scanHost of internal/service/scanner.go), and what the risk
    engine concludes when these are the rows that were just approved. */
module RiskScan {
  import opened RiskEngine
  import opened Text
  import opened TrustRecords
  import opened Wrappers
  import TrustReview

  // ---------- extraction ----------

  predicate NsAt(zone: string, r: Record) { r.rrtype == "NS" && At(r, zone) }

  predicate AnswerAt(fqdn: string, r: Record) { IsAddress(r) && r.section == "answer" && At(r, fqdn) }

  predicate IsGlue(r: Record) { IsAddress(r) && r.section == "additional" }

  function NsSeen(zone: string, rs: set<Record>): set<string> { set r | r in rs && NsAt(zone, r) :: Trim(r.value, IsDot) }

  function IpsSeen(fqdn: string, rs: set<Record>): set<string> { set r | r in rs && AnswerAt(fqdn, r) :: r.value }

  function GlueSeen(rs: set<Record>): set<string> { set r | r in rs && IsGlue(r) :: r.value }

  /** A list that names each member of the set once. */
  ghost predicate Lists(s: seq<string>, members: set<string>) {
    SetOf(s) == members && forall i, j :: 0 <= i < j < |s| ==> s[i] != s[j]
  }

  method AppendUnique(s: seq<string>, v: string, ghost members: set<string>) returns (t: seq<string>)
    requires Lists(s, members)
    ensures Lists(t, members + {v})
  {
    for k := 0 to |s|
      invariant forall i :: 0 <= i < k ==> s[i] != v
    {
      if s[k] == v {
        assert v in SetOf(s);
        assert members + {v} == members;
        return s;
      }
    }
    t := s + [v];
    assert SetOf(t) == SetOf(s) + {v};
  }

  method Extract(zone: string, fqdn: string, rows: seq<Record>)
    returns (nsNames: seq<string>, uniqueIps: seq<string>, glueIps: seq<string>)
    ensures Lists(nsNames, NsSeen(zone, SetOf(rows)))
    ensures Lists(uniqueIps, IpsSeen(fqdn, SetOf(rows)))
    ensures Lists(glueIps, GlueSeen(SetOf(rows)))
  {
    hide NormName, Lists, Trim, NsSeen, IpsSeen, GlueSeen, SetOf;
    nsNames, uniqueIps, glueIps := [], [], [];
    NothingSeen(zone, fqdn, rows);
    for k := 0 to |rows|
      invariant Lists(nsNames, NsSeen(zone, SetOf(rows[..k])))
      invariant Lists(uniqueIps, IpsSeen(fqdn, SetOf(rows[..k])))
      invariant Lists(glueIps, GlueSeen(SetOf(rows[..k])))
    {
      var r := rows[k];
      ghost var seen := SetOf(rows[..k]);
      SeenNext(zone, fqdn, rows, k);
      if r.rrtype == "NS" && NormName(r.name) == NormName(zone) {
        nsNames := AppendUnique(nsNames, Trim(r.value, IsDot), NsSeen(zone, seen));
      } else if (r.rrtype == "A" || r.rrtype == "AAAA") && r.section == "answer" && NormName(r.name) == NormName(fqdn) {
        uniqueIps := AppendUnique(uniqueIps, r.value, IpsSeen(fqdn, seen));
      } else if (r.rrtype == "A" || r.rrtype == "AAAA") && r.section == "additional" {
        glueIps := AppendUnique(glueIps, r.value, GlueSeen(seen));
      }
    }
    assert rows[..|rows|] == rows;
  }

  lemma NothingSeen(zone: string, fqdn: string, rows: seq<Record>)
    ensures Lists([], NsSeen(zone, SetOf(rows[..0])))
    ensures Lists([], IpsSeen(fqdn, SetOf(rows[..0])))
    ensures Lists([], GlueSeen(SetOf(rows[..0])))
  {
  }

  lemma SeenNext(zone: string, fqdn: string, rows: seq<Record>, k: nat)
    requires k < |rows|
    ensures var r, before, after := rows[k], SetOf(rows[..k]), SetOf(rows[..k + 1]);
      && NsSeen(zone, after)
         == (if NsAt(zone, r) then NsSeen(zone, before) + {Trim(r.value, IsDot)} else NsSeen(zone, before))
      && IpsSeen(fqdn, after) == (if AnswerAt(fqdn, r) then IpsSeen(fqdn, before) + {r.value} else IpsSeen(fqdn, before))
      && GlueSeen(after) == (if IsGlue(r) then GlueSeen(before) + {r.value} else GlueSeen(before))
  {
    hide NormName, Trim;
    assert rows[..k + 1] == rows[..k] + [rows[k]];
    assert SetOf(rows[..k + 1]) == SetOf(rows[..k]) + {rows[k]};
  }

  /** The lists in an observation are those extracted from its rows. */
  ghost predicate Observes(o: Observation, zone: string, fqdn: string) {
    var rs := SetOf(o.records);
    Lists(o.nsNames, NsSeen(zone, rs)) && Lists(o.uniqueIps, IpsSeen(fqdn, rs)) && Lists(o.glueIps, GlueSeen(rs))
  }

  /** The baseline an approval leaves: the approved records, with both bounds at the record's TTL. */
  ghost predicate Mirrors(bs: seq<BaselineRow>, rs: set<Record>) {
    Records(bs) == rs && forall b :: b in bs ==> b.ttlMin == b.ttlMax == b.record.ttl
  }

  // ---------- the verdicts on unchanged rows ----------

  /** Whatever the rows are, none counts as deleted. */
  lemma NothingDeleted(bs: seq<BaselineRow>, o: Observation)
    requires Mirrors(bs, SetOf(o.records))
    ensures !RecordDeleted(bs, o)
  {
  }

  /** The answer counts as empty exactly when some answer is a primary record but none at the host itself. */
  lemma EmptyAnswerExactly(host: Host, bs: seq<BaselineRow>, o: Observation)
    requires Mirrors(bs, SetOf(o.records))
    ensures AnswerEmpty(host, bs, o) <==>
      && o.rcode == "NOERROR"
      && (exists r :: r in o.records && IsPrimary(r))
      && (forall r :: r in o.records && IsPrimary(r) ==> !At(r, host.fqdn))
  {
    hide NormName;
    var rs := SetOf(o.records);
    forall r | r in rs && IsPrimary(r) ensures r.value in PrimaryExpected(rs) {}
    forall r | r in rs && IsPrimary(r) && At(r, host.fqdn) ensures r.value in PrimaryObserved(host.fqdn, rs) {}
  }

  /** The observed names are the baseline's without the empty one, when all NS rows belong to the zone. */
  lemma ObservedNames(zone: string, rs: set<Record>)
    requires forall r :: r in rs && r.rrtype == "NS" ==> At(r, zone)
    ensures NormSet(NsSeen(zone, rs)) == NsNames(rs) - {""}
  {
    hide NormName, Trim;
    var seen := NsSeen(zone, rs);
    forall n | n in NormSet(seen) ensures n in NsNames(rs) - {""} {
      var t :| t in seen && NormName(t) == n != "";
      var r :| r in rs && NsAt(zone, r) && Trim(r.value, IsDot) == t;
      assert NsName(r) in NsNames(rs);
    }
    forall n | n in NsNames(rs) - {""} ensures n in NormSet(seen) {
      var r :| r in rs && r.rrtype == "NS" && NsName(r) == n;
      assert Trim(r.value, IsDot) in seen;
    }
  }

  /** With all NS rows in the zone, the names read as hijacked exactly when some name is not empty and
      normalising the names once more changes their set: the baseline's names are normalised twice, the
      observed ones once. */
  lemma NsNamesExactly(bs: seq<BaselineRow>, o: Observation, zone: string, fqdn: string)
    requires Mirrors(bs, SetOf(o.records)) && Observes(o, zone, fqdn)
    requires forall r :: r in o.records && r.rrtype == "NS" ==> At(r, zone)
    ensures var names := NsNames(SetOf(o.records));
      NsNameHijacked(bs, o) <==> names - {""} != {} && NormSet(names) != names - {""}
  {
    hide NormName, Trim, Lists, NsNames, NormSet;
    var rs := SetOf(o.records);
    assert SetOf(o.nsNames) == NsSeen(zone, rs) by { ListedSet(o.nsNames, NsSeen(zone, rs)); }
    ObservedNames(zone, rs);
  }

  /** So no name-server change is seen when all NS rows belong to the zone and hold no white space. */
  lemma NsNamesKept(bs: seq<BaselineRow>, o: Observation, zone: string, fqdn: string)
    requires Mirrors(bs, SetOf(o.records)) && Observes(o, zone, fqdn)
    requires forall r :: r in o.records && r.rrtype == "NS" ==> At(r, zone) && NoSpace(r.value)
    ensures !NsNameHijacked(bs, o)
  {
    hide NormName, Trim, Lists, NoSpace, NsNameHijacked;
    NsNamesExactly(bs, o, zone, fqdn);
    var rs := SetOf(o.records);
    forall r | r in rs && r.rrtype == "NS" ensures NormName(NsName(r)) == NsName(r) {
      NsNameOnce(r);
    }
    assert NormSet(NsNames(rs)) == NsNames(rs) - {""};
  }

  lemma ListedSet(s: seq<string>, members: set<string>)
    requires Lists(s, members)
    ensures SetOf(s) == members
  {
  }

  lemma NsNameOnce(r: Record)
    requires NoSpace(r.value)
    ensures NormName(NsName(r)) == NsName(r)
  {
    hide NormName;
    var t := Trim(r.value, IsDot);
    assert NoSpace(t);
    NormIdempotent(t);
  }

  /** No name-server address counts as moved when addresses are not empty and those in the additional section
      belong to name servers. */
  lemma NsIpsKept(bs: seq<BaselineRow>, o: Observation, zone: string, fqdn: string)
    requires Mirrors(bs, SetOf(o.records)) && Observes(o, zone, fqdn)
    requires forall r :: r in o.records && IsGlue(r) ==> NormName(r.value) != "" && NormName(r.name) in NsNames(SetOf(o.records))
    ensures !NsIpHijacked(bs, o)
  {
    hide NormName, NsNames, Lists;
    var rs := SetOf(o.records);
    assert SetOf(o.glueIps) == GlueSeen(rs) by { ListedSet(o.glueIps, GlueSeen(rs)); }
    if o.glueIps != [] {
      var ip := o.glueIps[0];
      assert ip in SetOf(o.glueIps);
      var r :| r in rs && IsGlue(r) && r.value == ip;
      assert ip in GlueIps(rs);
      assert NormName(ip) in NormSet(GlueIps(rs));
    }
  }

  lemma ManyMeansTwo(ips: seq<string>, ipClass: string -> IpClass)
    requires MultiClass(ips, ipClass)
    ensures |ips| > 1
  {
    var a, b :| a in ips && b in ips && ipClass(a) != ipClass(b);
    var i :| 0 <= i < |ips| && ips[i] == a;
    var j :| 0 <= j < |ips| && ips[j] == b;
  }

  lemma OnBaseline(host: Host, bs: seq<BaselineRow>, o: Observation, zone: string)
    requires Mirrors(bs, SetOf(o.records)) && Observes(o, zone, host.fqdn)
    requires forall r :: r in o.records && AnswerAt(host.fqdn, r) ==> NormName(r.value) != ""
    ensures !OffBaseline(bs, o.uniqueIps)
  {
    hide NormName, Lists;
    var rs := SetOf(o.records);
    assert SetOf(o.uniqueIps) == IpsSeen(host.fqdn, rs) by { ListedSet(o.uniqueIps, IpsSeen(host.fqdn, rs)); }
    forall ip | ip in o.uniqueIps ensures NormName(ip) in NormSet(PrimaryExpected(Records(bs))) {
      assert ip in SetOf(o.uniqueIps);
      var r :| r in rs && AnswerAt(host.fqdn, r) && r.value == ip;
      assert ip in PrimaryExpected(rs);
    }
  }

  /** A rebinding verdict needs addresses of more than one class, and that suffices unless it is allowed. */
  lemma ReboundExactly(host: Host, bs: seq<BaselineRow>, o: Observation, zone: string, ipClass: string -> IpClass)
    requires Mirrors(bs, SetOf(o.records)) && Observes(o, zone, host.fqdn)
    requires forall r :: r in o.records && AnswerAt(host.fqdn, r) ==> NormName(r.value) != ""
    ensures Rebound(host, bs, o, ipClass) <==> !host.allowRebind && MultiClass(o.uniqueIps, ipClass)
  {
    OnBaseline(host, bs, o, zone);
    TtlsKept(host, bs, o);
    hide MultiClass, OffBaseline, TtlOut, Mirrors, Observes;
    if MultiClass(o.uniqueIps, ipClass) {
      ManyMeansTwo(o.uniqueIps, ipClass);
    }
  }

  lemma TtlsKept(host: Host, bs: seq<BaselineRow>, o: Observation)
    requires Mirrors(bs, SetOf(o.records))
    ensures !TtlOut(host, bs, o.records)
  {
    hide NormName;
    forall r | r in o.records && r.section == "answer" && r.rrtype == "A" && r.ttl.Some?
      ensures !BelowAll(bs, r.ttl.value) && !AboveAll(bs, r.ttl.value)
    {
      assert r in Records(bs);
      var b :| b in bs && b.record == r;
      assert AnswersAddress(b);
    }
  }

  // ---------- the whole way from approval to verdicts ----------

  /** Rows as the scanner's rules expect them: NS rows belong to the zone, additional addresses to name
      servers; name-server values hold no white space and addresses are not empty; and the host itself answers
      when anything does. */
  ghost predicate Regular(rows: seq<Record>, zone: string, fqdn: string) {
    && (forall r :: r in rows && r.rrtype == "NS" ==> At(r, zone) && NoSpace(r.value))
    && (forall r :: r in rows && IsAddress(r) ==> NormName(r.value) != "")
    && (forall r :: r in rows && IsGlue(r) ==> NormName(r.name) in NsNames(SetOf(rows)))
    && ((exists r :: r in rows && IsPrimary(r)) ==> exists r :: r in rows && IsPrimary(r) && At(r, fqdn))
  }

  function AsBaseline(bs: seq<TrustReview.Baseline>): seq<BaselineRow> {
    seq(|bs|, i requires 0 <= i < |bs| => BaselineRow(bs[i].record, bs[i].record.ttl, bs[i].record.ttl))
  }

  lemma RebuiltMirrors(hash: TrustReview.Hash, h: nat, records: seq<Record>)
    ensures Mirrors(AsBaseline(TrustReview.Rebuilt(hash, h, records)), SetOf(records))
  {
    var bs := AsBaseline(TrustReview.Rebuilt(hash, h, records));
    forall r | r in records ensures r in Records(bs) {
      var i :| 0 <= i < |records| && records[i] == r;
      assert bs[i] in bs;
    }
  }

  lemma ApprovedBaseline(hash: TrustReview.Hash, db: TrustReview.Library, h: nat, b: nat, d: TrustReview.Decision)
    requires d.approve && TrustReview.ReviewHostCandidates(hash, db, h, b, d).1 == None
    ensures TrustReview.BaselinesOf(TrustReview.ReviewHostCandidates(hash, db, h, b, d).0, h)
         == TrustReview.Rebuilt(hash, h, TrustReview.DraftRecords(db.rows, b, h))
  {
    hide TrustReview.DraftRecords, TrustReview.Rebuilt, TrustReview.KeysUnique, TrustReview.Derived, TrustReview.Marked;
  }

  /** Approve a batch for a host, then scan the host and observe exactly the approved records: no record counts
      as deleted, the answer is not empty, neither names nor addresses of its name servers count as hijacked,
      and rebinding is reported only for addresses of different classes. */
  lemma ApprovedScanIsQuiet(hash: TrustReview.Hash, db: TrustReview.Library, h: nat, b: nat, d: TrustReview.Decision,
                            host: Host, zone: string, o: Observation, ipClass: string -> IpClass)
    requires d.approve && TrustReview.ReviewHostCandidates(hash, db, h, b, d).1 == None
    requires SetOf(o.records) == SetOf(TrustReview.DraftRecords(db.rows, b, h))
    requires Observes(o, zone, host.fqdn) && Regular(o.records, zone, host.fqdn)
    ensures var bs := AsBaseline(TrustReview.BaselinesOf(TrustReview.ReviewHostCandidates(hash, db, h, b, d).0, h));
      && !RecordDeleted(bs, o) && !AnswerEmpty(host, bs, o) && !NsIpHijacked(bs, o) && !NsNameHijacked(bs, o)
      && (Rebound(host, bs, o, ipClass) <==> !host.allowRebind && MultiClass(o.uniqueIps, ipClass))
  {
    hide *;
    var records := TrustReview.DraftRecords(db.rows, b, h);
    var bs := AsBaseline(TrustReview.BaselinesOf(TrustReview.ReviewHostCandidates(hash, db, h, b, d).0, h));
    ApprovedBaseline(hash, db, h, b, d);
    RebuiltMirrors(hash, h, records);
    RegularGives(o.records, zone, host.fqdn);
    NothingDeleted(bs, o);
    EmptyAnswerExactly(host, bs, o);
    NsNamesKept(bs, o, zone, host.fqdn);
    NsIpsKept(bs, o, zone, host.fqdn);
    ReboundExactly(host, bs, o, zone, ipClass);
  }

  lemma RegularGives(rows: seq<Record>, zone: string, fqdn: string)
    requires Regular(rows, zone, fqdn)
    ensures forall r :: r in rows && r.rrtype == "NS" ==> At(r, zone) && NoSpace(r.value)
    ensures forall r :: r in rows && AnswerAt(fqdn, r) ==> NormName(r.value) != ""
    ensures forall r :: r in rows && IsGlue(r) ==> NormName(r.value) != "" && NormName(r.name) in NsNames(SetOf(rows))
    ensures (exists r :: r in rows && IsPrimary(r)) ==> exists r :: r in rows && IsPrimary(r) && At(r, fqdn)
  {
    hide NormName, NoSpace, NsNames;
  }

  /** White space in a name-server value breaks it: this one row, approved and observed, reads as a hijack. */
  lemma SpacedNameReadsAsHijack(zone: string, fqdn: string, o: Observation, bs: seq<BaselineRow>)
    requires o.records == [Record("answer", zone, "NS", ". . a", None)]
    requires Mirrors(bs, SetOf(o.records)) && Observes(o, zone, fqdn)
    ensures NsNameHijacked(bs, o)
  {
    hide NormName, Trim, Lists, NsNameHijacked, Mirrors;
    SpacedName();
    var r := o.records[0];
    NsNamesExactly(bs, o, zone, fqdn);
    assert SetOf(o.records) == {r};
    var names := NsNames({r});
    assert NsName(r) == " a" && names == {" a"};
    assert |" a"| == 2 && |"a"| == 1;
    assert " a" in names - {""};
    assert forall n :: n in NormSet(names) ==> n == "a";
    assert " a" !in NormSet(names);
  }

  lemma SpacedName()
    ensures Trim(". . a", IsDot) == " . a" && NormName(" . a") == " a" && NormName(" a") == "a"
  {
    SpacedTrim();
    SpacedNorm();
    hide Trim;
    SpacedNormAgain();
  }

  lemma SpacedTrim()
    ensures Trim(". . a", IsDot) == " . a"
  {
    assert ". . a"[1..] == " . a";
    assert TrimLeft(". . a", IsDot) == " . a" && TrimRight(" . a", IsDot) == " . a";
  }

  lemma SpacedNorm()
    ensures NormName(" . a") == " a"
  {
    assert " . a"[1..] == ". a" && ". a"[1..] == " a";
    assert TrimLeft(" . a", IsSpace) == ". a" && TrimRight(". a", IsSpace) == ". a";
    assert TrimLeft(". a", IsDot) == " a" && TrimRight(" a", IsDot) == " a";
    assert ToLower(" a") == " a";
  }

  lemma SpacedNormAgain()
    ensures NormName(" a") == "a"
  {
    assert " a"[1..] == "a";
    assert TrimLeft(" a", IsSpace) == "a" && TrimRight("a", IsSpace) == "a";
    assert Trim("a", IsDot) == "a" && ToLower("a") == "a";
  }
}
