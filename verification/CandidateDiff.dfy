/** BuildHostCandidates of internal/service/trust_reporting.go: how every batch of a host differs from the
    host's baseline. */
module CandidateDiff {
  import opened Text
  import opened TrustRecords
  import opened Wrappers
  import TrustReview

  datatype Diff = Added | Changed | Unchanged

  datatype Entry = Entry(record: Record, diff: Diff)

  /** A candidate record with its batch. */
  datatype Candidate = Candidate(batchId: nat, record: Record)

  /** One batch: its records with their classes, and the baseline records it lacks, by key. */
  datatype Group = Group(batchId: nat, entries: seq<Entry>, removed: map<string, Record>)

  // ---------- what a report says ----------

  /** The baseline by exact key; of records with one key the last. */
  function ByExactKey(baseline: seq<Record>): map<string, Record> {
    if baseline == [] then map[]
    else
      var last := baseline[|baseline| - 1];
      ByExactKey(baseline[..|baseline| - 1])[ExactKey(last) := last]
  }

  function ExactKeys(records: seq<Record>): set<string> { set r | r in records :: ExactKey(r) }

  function GroupKeys(records: seq<Record>): set<string> { set r | r in records :: GroupKey(r) }

  function Classify(baseline: seq<Record>, r: Record): Diff {
    if ExactKey(r) in ExactKeys(baseline) then Unchanged
    else if GroupKey(r) in GroupKeys(baseline) then Changed
    else Added
  }

  function Entries(baseline: seq<Record>, records: seq<Record>): seq<Entry> {
    seq(|records|, i requires 0 <= i < |records| => Entry(records[i], Classify(baseline, records[i])))
  }

  function OfBatch(candidates: seq<Candidate>, b: nat): seq<Record> {
    if candidates == [] then []
    else
      var before, last := OfBatch(candidates[..|candidates| - 1], b), candidates[|candidates| - 1];
      if last.batchId == b then before + [last.record] else before
  }

  ghost predicate IsDiff(baseline: seq<Record>, records: seq<Record>, g: Group) {
    && g.entries == Entries(baseline, records)
    && g.removed == ByExactKey(baseline) - ExactKeys(records)
  }

  lemma {:induction false} ByExactKeyKeys(baseline: seq<Record>)
    ensures ByExactKey(baseline).Keys == ExactKeys(baseline)
    ensures forall k :: k in ByExactKey(baseline) ==> ByExactKey(baseline)[k] in baseline && ExactKey(ByExactKey(baseline)[k]) == k
    decreases |baseline|
  {
    hide ExactKey;
    if baseline != [] {
      var before, last := baseline[..|baseline| - 1], baseline[|baseline| - 1];
      ByExactKeyKeys(before);
      assert forall r :: r in baseline <==> r in before || r == last;
      assert ExactKeys(baseline) == ExactKeys(before) + {ExactKey(last)};
    }
  }

  /** Of baseline records with one key the report names the last. */
  lemma {:induction false} LastOfKey(baseline: seq<Record>, i: nat)
    requires i < |baseline| && forall j :: i < j < |baseline| ==> ExactKey(baseline[j]) != ExactKey(baseline[i])
    ensures ExactKey(baseline[i]) in ByExactKey(baseline) && ByExactKey(baseline)[ExactKey(baseline[i])] == baseline[i]
    decreases |baseline|
  {
    hide ExactKey;
    if i < |baseline| - 1 {
      LastOfKey(baseline[..|baseline| - 1], i);
    }
  }

  // ---------- the report, built in loops ----------

  /** The groups built from some of the candidates: one per batch that occurs, holding its records in order. */
  ghost predicate Grouped(baseline: seq<Record>, candidates: seq<Candidate>, groups: seq<Group>, index: map<nat, nat>) {
    && (forall b :: b in index ==> index[b] < |groups| && groups[index[b]].batchId == b)
    && (forall i :: 0 <= i < |groups| ==> groups[i].batchId in index && index[groups[i].batchId] == i)
    && (forall b :: b in index <==> OfBatch(candidates, b) != [])
    && (forall i :: 0 <= i < |groups| ==> groups[i].entries == Entries(baseline, OfBatch(candidates, groups[i].batchId)))
  }

  lemma EntriesNext(baseline: seq<Record>, records: seq<Record>, r: Record)
    ensures Entries(baseline, records + [r]) == Entries(baseline, records) + [Entry(r, Classify(baseline, r))]
  {
    hide Classify;
  }

  lemma NothingIndexed(baseline: seq<Record>)
    ensures ByExactKey(baseline[..0]) == map[] && GroupKeys(baseline[..0]) == {}
  {
  }

  lemma IndexNext(baseline: seq<Record>, k: nat)
    requires k < |baseline|
    ensures ByExactKey(baseline[..k + 1]) == ByExactKey(baseline[..k])[ExactKey(baseline[k]) := baseline[k]]
    ensures GroupKeys(baseline[..k + 1]) == GroupKeys(baseline[..k]) + {GroupKey(baseline[k])}
  {
    hide ExactKey, GroupKey;
    assert baseline[..k + 1][..k] == baseline[..k];
    assert baseline[..k + 1] == baseline[..k] + [baseline[k]];
  }

  method IndexBaseline(baseline: seq<Record>) returns (exact: map<string, Record>, groups: set<string>)
    ensures exact == ByExactKey(baseline) && groups == GroupKeys(baseline)
  {
    hide ExactKey, GroupKey, ByExactKey, GroupKeys;
    exact, groups := map[], {};
    NothingIndexed(baseline);
    for k := 0 to |baseline|
      invariant exact == ByExactKey(baseline[..k])
      invariant groups == GroupKeys(baseline[..k])
    {
      IndexNext(baseline, k);
      exact := exact[ExactKey(baseline[k]) := baseline[k]];
      groups := groups + {GroupKey(baseline[k])};
    }
    assert baseline[..|baseline|] == baseline;
  }

  lemma FirstOfBatch(baseline: seq<Record>, candidates: seq<Candidate>, k: nat, groups: seq<Group>, index: map<nat, nat>)
    requires k < |candidates| && Grouped(baseline, candidates[..k], groups, index) && candidates[k].batchId !in index
    ensures var c := candidates[k];
      Grouped(baseline, candidates[..k + 1],
        groups + [Group(c.batchId, [Entry(c.record, Classify(baseline, c.record))], map[])], index[c.batchId := |groups|])
  {
    hide Classify;
    assert candidates[..k + 1][..k] == candidates[..k];
    var c := candidates[k];
    assert OfBatch(candidates[..k + 1], c.batchId) == [c.record];
    assert Entries(baseline, [c.record]) == [Entry(c.record, Classify(baseline, c.record))];
    hide Entries;
  }

  lemma NextOfBatch(baseline: seq<Record>, candidates: seq<Candidate>, k: nat, groups: seq<Group>, index: map<nat, nat>)
    requires k < |candidates| && Grouped(baseline, candidates[..k], groups, index) && candidates[k].batchId in index
    ensures index[candidates[k].batchId] < |groups|
    ensures var c, i := candidates[k], index[candidates[k].batchId];
      Grouped(baseline, candidates[..k + 1],
        groups[i := groups[i].(entries := groups[i].entries + [Entry(c.record, Classify(baseline, c.record))])], index)
  {
    hide Classify, Entries;
    assert candidates[..k + 1][..k] == candidates[..k];
    var c := candidates[k];
    EntriesNext(baseline, OfBatch(candidates[..k], c.batchId), c.record);
  }

  method GroupCandidates(baseline: seq<Record>, candidates: seq<Candidate>)
    returns (groups: seq<Group>)
    ensures exists index :: Grouped(baseline, candidates, groups, index)
  {
    hide ExactKey, GroupKey, Classify, Entries, ByExactKey;
    var exact, groupKeys := IndexBaseline(baseline);
    ByExactKeyKeys(baseline);
    groups := [];
    var groupIndex: map<nat, nat> := map[];
    for k := 0 to |candidates|
      invariant Grouped(baseline, candidates[..k], groups, groupIndex)
    {
      var c := candidates[k];
      var diff := Added;
      if ExactKey(c.record) in exact { diff := Unchanged; }
      else if GroupKey(c.record) in groupKeys { diff := Changed; }
      Classified(baseline, c.record, exact, groupKeys);
      if c.batchId !in groupIndex {
        FirstOfBatch(baseline, candidates, k, groups, groupIndex);
        groupIndex := groupIndex[c.batchId := |groups|];
        groups := groups + [Group(c.batchId, [Entry(c.record, diff)], map[])];
      } else {
        NextOfBatch(baseline, candidates, k, groups, groupIndex);
        var i := groupIndex[c.batchId];
        groups := groups[i := groups[i].(entries := groups[i].entries + [Entry(c.record, diff)])];
      }
    }
    assert candidates[..|candidates|] == candidates;
  }

  lemma Classified(baseline: seq<Record>, r: Record, exact: map<string, Record>, groups: set<string>)
    requires exact.Keys == ExactKeys(baseline) && groups == GroupKeys(baseline)
    ensures Classify(baseline, r)
         == if ExactKey(r) in exact then Unchanged else if GroupKey(r) in groups then Changed else Added
  {
  }

  /** One group per batch that has a candidate, each the batch's difference to the baseline. */
  method BuildHostCandidates(baseline: seq<Record>, candidates: seq<Candidate>) returns (groups: seq<Group>)
    ensures forall i, j :: 0 <= i < j < |groups| ==> groups[i].batchId != groups[j].batchId
    ensures forall b: nat :: OfBatch(candidates, b) != [] <==> exists i :: 0 <= i < |groups| && groups[i].batchId == b
    ensures forall i :: 0 <= i < |groups| ==> IsDiff(baseline, OfBatch(candidates, groups[i].batchId), groups[i])
  {
    hide ExactKey, GroupKey, Entries, Classify, ByExactKey;
    var exact, groupKeys := IndexBaseline(baseline);
    groups := GroupCandidates(baseline, candidates);
    ghost var index :| Grouped(baseline, candidates, groups, index);
    ghost var grouped := groups;
    for k := 0 to |groups|
      invariant |groups| == |grouped|
      invariant forall i :: 0 <= i < |groups| ==> groups[i].batchId == grouped[i].batchId && groups[i].entries == grouped[i].entries
      invariant forall i :: 0 <= i < k ==> IsDiff(baseline, OfBatch(candidates, groups[i].batchId), groups[i])
    {
      var keys := set e | e in groups[k].entries :: ExactKey(e.record);
      KeysOfEntries(baseline, OfBatch(candidates, groups[k].batchId));
      groups := groups[k := groups[k].(removed := exact - keys)];
    }
  }

  lemma KeysOfEntries(baseline: seq<Record>, records: seq<Record>)
    ensures (set e | e in Entries(baseline, records) :: ExactKey(e.record)) == ExactKeys(records)
  {
    hide Classify, ExactKey;
    var es := Entries(baseline, records);
    forall r | r in records ensures ExactKey(r) in (set e | e in es :: ExactKey(e.record)) {
      var i :| 0 <= i < |records| && records[i] == r;
      assert es[i] in es;
    }
  }

  // ---------- the patch law ----------

  function KeysWith(g: Group, diff: Diff): set<string> {
    set e | e in g.entries && e.diff == diff :: ExactKey(e.record)
  }

  lemma KeysByClass(baseline: seq<Record>, records: seq<Record>, g: Group)
    requires IsDiff(baseline, records, g)
    ensures KeysWith(g, Unchanged) == ExactKeys(records) * ExactKeys(baseline)
    ensures KeysWith(g, Added) + KeysWith(g, Changed) == ExactKeys(records) - ExactKeys(baseline)
    ensures KeysWith(g, Changed) == set r | r in records && ExactKey(r) !in ExactKeys(baseline) && GroupKey(r) in GroupKeys(baseline) :: ExactKey(r)
  {
    hide ExactKey, GroupKey;
    forall r | r in records ensures Entry(r, Classify(baseline, r)) in g.entries {
      var i :| 0 <= i < |records| && records[i] == r;
      assert g.entries[i] == Entry(r, Classify(baseline, r));
    }
    assert forall e :: e in g.entries ==> e.record in records && e.diff == Classify(baseline, e.record);
    assert forall d, k :: k in KeysWith(g, d) ==> exists e :: e in g.entries && e.diff == d && ExactKey(e.record) == k;
    forall k | k in ExactKeys(records) ensures exists d :: k in KeysWith(g, d) {
      var r :| r in records && ExactKey(r) == k;
      assert k in KeysWith(g, Classify(baseline, r));
    }
  }

  /** A batch's difference is a patch: take the removed keys off the baseline and put the added and changed
      ones on, and the batch's keys are there. The removed and the unchanged keys are disjoint from each other
      and from the others. */
  lemma DiffIsPatch(baseline: seq<Record>, records: seq<Record>, g: Group)
    requires IsDiff(baseline, records, g)
    ensures ExactKeys(baseline) - g.removed.Keys + (KeysWith(g, Added) + KeysWith(g, Changed)) == ExactKeys(records)
    ensures g.removed.Keys !! KeysWith(g, Unchanged)
    ensures (g.removed.Keys + KeysWith(g, Unchanged)) !! (KeysWith(g, Added) + KeysWith(g, Changed))
    ensures g.removed.Keys + KeysWith(g, Unchanged) == ExactKeys(baseline)
  {
    hide ExactKeys, KeysWith, Entries;
    KeysByClass(baseline, records, g);
    ByExactKeyKeys(baseline);
  }

  /** Added and changed keys are disjoint too when no field holds a separator. */
  lemma AddedIsNotChanged(baseline: seq<Record>, records: seq<Record>, g: Group)
    requires IsDiff(baseline, records, g)
    requires forall r :: r in records ==> Separable(r)
    ensures KeysWith(g, Added) !! KeysWith(g, Changed)
  {
    hide ExactKey, GroupKey;
    forall k | k in KeysWith(g, Added) && k in KeysWith(g, Changed) ensures false {
      var e :| e in g.entries && e.diff == Added && ExactKey(e.record) == k;
      var f :| f in g.entries && f.diff == Changed && ExactKey(f.record) == k;
      ExactKeyInjective(e.record, f.record);
    }
  }

  // ---------- the classes, without joined keys ----------

  predicate SameRecord(r: Record, s: Record) {
    SameGroup(r, s) && TrimSpace(r.value) == TrimSpace(s.value)
  }

  predicate SameGroup(r: Record, s: Record) {
    r.section == s.section && NormName(r.name) == NormName(s.name) && ToUpper(r.rrtype) == ToUpper(s.rrtype)
  }

  /** Without separators in the fields: unchanged is a record the baseline has, changed one it has only with
      other values, added one whose section, name and type it lacks. */
  lemma ClassesRight(baseline: seq<Record>, r: Record)
    requires Separable(r) && forall s :: s in baseline ==> Separable(s)
    ensures Classify(baseline, r) == Unchanged <==> exists s :: s in baseline && SameRecord(r, s)
    ensures Classify(baseline, r) == Added <==> forall s :: s in baseline ==> !SameGroup(r, s)
  {
    hide ExactKey, GroupKey, Separable, NormName, ToUpper, TrimSpace;
    forall s | s in baseline
      ensures ExactKey(r) == ExactKey(s) <==> SameRecord(r, s)
      ensures GroupKey(r) == GroupKey(s) <==> SameGroup(r, s)
    {
      ExactKeyInjective(r, s);
    }
  }

  /** A separator in a field lets two different records share their keys. */
  lemma SeparatorsCollide()
    ensures exists r: Record, s: Record :: r.section != s.section && NormName(r.name) != NormName(s.name) && ExactKey(r) == ExactKey(s)
  {
    var r, s := Record("a|", "", "A", "v", None), Record("a", "|", "A", "v", None);
    assert NormName("|") == "|" && NormName("") == "";
    assert GroupKey(r) == GroupKey(s);
    assert ExactKey(r) == ExactKey(s);
  }

  // ---------- after an approval ----------

  /** The candidates of one host. */
  function CandidatesOf(rows: seq<TrustReview.Row>, h: nat): seq<Candidate> {
    if rows == [] then []
    else
      var before, last := CandidatesOf(rows[..|rows| - 1], h), rows[|rows| - 1];
      if last.hostId == h then before + [Candidate(last.batchId, last.record)] else before
  }

  lemma {:induction false} InCandidatesOf(rows: seq<TrustReview.Row>, b: nat, h: nat, r: Record)
    ensures Candidate(b, r) in CandidatesOf(rows, h) <==> r in TrustReview.RecordsOf(rows, b, h)
    decreases |rows|
  {
    if rows != [] {
      InCandidatesOf(rows[..|rows| - 1], b, h, r);
    }
  }

  lemma {:induction false} InOfBatch(candidates: seq<Candidate>, b: nat, r: Record)
    ensures r in OfBatch(candidates, b) <==> Candidate(b, r) in candidates
    decreases |candidates|
  {
    if candidates != [] {
      var n := |candidates| - 1;
      InOfBatch(candidates[..n], b, r);
      assert candidates == candidates[..n] + [candidates[n]];
    }
  }

  /** What the report reads about host h: its baseline and its candidates, each in some order. */
  ghost predicate Reads(db: TrustReview.Library, h: nat, baseline: seq<Record>, candidates: seq<Candidate>) {
    && (forall r :: r in baseline <==> exists x :: x in TrustReview.BaselinesOf(db, h) && x.record == r)
    && (forall c :: c in candidates <==> c in CandidatesOf(db.rows, h))
  }

  /** A batch with the records of the baseline differs from it in nothing. */
  lemma SameIsClean(baseline: seq<Record>, records: seq<Record>, g: Group)
    requires IsDiff(baseline, records, g) && forall r :: r in baseline <==> r in records
    ensures g.removed == map[] && forall i :: 0 <= i < |g.entries| ==> g.entries[i].diff == Unchanged
  {
    hide ExactKey, GroupKey;
    ByExactKeyKeys(baseline);
    assert ExactKeys(baseline) == ExactKeys(records);
    forall i | 0 <= i < |g.entries| ensures g.entries[i].diff == Unchanged {
      assert records[i] in records;
    }
  }

  /** Whenever a baseline came from a batch, the report on that host shows that batch unchanged throughout,
      with nothing removed. */
  lemma SourceBatchIsClean(hash: TrustReview.Hash, db: TrustReview.Library, h: nat, b: nat, baseline: seq<Record>,
                           candidates: seq<Candidate>, g: Group)
    requires TrustReview.CameFrom(hash, db, h, b) && Reads(db, h, baseline, candidates)
    requires IsDiff(baseline, OfBatch(candidates, b), g)
    ensures g.removed == map[] && forall i :: 0 <= i < |g.entries| ==> g.entries[i].diff == Unchanged
  {
    hide IsDiff, TrustReview.RecordsOf, OfBatch, CandidatesOf;
    var rs, bs := TrustReview.RecordsOf(db.rows, b, h), TrustReview.BaselinesOf(db, h);
    forall r ensures r in baseline <==> r in OfBatch(candidates, b) {
      InCandidatesOf(db.rows, b, h, r);
      InOfBatch(candidates, b, r);
      if r in rs {
        var i :| 0 <= i < |rs| && rs[i] == r;
        assert bs[i] in bs;
      }
    }
    SameIsClean(baseline, OfBatch(candidates, b), g);
  }

  /** Right after approving batch b for host h the report on h shows every record of b unchanged and nothing
      removed. */
  lemma ApprovedBatchIsClean(hash: TrustReview.Hash, acts: seq<TrustReview.Action>, db: TrustReview.Library,
                             h: nat, b: nat, d: TrustReview.Decision, baseline: seq<Record>,
                             candidates: seq<Candidate>, g: Group)
    requires TrustReview.Injective(hash) && TrustReview.Runs(hash, TrustReview.Empty(), acts, db)
    requires d.approve && TrustReview.ReviewHostCandidates(hash, db, h, b, d).1 == None
    requires Reads(TrustReview.ReviewHostCandidates(hash, db, h, b, d).0, h, baseline, candidates)
    requires IsDiff(baseline, OfBatch(candidates, b), g)
    ensures g.removed == map[] && forall i :: 0 <= i < |g.entries| ==> g.entries[i].diff == Unchanged
  {
    TrustReview.RunKeeps(hash, TrustReview.Empty(), acts, db);
    ApprovalSource(hash, db, h, b, d);
    hide IsDiff, Reads, TrustReview.Inv, TrustReview.ReviewHostCandidates, TrustReview.CameFrom;
    SourceBatchIsClean(hash, TrustReview.ReviewHostCandidates(hash, db, h, b, d).0, h, b, baseline, candidates, g);
  }

  lemma ApprovalSource(hash: TrustReview.Hash, db: TrustReview.Library, h: nat, b: nat, d: TrustReview.Decision)
    requires TrustReview.OneStatus(db.rows)
    requires d.approve && TrustReview.ReviewHostCandidates(hash, db, h, b, d).1 == None
    ensures TrustReview.CameFrom(hash, TrustReview.ReviewHostCandidates(hash, db, h, b, d).0, h, b)
  {
    hide TrustReview.OneStatus, TrustReview.RecordsOf, TrustReview.Rebuilt, TrustReview.Derived, TrustReview.ReviewHost;
    TrustReview.ApprovedCameFrom(hash, db, h, b, d);
  }
}
