/** Discovery batches and their review (internal/service/trust.go): approving a host's candidates rebuilds its
    baseline under the unique key (host_id, rr_hash). One call is one step; a schedule is any sequence of calls. */
module TrustReview {
  import opened Text
  import opened TrustRecords
  import opened Wrappers
  import Discovery

  datatype Status = Draft | Approved | Rejected

  /** A candidate record. */
  datatype Row = Row(batchId: nat, hostId: nat, status: Status, record: Record, reviewedBy: Option<nat>)

  datatype Batch = Batch(status: Status, approvedBy: Option<nat>)

  datatype Host = Host(domainId: nat, trusted: bool)

  datatype Baseline = Baseline(record: Record, hash: string)

  /** Row ids are positions. `baselines` holds the baseline rows of a host. */
  datatype Library = Library(hosts: seq<Host>, batches: seq<Batch>, rows: seq<Row>, baselines: map<nat, seq<Baseline>>)

  datatype Decision = Decision(reviewedBy: Option<nat>, approve: bool)

  datatype Error = NoHost | NoBatch | NothingToReview | DuplicateKey

  /** SHA-256, of which only determinism and injectivity are used. */
  type Hash = string -> string

  ghost predicate Injective(hash: Hash) {
    forall a, b :: hash(a) == hash(b) ==> a == b
  }

  // ---------- queries ----------

  predicate Of(r: Row, b: nat, h: nat) { r.batchId == b && r.hostId == h }

  function RecordsOf(rows: seq<Row>, b: nat, h: nat): seq<Record> {
    if rows == [] then []
    else
      var last := rows[|rows| - 1];
      RecordsOf(rows[..|rows| - 1], b, h) + if Of(last, b, h) then [last.record] else []
  }

  function DraftRecords(rows: seq<Row>, b: nat, h: nat): seq<Record> {
    if rows == [] then []
    else
      var last := rows[|rows| - 1];
      DraftRecords(rows[..|rows| - 1], b, h) + if Of(last, b, h) && last.status == Draft then [last.record] else []
  }

  function BaselinesOf(db: Library, h: nat): seq<Baseline> {
    if h in db.baselines then db.baselines[h] else []
  }

  predicate Has(rows: seq<Row>, b: nat, status: Status) {
    exists i :: 0 <= i < |rows| && rows[i].batchId == b && rows[i].status == status
  }

  /** The status a batch should have: draft while a record waits (or there is none), else approved when any
      was. */
  function Derived(rows: seq<Row>, b: nat): Status {
    if Has(rows, b, Draft) then Draft
    else if Has(rows, b, Approved) then Approved
    else if Has(rows, b, Rejected) then Rejected
    else Draft
  }

  /** What a batch status says about the records: draft means that one waits for review or that there is none;
      approved that none waits and one was approved; rejected that there are records and all were rejected. */
  ghost predicate StatusSays(rows: seq<Row>, b: nat, status: Status) {
    && (status == Draft <==>
          || (forall i :: 0 <= i < |rows| ==> rows[i].batchId != b)
          || (exists i :: 0 <= i < |rows| && rows[i].batchId == b && rows[i].status == Draft))
    && (status == Approved <==>
          && (forall i :: 0 <= i < |rows| && rows[i].batchId == b ==> rows[i].status != Draft)
          && (exists i :: 0 <= i < |rows| && rows[i].batchId == b && rows[i].status == Approved))
    && (status == Rejected <==>
          && (exists i :: 0 <= i < |rows| && rows[i].batchId == b)
          && (forall i :: 0 <= i < |rows| && rows[i].batchId == b ==> rows[i].status == Rejected))
  }

  lemma DerivedSays(rows: seq<Row>, b: nat)
    ensures StatusSays(rows, b, Derived(rows, b))
  {
    forall i | 0 <= i < |rows| && rows[i].batchId == b ensures Has(rows, b, rows[i].status) {
    }
  }

  // ---------- operations ----------

  function Verdict(d: Decision): Status { if d.approve then Approved else Rejected }

  function Marked(rows: seq<Row>, b: nat, h: nat, d: Decision): seq<Row> {
    seq(|rows|, i requires 0 <= i < |rows| =>
      if Of(rows[i], b, h) && rows[i].status == Draft then rows[i].(status := Verdict(d), reviewedBy := d.reviewedBy)
      else rows[i])
  }

  function Rebuilt(hash: Hash, h: nat, records: seq<Record>): seq<Baseline> {
    seq(|records|, i requires 0 <= i < |records| => Baseline(records[i], hash(HashInput(h, records[i]))))
  }

  predicate KeysUnique(bs: seq<Baseline>) {
    forall i, j :: 0 <= i < j < |bs| ==> bs[i].hash != bs[j].hash
  }

  /** The review of one host without the batch refresh. A repeated key fails the insert after the old baseline
      rows have been deleted. */
  function ReviewHost(hash: Hash, db: Library, h: nat, b: nat, d: Decision): (Library, Option<Error>) {
    if h >= |db.hosts| then (db, Some(NoHost))
    else if b >= |db.batches| then (db, Some(NoBatch))
    else
      var records := DraftRecords(db.rows, b, h);
      var rebuilt := Rebuilt(hash, h, records);
      if records == [] then (db, Some(NothingToReview))
      else if !d.approve then (db.(rows := Marked(db.rows, b, h, d)), None)
      else if !KeysUnique(rebuilt) then (db.(baselines := db.baselines - {h}), Some(DuplicateKey))
      else (db.(baselines := db.baselines[h := rebuilt], hosts := db.hosts[h := db.hosts[h].(trusted := true)],
                rows := Marked(db.rows, b, h, d)), None)
  }

  function Refreshed(db: Library, b: nat, d: Decision): Library {
    if b >= |db.batches| then db
    else
      var status := Derived(db.rows, b);
      var batch := db.batches[b].(status := status);
      db.(batches := db.batches[b := if status == Approved && d.approve then batch.(approvedBy := d.reviewedBy) else batch])
  }

  function ReviewHostCandidates(hash: Hash, db: Library, h: nat, b: nat, d: Decision): (Library, Option<Error>) {
    var r := ReviewHost(hash, db, h, b, d);
    if r.1.Some? then r else (Refreshed(r.0, b, d), None)
  }

  /** Which hosts a bulk review covers; an empty list does not restrict. */
  datatype Scope = Scope(hostIds: set<nat>, domainIds: set<nat>)

  predicate InScope(db: Library, scope: Scope, h: nat)
    requires h < |db.hosts|
  {
    (scope.hostIds == {} || h in scope.hostIds) && (scope.domainIds == {} || db.hosts[h].domainId in scope.domainIds)
  }

  /** The hosts below n in scope with a draft record in the batch, ascending. */
  function Targets(db: Library, b: nat, scope: Scope, n: nat): seq<nat>
    requires n <= |db.hosts|
  {
    if n == 0 then []
    else
      var h := n - 1;
      Targets(db, b, scope, h) + if InScope(db, scope, h) && DraftRecords(db.rows, b, h) != [] then [h] else []
  }

  /** A host whose review fails is skipped. */
  function ReviewAll(hash: Hash, db: Library, b: nat, targets: seq<nat>, d: Decision): Library {
    if targets == [] then db
    else ReviewHost(hash, ReviewAll(hash, db, b, targets[..|targets| - 1], d), targets[|targets| - 1], b, d).0
  }

  function BulkReview(hash: Hash, db: Library, b: nat, scope: Scope, d: Decision): (Library, Option<Error>) {
    if b >= |db.batches| then (db, Some(NoBatch))
    else
      var targets := Targets(db, b, scope, |db.hosts|);
      if targets == [] then (db, Some(NothingToReview))
      else (Refreshed(ReviewAll(hash, db, b, targets, d), b, d), None)
  }

  // ---------- schedules ----------

  /** Discover and Import open a batch; an import's batch holds no records. Both may add hosts, untrusted. A
      host added by hand may be declared trusted. */
  datatype Action =
    | AddHost(host: Host)
    | Discover(found: seq<Discovery.Candidate>, newHosts: seq<Host>)
    | Import(newHosts: seq<Host>)
    | Review(h: nat, b: nat, d: Decision)
    | Bulk(b: nat, scope: Scope, d: Decision)

  /** What a discovery hands over: no two records share a key, and types are in upper case. */
  ghost predicate Fit(found: seq<Discovery.Candidate>, hosts: nat) {
    && Discovery.DistinctKeys(found)
    && forall i :: 0 <= i < |found| ==> found[i].hostId < hosts && IsUpper(found[i].record.rrtype)
  }

  ghost predicate Enabled(db: Library, a: Action) {
    match a
    case AddHost(_) => true
    case Discover(found, newHosts) =>
      Fit(found, |db.hosts| + |newHosts|) && forall i :: 0 <= i < |newHosts| ==> !newHosts[i].trusted
    case Import(newHosts) => forall i :: 0 <= i < |newHosts| ==> !newHosts[i].trusted
    case Review(_, _, _) => true
    case Bulk(_, _, _) => true
  }

  function NewRows(found: seq<Discovery.Candidate>, b: nat): seq<Row> {
    seq(|found|, i requires 0 <= i < |found| => Row(b, found[i].hostId, Draft, found[i].record, None))
  }

  function Opened(db: Library, found: seq<Discovery.Candidate>, newHosts: seq<Host>): Library {
    db.(hosts := db.hosts + newHosts, batches := db.batches + [Batch(Draft, None)],
        rows := db.rows + NewRows(found, |db.batches|))
  }

  function Apply(hash: Hash, db: Library, a: Action): Library {
    match a
    case AddHost(host) => db.(hosts := db.hosts + [host])
    case Discover(found, newHosts) => Opened(db, found, newHosts)
    case Import(newHosts) => Opened(db, [], newHosts)
    case Review(h, b, d) => ReviewHostCandidates(hash, db, h, b, d).0
    case Bulk(b, scope, d) => BulkReview(hash, db, b, scope, d).0
  }

  ghost predicate Runs(hash: Hash, s: Library, acts: seq<Action>, t: Library)
    decreases |acts|
  {
    if acts == [] then s == t
    else Enabled(s, acts[0]) && Runs(hash, Apply(hash, s, acts[0]), acts[1..], t)
  }

  function Empty(): Library { Library([], [], [], map[]) }

  /** What a discovery collects is fit to be a batch. */
  lemma DiscoveryIsFit(answers: Discovery.Answers, table: seq<Discovery.Host>, ids: seq<nat>)
    requires forall i, j :: 0 <= i < j < |ids| ==> ids[i] != ids[j]
    requires forall id :: id in ids ==> id < |table|
    requires forall h, r :: r in answers(h) ==> IsUpper(r.rrtype)
    ensures Fit(Discovery.AllCandidates(answers, table, ids), |table|)
  {
    hide Discovery.AllCandidates, Discovery.DistinctKeys, IsUpper;
    Discovery.AllCandidatesDistinct(answers, table, ids);
    var found := Discovery.AllCandidates(answers, table, ids);
    forall i | 0 <= i < |found| ensures found[i].hostId < |table| && IsUpper(found[i].record.rrtype) {
      assert found[i] in found;
      assert found[i].record in answers(table[found[i].hostId]);
    }
  }

  // ---------- what every sequence of calls keeps ----------

  ghost predicate Placed(db: Library) {
    && (forall i :: 0 <= i < |db.rows| ==>
          db.rows[i].batchId < |db.batches| && db.rows[i].hostId < |db.hosts| && IsUpper(db.rows[i].record.rrtype))
    && (forall h :: h in db.baselines ==> h < |db.hosts|)
  }

  /** Records of one batch and host share one status. */
  ghost predicate OneStatus(rows: seq<Row>) {
    forall i, j :: 0 <= i < j < |rows| && rows[i].batchId == rows[j].batchId && rows[i].hostId == rows[j].hostId
      ==> rows[i].status == rows[j].status
  }

  ghost predicate KeysApart(rows: seq<Row>) {
    forall i, j :: 0 <= i < j < |rows| && rows[i].batchId == rows[j].batchId && rows[i].hostId == rows[j].hostId
      ==> SeenKey(rows[i].hostId, rows[i].record) != SeenKey(rows[j].hostId, rows[j].record)
  }

  ghost predicate StatusDerived(db: Library) {
    forall b :: 0 <= b < |db.batches| ==> db.batches[b].status == Derived(db.rows, b)
  }

  /** The baseline of host h is what approving batch b made it, and the whole of batch b for h is approved. */
  ghost predicate CameFrom(hash: Hash, db: Library, h: nat, b: nat) {
    && BaselinesOf(db, h) == Rebuilt(hash, h, RecordsOf(db.rows, b, h))
    && b < |db.batches|
    && (exists i :: 0 <= i < |db.rows| && Of(db.rows[i], b, h))
    && (forall i :: 0 <= i < |db.rows| && Of(db.rows[i], b, h) ==> db.rows[i].status == Approved)
  }

  /** Some record of the host has been approved. */
  predicate EverApproved(rows: seq<Row>, h: nat) {
    exists i :: 0 <= i < |rows| && rows[i].hostId == h && rows[i].status == Approved
  }

  /** Once something was approved for a host it is trusted and its baseline is exactly one approved batch; until
      then it has no baseline. */
  ghost predicate Provenance(hash: Hash, db: Library) {
    forall h :: 0 <= h < |db.hosts| ==>
      if EverApproved(db.rows, h) then db.hosts[h].trusted && exists b :: CameFrom(hash, db, h, b)
      else BaselinesOf(db, h) == []
  }

  ghost predicate RecordsInv(hash: Hash, db: Library) {
    Placed(db) && OneStatus(db.rows) && KeysApart(db.rows) && Provenance(hash, db)
  }

  ghost predicate Inv(hash: Hash, db: Library) {
    RecordsInv(hash, db) && StatusDerived(db)
  }

  // ---------- records ----------

  lemma {:induction false} DraftsAreAll(rows: seq<Row>, b: nat, h: nat)
    requires OneStatus(rows)
    ensures DraftRecords(rows, b, h) != [] ==>
      && DraftRecords(rows, b, h) == RecordsOf(rows, b, h)
      && (exists i :: 0 <= i < |rows| && Of(rows[i], b, h))
      && (forall i :: 0 <= i < |rows| && Of(rows[i], b, h) ==> rows[i].status == Draft)
    ensures DraftRecords(rows, b, h) == [] ==>
      forall i :: 0 <= i < |rows| && Of(rows[i], b, h) ==> rows[i].status != Draft
    decreases |rows|
  {
    if rows != [] {
      var n := |rows| - 1;
      DraftsAreAll(rows[..n], b, h);
      if Of(rows[n], b, h) && rows[n].status == Draft && DraftRecords(rows[..n], b, h) == [] {
        NoRecords(rows[..n], b, h);
      }
    }
  }

  lemma {:induction false} NoRecords(rows: seq<Row>, b: nat, h: nat)
    requires forall i :: 0 <= i < |rows| ==> !Of(rows[i], b, h)
    ensures RecordsOf(rows, b, h) == []
    decreases |rows|
  {
    if rows != [] {
      NoRecords(rows[..|rows| - 1], b, h);
    }
  }

  lemma {:induction false} MarkingKeepsRecords(rows: seq<Row>, b: nat, h: nat, d: Decision, c: nat, g: nat)
    ensures RecordsOf(Marked(rows, b, h, d), c, g) == RecordsOf(rows, c, g)
    decreases |rows|
  {
    if rows != [] {
      var n := |rows| - 1;
      MarkingKeepsRecords(rows[..n], b, h, d, c, g);
      assert Marked(rows, b, h, d)[..n] == Marked(rows[..n], b, h, d);
    }
  }

  lemma {:induction false} NewRowsKeepRecords(rows: seq<Row>, more: seq<Row>, b: nat, h: nat)
    requires forall i :: 0 <= i < |more| ==> more[i].batchId != b
    ensures RecordsOf(rows + more, b, h) == RecordsOf(rows, b, h)
    decreases |more|
  {
    if more == [] {
      assert rows + more == rows;
    } else {
      var n := |more| - 1;
      assert (rows + more)[..|rows| + n] == rows + more[..n];
      NewRowsKeepRecords(rows, more[..n], b, h);
    }
  }

  ghost predicate KeysDiffer(h: nat, rs: seq<Record>) {
    forall i, j :: 0 <= i < j < |rs| ==> SeenKey(h, rs[i]) != SeenKey(h, rs[j])
  }

  /** The records of one batch and host have different keys. */
  lemma {:induction false} RecordKeysDiffer(rows: seq<Row>, b: nat, h: nat)
    requires KeysApart(rows)
    ensures KeysDiffer(h, RecordsOf(rows, b, h))
    ensures forall r :: r in RecordsOf(rows, b, h) ==> exists i :: 0 <= i < |rows| && Of(rows[i], b, h) && rows[i].record == r
    decreases |rows|
  {
    hide SeenKey;
    if rows != [] {
      var n := |rows| - 1;
      RecordKeysDiffer(rows[..n], b, h);
      var rs := RecordsOf(rows[..n], b, h);
      forall r | r in rs ensures exists i :: 0 <= i < n && Of(rows[i], b, h) && rows[i].record == r {
        var i :| 0 <= i < |rows[..n]| && Of(rows[..n][i], b, h) && rows[..n][i].record == r;
        assert rows[i] == rows[..n][i];
      }
      if Of(rows[n], b, h) {
        forall k | 0 <= k < |rs| ensures SeenKey(h, rs[k]) != SeenKey(h, rows[n].record) {
          assert rs[k] in rs;
          var i :| 0 <= i < n && Of(rows[i], b, h) && rows[i].record == rs[k];
        }
        assert KeysDiffer(h, rs + [rows[n].record]);
      }
    }
  }

  /** Approval never violates the unique key: the key the discovery deduplicated on separates what the hash
      separates. */
  lemma RebuildIsUnique(hash: Hash, db: Library, b: nat, h: nat)
    requires Injective(hash) && Placed(db) && KeysApart(db.rows)
    ensures KeysUnique(Rebuilt(hash, h, RecordsOf(db.rows, b, h)))
  {
    hide SeenKey, RecordsOf;
    RecordKeysDiffer(db.rows, b, h);
    var rs := RecordsOf(db.rows, b, h);
    forall k | 0 <= k < |rs| ensures HashInput(h, rs[k]) == SeenKey(h, rs[k]) {
      assert rs[k] in rs;
      var i :| 0 <= i < |db.rows| && Of(db.rows[i], b, h) && db.rows[i].record == rs[k];
    }
  }

  // ---------- one call ----------

  lemma MarkedKeeps(rows: seq<Row>, b: nat, h: nat, d: Decision)
    requires OneStatus(rows)
    ensures OneStatus(Marked(rows, b, h, d))
    ensures KeysApart(rows) ==> KeysApart(Marked(rows, b, h, d))
  {
    hide SeenKey;
  }

  lemma ApprovedCameFrom(hash: Hash, db: Library, h: nat, b: nat, d: Decision)
    requires OneStatus(db.rows) && d.approve && ReviewHost(hash, db, h, b, d).1 == None
    ensures CameFrom(hash, ReviewHost(hash, db, h, b, d).0, h, b)
  {
    DraftsAreAll(db.rows, b, h);
    MarkingKeepsRecords(db.rows, b, h, d, b, h);
    var t := ReviewHost(hash, db, h, b, d).0;
    hide RecordsOf, DraftRecords, Rebuilt, KeysUnique, OneStatus;
    var i :| 0 <= i < |db.rows| && Of(db.rows[i], b, h);
    assert Of(t.rows[i], b, h);
  }

  lemma CameFromStays(hash: Hash, db: Library, h: nat, b: nat, d: Decision, g: nat, c: nat)
    requires CameFrom(hash, db, g, c) && ReviewHost(hash, db, h, b, d).1 == None && !(g == h && d.approve)
    ensures CameFrom(hash, ReviewHost(hash, db, h, b, d).0, g, c)
  {
    MarkingKeepsRecords(db.rows, b, h, d, c, g);
    var t := ReviewHost(hash, db, h, b, d).0;
    hide RecordsOf, DraftRecords, Rebuilt, KeysUnique;
    var i :| 0 <= i < |db.rows| && Of(db.rows[i], c, g);
    assert Of(t.rows[i], c, g);
  }

  lemma CameFromIsApproved(hash: Hash, db: Library, h: nat, b: nat)
    requires CameFrom(hash, db, h, b)
    ensures EverApproved(db.rows, h)
  {
    hide RecordsOf, Rebuilt;
    var i :| 0 <= i < |db.rows| && Of(db.rows[i], b, h);
  }

  lemma MarkedApproves(rows: seq<Row>, b: nat, h: nat, d: Decision, g: nat)
    requires !(g == h && d.approve)
    ensures EverApproved(Marked(rows, b, h, d), g) == EverApproved(rows, g)
  {
    var t := Marked(rows, b, h, d);
    if i :| 0 <= i < |rows| && rows[i].hostId == g && rows[i].status == Approved {
      assert t[i] == rows[i];
    }
    if i :| 0 <= i < |t| && t[i].hostId == g && t[i].status == Approved {
      assert t[i] == rows[i];
    }
  }

  lemma ReviewKeepsProvenance(hash: Hash, db: Library, h: nat, b: nat, d: Decision)
    requires OneStatus(db.rows) && Provenance(hash, db)
    requires ReviewHost(hash, db, h, b, d).1 == None
    ensures Provenance(hash, ReviewHost(hash, db, h, b, d).0)
  {
    var t := ReviewHost(hash, db, h, b, d).0;
    if d.approve { ApprovedCameFrom(hash, db, h, b, d); }
    hide RecordsOf, DraftRecords, Rebuilt, KeysUnique, OneStatus, CameFrom, Marked, EverApproved;
    forall g | 0 <= g < |t.hosts|
      ensures if EverApproved(t.rows, g) then t.hosts[g].trusted && exists c :: CameFrom(hash, t, g, c)
              else BaselinesOf(t, g) == []
    {
      if g == h && d.approve {
        CameFromIsApproved(hash, t, h, b);
      } else {
        MarkedApproves(db.rows, b, h, d, g);
        if EverApproved(db.rows, g) {
          var c :| CameFrom(hash, db, g, c);
          CameFromStays(hash, db, h, b, d, g, c);
        }
      }
    }
  }

  lemma ReviewKeeps(hash: Hash, db: Library, h: nat, b: nat, d: Decision)
    requires Injective(hash) && RecordsInv(hash, db)
    ensures RecordsInv(hash, ReviewHost(hash, db, h, b, d).0)
    ensures ReviewHost(hash, db, h, b, d).1 != Some(DuplicateKey)
  {
    hide Provenance, KeysApart, IsUpper, Injective;
    if h < |db.hosts| && b < |db.batches| {
      DraftsAreAll(db.rows, b, h);
      RebuildIsUnique(hash, db, b, h);
      MarkedKeeps(db.rows, b, h, d);
      hide OneStatus, RecordsOf, Rebuilt, KeysUnique, DraftRecords;
      if ReviewHost(hash, db, h, b, d).1 == None {
        ReviewKeepsProvenance(hash, db, h, b, d);
      }
    }
  }

  lemma OpenedKeeps(hash: Hash, db: Library, found: seq<Discovery.Candidate>, newHosts: seq<Host>)
    requires Inv(hash, db) && Fit(found, |db.hosts| + |newHosts|)
    ensures Inv(hash, Opened(db, found, newHosts))
  {
    hide SeenKey, IsUpper;
    var t := Opened(db, found, newHosts);
    OpenedKeepsProvenance(hash, db, found, newHosts);
    OpenedKeepsStatus(db, found, newHosts);
    hide Provenance, StatusDerived;
    assert KeysApart(t.rows) by { OpenedKeysApart(db, found); }
  }

  lemma OpenedKeysApart(db: Library, found: seq<Discovery.Candidate>)
    requires Placed(db) && KeysApart(db.rows) && Discovery.DistinctKeys(found)
    ensures KeysApart(db.rows + NewRows(found, |db.batches|))
  {
    hide SeenKey;
  }

  lemma NewRowsApproveNothing(rows: seq<Row>, found: seq<Discovery.Candidate>, b: nat, h: nat)
    ensures EverApproved(rows + NewRows(found, b), h) == EverApproved(rows, h)
  {
    var t := rows + NewRows(found, b);
    if i :| 0 <= i < |rows| && rows[i].hostId == h && rows[i].status == Approved {
      assert t[i] == rows[i];
    }
  }

  lemma OpenedKeepsProvenance(hash: Hash, db: Library, found: seq<Discovery.Candidate>, newHosts: seq<Host>)
    requires Placed(db) && Provenance(hash, db)
    ensures Provenance(hash, Opened(db, found, newHosts))
  {
    hide RecordsOf, Rebuilt, IsUpper, NewRows;
    var t := Opened(db, found, newHosts);
    forall h | 0 <= h < |t.hosts|
      ensures if EverApproved(t.rows, h) then t.hosts[h].trusted && exists b :: CameFrom(hash, t, h, b)
              else BaselinesOf(t, h) == []
    {
      NewRowsApproveNothing(db.rows, found, |db.batches|, h);
      if EverApproved(db.rows, h) {
        assert h < |db.hosts|;
        var b :| CameFrom(hash, db, h, b);
        CameFromGrows(hash, db, found, newHosts, h, b);
      }
    }
  }

  lemma CameFromGrows(hash: Hash, db: Library, found: seq<Discovery.Candidate>, newHosts: seq<Host>, h: nat, b: nat)
    requires CameFrom(hash, db, h, b)
    ensures CameFrom(hash, Opened(db, found, newHosts), h, b)
  {
    hide RecordsOf, Rebuilt;
    NewRowsKeepRecords(db.rows, NewRows(found, |db.batches|), b, h);
    var t := Opened(db, found, newHosts);
    var i :| 0 <= i < |db.rows| && Of(db.rows[i], b, h);
    assert Of(t.rows[i], b, h);
  }

  lemma OpenedKeepsStatus(db: Library, found: seq<Discovery.Candidate>, newHosts: seq<Host>)
    requires Placed(db) && StatusDerived(db)
    ensures StatusDerived(Opened(db, found, newHosts))
  {
    hide IsUpper;
    var t := Opened(db, found, newHosts);
    var n := |db.rows|;
    forall b | 0 <= b < |t.batches| ensures t.batches[b].status == Derived(t.rows, b) {
      if b < |db.batches| {
        forall status ensures Has(t.rows, b, status) == Has(db.rows, b, status) {
          if i :| 0 <= i < n && db.rows[i].batchId == b && db.rows[i].status == status {
            assert t.rows[i] == db.rows[i];
          }
        }
      } else {
        assert forall i :: 0 <= i < |t.rows| && t.rows[i].batchId == b ==> t.rows[i].status == Draft;
      }
    }
  }

  /** Rows of other batches are not touched. */
  ghost predicate OnlyBatch(s: Library, t: Library, b: nat) {
    && |s.rows| == |t.rows| && s.batches == t.batches && |s.hosts| == |t.hosts|
    && (forall i :: 0 <= i < |s.rows| ==> s.rows[i].batchId == t.rows[i].batchId)
    && (forall i :: 0 <= i < |s.rows| && s.rows[i].batchId != b ==> s.rows[i] == t.rows[i])
  }

  lemma RefreshDerives(hash: Hash, s: Library, t: Library, b: nat, d: Decision)
    requires StatusDerived(s) && OnlyBatch(s, t, b) && RecordsInv(hash, t)
    ensures Inv(hash, Refreshed(t, b, d))
  {
    var u := Refreshed(t, b, d);
    hide IsUpper, RecordsOf, Rebuilt, OneStatus, KeysApart;
    forall c | 0 <= c < |u.batches| ensures u.batches[c].status == Derived(u.rows, c) {
      if c != b {
        forall status ensures Has(t.rows, c, status) == Has(s.rows, c, status) {
          assert forall i :: 0 <= i < |s.rows| && s.rows[i].batchId == c ==> t.rows[i] == s.rows[i];
          assert forall i :: 0 <= i < |t.rows| && t.rows[i].batchId == c ==> t.rows[i] == s.rows[i];
        }
      }
    }
    forall h | 0 <= h < |u.hosts| && EverApproved(u.rows, h) ensures exists c :: CameFrom(hash, u, h, c) {
      var c :| CameFrom(hash, t, h, c);
      assert CameFrom(hash, u, h, c);
    }
  }

  lemma {:induction false} ReviewAllKeeps(hash: Hash, db: Library, b: nat, targets: seq<nat>, d: Decision)
    requires Injective(hash) && RecordsInv(hash, db)
    ensures RecordsInv(hash, ReviewAll(hash, db, b, targets, d))
    ensures OnlyBatch(db, ReviewAll(hash, db, b, targets, d), b)
    decreases |targets|
  {
    hide RecordsInv, DraftRecords, Rebuilt, KeysUnique;
    if targets != [] {
      ReviewAllKeeps(hash, db, b, targets[..|targets| - 1], d);
      ReviewKeeps(hash, ReviewAll(hash, db, b, targets[..|targets| - 1], d), targets[|targets| - 1], b, d);
    }
  }

  lemma StepKeeps(hash: Hash, db: Library, a: Action)
    requires Injective(hash) && Inv(hash, db) && Enabled(db, a)
    ensures Inv(hash, Apply(hash, db, a))
  {
    hide RecordsInv, StatusDerived, Fit, DraftRecords, Rebuilt, KeysUnique, Derived;
    match a
    case AddHost(host) => AddHostKeeps(hash, db, host);
    case Discover(found, newHosts) => OpenedKeeps(hash, db, found, newHosts);
    case Import(newHosts) =>
      assert Fit([], |db.hosts| + |newHosts|) by { EmptyIsFit(|db.hosts| + |newHosts|); }
      OpenedKeeps(hash, db, [], newHosts);
    case Review(h, b, d) =>
      ReviewKeeps(hash, db, h, b, d);
      var r := ReviewHost(hash, db, h, b, d);
      if r.1.None? {
        RefreshDerives(hash, db, r.0, b, d);
      }
    case Bulk(b, scope, d) =>
      if b < |db.batches| {
        var targets := Targets(db, b, scope, |db.hosts|);
        ReviewAllKeeps(hash, db, b, targets, d);
        RefreshDerives(hash, db, ReviewAll(hash, db, b, targets, d), b, d);
      }
  }

  lemma AddHostKeeps(hash: Hash, db: Library, host: Host)
    requires Inv(hash, db)
    ensures Inv(hash, db.(hosts := db.hosts + [host]))
  {
    hide RecordsOf, Rebuilt, IsUpper, OneStatus, KeysApart, Derived;
    var t := db.(hosts := db.hosts + [host]);
    forall h | 0 <= h < |t.hosts|
      ensures if EverApproved(t.rows, h) then t.hosts[h].trusted && exists b :: CameFrom(hash, t, h, b)
              else BaselinesOf(t, h) == []
    {
      if EverApproved(t.rows, h) {
        var b :| CameFrom(hash, db, h, b);
        assert CameFrom(hash, t, h, b);
      }
    }
  }

  lemma EmptyIsFit(n: nat)
    ensures Fit([], n)
  {
  }

  lemma {:induction false} RunKeeps(hash: Hash, s: Library, acts: seq<Action>, t: Library)
    requires Injective(hash) && Inv(hash, s) && Runs(hash, s, acts, t)
    ensures Inv(hash, t)
    decreases |acts|
  {
    hide Inv, Apply;
    if acts != [] {
      StepKeeps(hash, s, acts[0]);
      RunKeeps(hash, Apply(hash, s, acts[0]), acts[1..], t);
    }
  }

  // ---------- the promises ----------

  /** Over all sequences of calls: the records of a batch and host share one status, a batch's status says what
      became of its records, and no two baseline rows of a host share a hash. */
  lemma LibraryConsistent(hash: Hash, acts: seq<Action>, db: Library)
    requires Injective(hash) && Runs(hash, Empty(), acts, db)
    ensures OneStatus(db.rows)
    ensures forall b :: 0 <= b < |db.batches| ==> StatusSays(db.rows, b, db.batches[b].status)
    ensures forall h :: 0 <= h < |db.hosts| ==> KeysUnique(BaselinesOf(db, h))
  {
    RunKeeps(hash, Empty(), acts, db);
    hide Derived, OneStatus, StatusSays;
    forall b | 0 <= b < |db.batches| ensures StatusSays(db.rows, b, db.batches[b].status) {
      DerivedSays(db.rows, b);
    }
    forall h | 0 <= h < |db.hosts| ensures KeysUnique(BaselinesOf(db, h)) {
      if EverApproved(db.rows, h) {
        var b :| CameFrom(hash, db, h, b);
        RebuildIsUnique(hash, db, b, h);
      }
    }
  }

  /** A review, alone or within a bulk review, never fails on the unique key. */
  lemma ApprovalNeverCollides(hash: Hash, acts: seq<Action>, db: Library, h: nat, b: nat, d: Decision, targets: seq<nat>)
    requires Injective(hash) && Runs(hash, Empty(), acts, db)
    ensures ReviewHostCandidates(hash, db, h, b, d).1 != Some(DuplicateKey)
    ensures ReviewHost(hash, ReviewAll(hash, db, b, targets, d), h, b, d).1 != Some(DuplicateKey)
  {
    RunKeeps(hash, Empty(), acts, db);
    hide RecordsInv, StatusDerived, ReviewHost;
    ReviewKeeps(hash, db, h, b, d);
    ReviewAllKeeps(hash, db, b, targets, d);
    ReviewKeeps(hash, ReviewAll(hash, db, b, targets, d), h, b, d);
  }

  /** Once something was approved for a host, the host is trusted and its baseline is exactly the records one
      batch holds for it, all approved; until then it has no baseline. */
  lemma BaselineIsOneBatch(hash: Hash, acts: seq<Action>, db: Library, h: nat)
    requires Injective(hash) && Runs(hash, Empty(), acts, db) && h < |db.hosts|
    ensures !EverApproved(db.rows, h) ==> BaselinesOf(db, h) == []
    ensures EverApproved(db.rows, h) ==>
      db.hosts[h].trusted && exists b :: CameFrom(hash, db, h, b) && BaselineSays(hash, db, h, b)
  {
    RunKeeps(hash, Empty(), acts, db);
    hide CameFrom, BaselineSays, EverApproved, Placed, OneStatus, KeysApart;
    if EverApproved(db.rows, h) {
      var b :| CameFrom(hash, db, h, b);
      CameFromSays(hash, db, h, b);
    }
  }

  predicate InBaseline(bs: seq<Baseline>, r: Record) { exists x :: x in bs && x.record == r }

  predicate InBatch(rows: seq<Row>, b: nat, h: nat, r: Record) {
    exists i :: 0 <= i < |rows| && rows[i].batchId == b && rows[i].hostId == h && rows[i].record == r
  }

  lemma {:induction false} RecordsOfRight(rows: seq<Row>, b: nat, h: nat)
    ensures forall r :: r in RecordsOf(rows, b, h) <==> InBatch(rows, b, h, r)
    decreases |rows|
  {
    if rows != [] {
      var n := |rows| - 1;
      RecordsOfRight(rows[..n], b, h);
      assert rows == rows[..n] + [rows[n]];
      assert forall i :: 0 <= i < n ==> rows[..n][i] == rows[i];
    }
  }

  /** A baseline, read row by row: the record of every baseline row is one of the batch's for the host and the
      other way round, all of them approved, and every hash is that of its record. */
  ghost predicate BaselineSays(hash: Hash, db: Library, h: nat, b: nat) {
    && (forall x :: x in BaselinesOf(db, h) ==> x.hash == hash(HashInput(h, x.record)))
    && (forall r :: InBaseline(BaselinesOf(db, h), r) <==> InBatch(db.rows, b, h, r))
    && (forall i :: 0 <= i < |db.rows| && db.rows[i].batchId == b && db.rows[i].hostId == h ==> db.rows[i].status == Approved)
  }

  lemma CameFromSays(hash: Hash, db: Library, h: nat, b: nat)
    requires CameFrom(hash, db, h, b)
    ensures BaselineSays(hash, db, h, b)
  {
    RecordsOfRight(db.rows, b, h);
    hide RecordsOf, HashInput;
    var rs, bs := RecordsOf(db.rows, b, h), BaselinesOf(db, h);
    forall r | r in rs ensures InBaseline(bs, r) {
      var i :| 0 <= i < |rs| && rs[i] == r;
      assert bs[i] in bs;
    }
    assert forall x :: x in bs ==> x.record in rs;
    assert forall i :: 0 <= i < |db.rows| && db.rows[i].batchId == b && db.rows[i].hostId == h ==> Of(db.rows[i], b, h);
  }

  /** Rows are never removed, and a row that has left draft never changes again. */
  ghost predicate Decided(s: seq<Row>, t: seq<Row>) {
    && |s| <= |t|
    && (forall i :: 0 <= i < |s| ==> t[i] == s[i].(status := t[i].status, reviewedBy := t[i].reviewedBy))
    && (forall i :: 0 <= i < |s| && s[i].status != Draft ==> t[i] == s[i])
  }

  lemma ReviewDecides(hash: Hash, db: Library, h: nat, b: nat, d: Decision)
    ensures Decided(db.rows, ReviewHost(hash, db, h, b, d).0.rows)
  {
    hide DraftRecords, Rebuilt, KeysUnique;
  }

  lemma {:induction false} ReviewAllDecides(hash: Hash, db: Library, b: nat, targets: seq<nat>, d: Decision)
    ensures Decided(db.rows, ReviewAll(hash, db, b, targets, d).rows)
    decreases |targets|
  {
    hide ReviewHost;
    if targets != [] {
      var before := ReviewAll(hash, db, b, targets[..|targets| - 1], d);
      ReviewAllDecides(hash, db, b, targets[..|targets| - 1], d);
      ReviewDecides(hash, before, targets[|targets| - 1], b, d);
    }
  }

  /** A record leaves draft at most once: whatever is called, and however often. */
  lemma {:induction false} LeavesDraftOnce(hash: Hash, s: Library, acts: seq<Action>, t: Library)
    requires Runs(hash, s, acts, t)
    ensures Decided(s.rows, t.rows)
    decreases |acts|
  {
    if acts != [] {
      var next := Apply(hash, s, acts[0]);
      assert Decided(s.rows, next.rows) by {
        hide ReviewHost, ReviewAll;
        match acts[0]
        case AddHost(_) =>
        case Discover(_, _) =>
        case Import(_) =>
        case Review(h, b, d) => ReviewDecides(hash, s, h, b, d);
        case Bulk(b, scope, d) =>
          if b < |s.batches| { ReviewAllDecides(hash, s, b, Targets(s, b, scope, |s.hosts|), d); }
      }
      hide Apply, Enabled;
      LeavesDraftOnce(hash, next, acts[1..], t);
    }
  }

  // ---------- bulk review ----------

  lemma {:induction false} NoDraftsLeft(rows: seq<Row>, b: nat, h: nat)
    ensures DraftRecords(rows, b, h) == [] <==> forall i :: 0 <= i < |rows| && Of(rows[i], b, h) ==> rows[i].status != Draft
    decreases |rows|
  {
    if rows != [] {
      NoDraftsLeft(rows[..|rows| - 1], b, h);
    }
  }

  lemma ReviewClears(hash: Hash, db: Library, h: nat, b: nat, d: Decision)
    requires h < |db.hosts| && b < |db.batches| && ReviewHost(hash, db, h, b, d).1 != Some(DuplicateKey)
    ensures DraftRecords(ReviewHost(hash, db, h, b, d).0.rows, b, h) == []
  {
    NoDraftsLeft(ReviewHost(hash, db, h, b, d).0.rows, b, h);
  }

  lemma ReviewKeepsCleared(hash: Hash, db: Library, h: nat, b: nat, d: Decision, g: nat)
    requires DraftRecords(db.rows, b, g) == []
    ensures DraftRecords(ReviewHost(hash, db, h, b, d).0.rows, b, g) == []
  {
    var t := ReviewHost(hash, db, h, b, d).0;
    NoDraftsLeft(db.rows, b, g);
    NoDraftsLeft(t.rows, b, g);
    ReviewDecides(hash, db, h, b, d);
    assert |t.rows| == |db.rows|;
    hide ReviewHost, DraftRecords;
    forall i | 0 <= i < |t.rows| && Of(t.rows[i], b, g) ensures t.rows[i].status != Draft {
      assert Of(db.rows[i], b, g);
    }
  }

  lemma {:induction false} ReviewAllClears(hash: Hash, db: Library, b: nat, targets: seq<nat>, d: Decision, h: nat)
    requires Injective(hash) && RecordsInv(hash, db) && h in targets && h < |db.hosts| && b < |db.batches|
    ensures DraftRecords(ReviewAll(hash, db, b, targets, d).rows, b, h) == []
    decreases |targets|
  {
    hide RecordsInv, DraftRecords, ReviewHost;
    var before, last := targets[..|targets| - 1], targets[|targets| - 1];
    ReviewAllKeeps(hash, db, b, before, d);
    if h == last {
      ReviewKeeps(hash, ReviewAll(hash, db, b, before, d), h, b, d);
      ReviewClears(hash, ReviewAll(hash, db, b, before, d), h, b, d);
    } else {
      ReviewAllClears(hash, db, b, before, d, h);
      ReviewKeepsCleared(hash, ReviewAll(hash, db, b, before, d), last, b, d, h);
    }
  }

  lemma {:induction false} TargetsRight(db: Library, b: nat, scope: Scope, n: nat)
    requires n <= |db.hosts|
    ensures forall i, j :: 0 <= i < j < |Targets(db, b, scope, n)| ==> Targets(db, b, scope, n)[i] < Targets(db, b, scope, n)[j]
    ensures forall h: nat :: h in Targets(db, b, scope, n) <==> h < n && InScope(db, scope, h) && DraftRecords(db.rows, b, h) != []
  {
    if n > 0 {
      TargetsRight(db, b, scope, n - 1);
      var ts := Targets(db, b, scope, n - 1);
      assert forall i :: 0 <= i < |ts| ==> ts[i] in ts;
    }
  }

  lemma BulkRows(hash: Hash, db: Library, b: nat, scope: Scope, d: Decision)
    requires b < |db.batches|
    ensures BulkReview(hash, db, b, scope, d).0.rows == ReviewAll(hash, db, b, Targets(db, b, scope, |db.hosts|), d).rows
  {
    hide ReviewHost, Targets, Derived;
  }

  lemma ScopeCleared(hash: Hash, db: Library, b: nat, scope: Scope, d: Decision, h: nat)
    requires Injective(hash) && RecordsInv(hash, db) && b < |db.batches| && h < |db.hosts| && InScope(db, scope, h)
    ensures DraftRecords(BulkReview(hash, db, b, scope, d).0.rows, b, h) == []
  {
    hide RecordsInv, Injective, InScope, Targets, DraftRecords, BulkReview, ReviewHost;
    var targets := Targets(db, b, scope, |db.hosts|);
    TargetsRight(db, b, scope, |db.hosts|);
    BulkRows(hash, db, b, scope, d);
    if h in targets {
      ReviewAllClears(hash, db, b, targets, d, h);
    } else {
      NoDraftsLeft(db.rows, b, h);
      NoDraftsLeft(ReviewAll(hash, db, b, targets, d).rows, b, h);
      ReviewAllDecides(hash, db, b, targets, d);
      ReviewAllKeeps(hash, db, b, targets, d);
      hide ReviewAll;
      forall i | 0 <= i < |db.rows| && Of(ReviewAll(hash, db, b, targets, d).rows[i], b, h)
        ensures ReviewAll(hash, db, b, targets, d).rows[i].status != Draft
      {
        assert Of(db.rows[i], b, h);
      }
    }
  }

  /** After a bulk review no record of a host in its scope waits for review any more. */
  lemma BulkLeavesNoDraft(hash: Hash, acts: seq<Action>, db: Library, b: nat, scope: Scope, d: Decision, h: nat)
    requires Injective(hash) && Runs(hash, Empty(), acts, db)
    requires b < |db.batches| && h < |db.hosts| && InScope(db, scope, h)
    ensures var t := BulkReview(hash, db, b, scope, d).0;
      forall i :: 0 <= i < |t.rows| && Of(t.rows[i], b, h) ==> t.rows[i].status != Draft
  {
    RunKeeps(hash, Empty(), acts, db);
    hide RecordsInv, StatusDerived, Runs, InScope, BulkReview;
    ScopeCleared(hash, db, b, scope, d, h);
    NoDraftsLeft(BulkReview(hash, db, b, scope, d).0.rows, b, h);
  }

  /** What a review does to one row: a draft of the batch whose host is under review gets the decision and the
      reviewer; nothing else changes. */
  function RowReviewed(r: Row, b: nat, covered: bool, d: Decision): Row {
    if r.batchId == b && covered && r.status == Draft
    then r.(status := if d.approve then Approved else Rejected, reviewedBy := d.reviewedBy)
    else r
  }

  lemma ReviewRows(hash: Hash, db: Library, h: nat, b: nat, d: Decision)
    requires h < |db.hosts| && b < |db.batches| && ReviewHost(hash, db, h, b, d).1 != Some(DuplicateKey)
    ensures var t := ReviewHost(hash, db, h, b, d).0.rows;
      |t| == |db.rows| && forall i :: 0 <= i < |t| ==> t[i] == RowReviewed(db.rows[i], b, db.rows[i].hostId == h, d)
  {
    NoDraftsLeft(db.rows, b, h);
    hide DraftRecords, Rebuilt, KeysUnique;
    forall i | 0 <= i < |db.rows| && db.rows[i].batchId == b && db.rows[i].hostId == h ensures Of(db.rows[i], b, h) {
    }
  }

  lemma {:induction false} ReviewAllRows(hash: Hash, db: Library, b: nat, targets: seq<nat>, d: Decision)
    requires Injective(hash) && RecordsInv(hash, db) && b < |db.batches| && forall h :: h in targets ==> h < |db.hosts|
    ensures var t := ReviewAll(hash, db, b, targets, d).rows;
      |t| == |db.rows| && forall i :: 0 <= i < |t| ==> t[i] == RowReviewed(db.rows[i], b, db.rows[i].hostId in targets, d)
    decreases |targets|
  {
    hide RecordsInv, Injective, ReviewHost;
    if targets != [] {
      var before, last := targets[..|targets| - 1], targets[|targets| - 1];
      assert forall h :: h in targets <==> h in before || h == last;
      assert last in targets;
      ReviewAllRows(hash, db, b, before, d);
      ReviewAllKeeps(hash, db, b, before, d);
      var s := ReviewAll(hash, db, b, before, d);
      ReviewKeeps(hash, s, last, b, d);
      ReviewRows(hash, s, last, b, d);
    }
  }

  lemma DraftHost(rows: seq<Row>, b: nat, i: nat)
    requires i < |rows| && rows[i].batchId == b && rows[i].status == Draft
    ensures DraftRecords(rows, b, rows[i].hostId) != []
  {
    NoDraftsLeft(rows, b, rows[i].hostId);
    hide DraftRecords;
    assert Of(rows[i], b, rows[i].hostId);
  }

  /** The whole effect of a bulk review on the records: a draft of the batch gets the decision and the reviewer
      when its host is among those asked for (or none were) and the host's domain is (or none were); every other
      record stays as it is. */
  lemma BulkExactly(hash: Hash, acts: seq<Action>, db: Library, b: nat, scope: Scope, d: Decision, i: nat)
    requires Injective(hash) && Runs(hash, Empty(), acts, db) && b < |db.batches| && i < |db.rows|
    ensures db.rows[i].hostId < |db.hosts| && |BulkReview(hash, db, b, scope, d).0.rows| == |db.rows|
    ensures BulkReview(hash, db, b, scope, d).0.rows[i]
         == RowReviewed(db.rows[i], b,
                        && (scope.hostIds == {} || db.rows[i].hostId in scope.hostIds)
                        && (scope.domainIds == {} || db.hosts[db.rows[i].hostId].domainId in scope.domainIds), d)
  {
    RunKeeps(hash, Empty(), acts, db);
    assert Placed(db);
    hide RecordsInv, StatusDerived, Runs, BulkReview, Targets, DraftRecords;
    var targets := Targets(db, b, scope, |db.hosts|);
    TargetsRight(db, b, scope, |db.hosts|);
    ReviewAllRows(hash, db, b, targets, d);
    BulkRows(hash, db, b, scope, d);
    if db.rows[i].batchId == b && db.rows[i].status == Draft {
      DraftHost(db.rows, b, i);
    }
  }

  // ---------- the calls as the service makes them ----------

  function HashesOf(bs: seq<Baseline>): set<string> {
    set x | x in bs :: x.hash
  }

  lemma RebuiltNext(hash: Hash, h: nat, records: seq<Record>, k: nat)
    requires k < |records|
    ensures Rebuilt(hash, h, records[..k + 1])
         == Rebuilt(hash, h, records[..k]) + [Baseline(records[k], hash(HashInput(h, records[k])))]
  {
    hide HashInput;
  }

  lemma UniqueNext(bs: seq<Baseline>, row: Baseline)
    ensures KeysUnique(bs + [row]) <==> KeysUnique(bs) && row.hash !in HashesOf(bs)
    ensures HashesOf(bs + [row]) == HashesOf(bs) + {row.hash}
  {
    var more := bs + [row];
    assert forall x :: x in more <==> x in bs || x == row;
    assert forall i :: 0 <= i < |bs| ==> more[i] == bs[i] && bs[i] in bs;
    if row.hash in HashesOf(bs) {
      var i :| 0 <= i < |bs| && bs[i].hash == row.hash;
      assert more[i].hash == more[|bs|].hash;
    }
  }

  class TrustLibrary {
    const hash: Hash
    var hosts: seq<Host>
    var batches: seq<Batch>
    var rows: seq<Row>
    var baselines: map<nat, seq<Baseline>>

    function State(): Library
      reads this
    {
      Library(hosts, batches, rows, baselines)
    }

    method FindDrafts(b: nat, h: nat) returns (records: seq<Record>)
      ensures records == DraftRecords(rows, b, h)
    {
      records := [];
      for k := 0 to |rows|
        invariant records == DraftRecords(rows[..k], b, h)
      {
        assert rows[..k + 1][..k] == rows[..k];
        if Of(rows[k], b, h) && rows[k].status == Draft { records := records + [rows[k].record]; }
      }
      assert rows[..|rows|] == rows;
    }

    /** The insert fails as soon as one key repeats. */
    method BuildBaselines(h: nat, records: seq<Record>) returns (built: seq<Baseline>, ok: bool)
      ensures built == Rebuilt(hash, h, records)
      ensures ok == KeysUnique(built)
    {
      built, ok := [], true;
      var keys: set<string> := {};
      for k := 0 to |records|
        invariant built == Rebuilt(hash, h, records[..k])
        invariant keys == HashesOf(built)
        invariant ok == KeysUnique(built)
      {
        hide Rebuilt, KeysUnique, HashInput, HashesOf;
        RebuiltNext(hash, h, records, k);
        var row := Baseline(records[k], hash(HashInput(h, records[k])));
        UniqueNext(built, row);
        if row.hash in keys { ok := false; }
        keys, built := keys + {row.hash}, built + [row];
      }
      assert records[..|records|] == records;
    }

    method MarkReviewed(b: nat, h: nat, d: Decision)
      modifies this`rows
      ensures rows == Marked(old(rows), b, h, d)
    {
      for k := 0 to |rows|
        invariant |rows| == |old(rows)|
        invariant forall i :: 0 <= i < k ==> rows[i] == Marked(old(rows), b, h, d)[i]
        invariant forall i :: k <= i < |rows| ==> rows[i] == old(rows)[i]
      {
        if Of(rows[k], b, h) && rows[k].status == Draft {
          rows := rows[k := rows[k].(status := Verdict(d), reviewedBy := d.reviewedBy)];
        }
      }
    }

    method ReviewOne(h: nat, b: nat, d: Decision) returns (e: Option<Error>)
      modifies this
      ensures (State(), e) == ReviewHost(hash, old(State()), h, b, d)
    {
      if h >= |hosts| { return Some(NoHost); }
      if b >= |batches| { return Some(NoBatch); }
      var records := FindDrafts(b, h);
      if records == [] { return Some(NothingToReview); }
      if d.approve {
        baselines := baselines - {h};
        var built, ok := BuildBaselines(h, records);
        if !ok { return Some(DuplicateKey); }
        baselines := baselines[h := built];
        assert baselines == old(baselines)[h := built];
        hosts := hosts[h := hosts[h].(trusted := true)];
      }
      MarkReviewed(b, h, d);
      return None;
    }

    /** The counting refresh of a batch's status. */
    method RefreshCandidateBatchStatus(b: nat, d: Decision)
      modifies this`batches
      ensures State() == Refreshed(old(State()), b, d)
      ensures b < |batches| ==> StatusSays(rows, b, batches[b].status)
      ensures b < |batches| ==>
        batches[b].approvedBy == if batches[b].status == Approved && d.approve then d.reviewedBy else old(batches)[b].approvedBy
    {
      if b >= |batches| { return; }
      DerivedSays(rows, b);
      var total, hasDraft, hasApproved := 0, false, false;
      for k := 0 to |rows|
        invariant State() == old(State())
        invariant hasDraft == Has(rows[..k], b, Draft)
        invariant hasApproved == Has(rows[..k], b, Approved)
        invariant total > 0 <==> hasDraft || hasApproved || Has(rows[..k], b, Rejected)
        invariant total >= 0
      {
        HasNext(rows, k, b);
        if rows[k].batchId == b {
          total := total + 1;
          match rows[k].status
          case Draft => hasDraft := true;
          case Approved => hasApproved := true;
          case Rejected =>
        }
      }
      assert rows[..|rows|] == rows;
      var status := if total == 0 then Draft else if hasDraft then Draft else if hasApproved then Approved else Rejected;
      var batch := batches[b].(status := status);
      batches := batches[b := if status == Approved && d.approve then batch.(approvedBy := d.reviewedBy) else batch];
    }

    method Review(h: nat, b: nat, d: Decision) returns (e: Option<Error>)
      modifies this
      ensures (State(), e) == ReviewHostCandidates(hash, old(State()), h, b, d)
    {
      e := ReviewOne(h, b, d);
      if e == None {
        RefreshCandidateBatchStatus(b, d);
      }
    }

    method Bulk(b: nat, scope: Scope, d: Decision) returns (e: Option<Error>)
      modifies this
      ensures (State(), e) == BulkReview(hash, old(State()), b, scope, d)
    {
      if b >= |batches| { return Some(NoBatch); }
      var targets: seq<nat> := [];
      for n := 0 to |hosts|
        invariant State() == old(State())
        invariant targets == Targets(State(), b, scope, n)
      {
        var drafts := FindDrafts(b, n);
        if InScope(State(), scope, n) && drafts != [] { targets := targets + [n]; }
      }
      if targets == [] { return Some(NothingToReview); }
      for k := 0 to |targets|
        invariant State() == ReviewAll(hash, old(State()), b, targets[..k], d)
      {
        assert targets[..k + 1][..k] == targets[..k];
        var ignored := ReviewOne(targets[k], b, d);
      }
      assert targets[..|targets|] == targets;
      RefreshCandidateBatchStatus(b, d);
      return None;
    }
  }

  lemma HasNext(rows: seq<Row>, k: nat, b: nat)
    requires k < |rows|
    ensures forall status :: Has(rows[..k + 1], b, status) <==>
      Has(rows[..k], b, status) || (rows[k].batchId == b && rows[k].status == status)
  {
    forall status ensures Has(rows[..k + 1], b, status) <==>
        Has(rows[..k], b, status) || (rows[k].batchId == b && rows[k].status == status)
    {
      assert forall i :: 0 <= i < k ==> rows[..k + 1][i] == rows[..k][i];
      assert rows[..k + 1][k] == rows[k];
    }
  }
}
