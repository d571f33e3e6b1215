/** Manifest imports of internal/service/trust.go: normalizeManifest, and the upserts of ImportTrustManifest
    with their upgrade rules. */
module TrustImport {
  import opened Text
  import opened Wrappers

  datatype ManifestHost = ManifestHost(fqdn: string, allowWildcard: bool, allowAxfr: bool, allowRebind: bool,
                                       dnssecExpected: bool, enabled: bool, notes: string)

  datatype ManifestItem = ManifestItem(domain: string, owner: string, importance: string, environment: string,
                                       enabled: bool, notes: string, keyHosts: seq<ManifestHost>)

  datatype Error = EmptyDomain | UnsupportedEnvironment | MixedEnvironments | DuplicateKey

  const PROD := "prod"
  const LAB := "lab"
  const CRITICAL := "critical"
  const HIGH := "high"
  const MEDIUM := "medium"

  // ---------- normalisation ----------

  function AutoApex(domain: string): ManifestHost {
    ManifestHost(domain, false, false, false, false, true, "manifest auto apex")
  }

  function Names(hosts: seq<ManifestHost>): set<string> { set h | h in hosts :: h.fqdn }

  /** Names normalised; empty names and repetitions dropped. */
  function KeptHosts(hosts: seq<ManifestHost>): seq<ManifestHost> {
    if hosts == [] then []
    else
      var before, last := KeptHosts(hosts[..|hosts| - 1]), hosts[|hosts| - 1];
      var h := last.(fqdn := NormName(last.fqdn));
      if h.fqdn == "" || h.fqdn in Names(before) then before else before + [h]
  }

  function NormalHosts(domain: string, hosts: seq<ManifestHost>): seq<ManifestHost> {
    var kept := KeptHosts(hosts);
    if domain in Names(kept) then kept else [AutoApex(domain)] + kept
  }

  function EnvironmentOf(item: ManifestItem): string { if item.environment == "" then PROD else item.environment }

  function NormalItem(item: ManifestItem): ManifestItem {
    var domain := NormName(item.domain);
    item.(domain := domain, environment := EnvironmentOf(item),
          importance := if item.importance == "" then HIGH else item.importance,
          keyHosts := NormalHosts(domain, item.keyHosts))
  }

  predicate Acceptable(item: ManifestItem, environment: string) {
    NormName(item.domain) != "" && EnvironmentOf(item) == environment && (environment == PROD || environment == LAB)
  }

  predicate AllAcceptable(items: seq<ManifestItem>, environment: string) {
    forall i :: 0 <= i < |items| ==> Acceptable(items[i], environment)
  }

  /** Item k is the first that cannot be accepted, and why. */
  predicate Faulty(items: seq<ManifestItem>, k: nat, e: Error) {
    && k < |items|
    && (k > 0 ==> AllAcceptable(items[..k], EnvironmentOf(items[0])))
    && match e
       case EmptyDomain => NormName(items[k].domain) == ""
       case UnsupportedEnvironment => NormName(items[k].domain) != "" && EnvironmentOf(items[k]) !in {PROD, LAB}
       case MixedEnvironments =>
         k > 0 && NormName(items[k].domain) != "" && EnvironmentOf(items[k]) in {PROD, LAB} - {EnvironmentOf(items[0])}
       case DuplicateKey => false
  }

  lemma {:induction false} KeptHostsRight(hosts: seq<ManifestHost>)
    ensures Names(KeptHosts(hosts)) == (set h | h in hosts && NormName(h.fqdn) != "" :: NormName(h.fqdn))
    ensures forall i, j :: 0 <= i < j < |KeptHosts(hosts)| ==> KeptHosts(hosts)[i].fqdn != KeptHosts(hosts)[j].fqdn
    decreases |hosts|
  {
    hide NormName;
    if hosts != [] {
      var n := |hosts| - 1;
      KeptHostsRight(hosts[..n]);
      assert hosts == hosts[..n] + [hosts[n]];
      var kept, h := KeptHosts(hosts[..n]), hosts[n].(fqdn := NormName(hosts[n].fqdn));
      assert forall i :: 0 <= i < |kept| ==> kept[i] in kept;
      assert Names(kept + [h]) == Names(kept) + {h.fqdn};
    }
  }

  /** The hosts of a normalised item: distinct, never without the apex, and besides it exactly the named ones. */
  lemma NormalHostsRight(item: ManifestItem)
    ensures var t := NormalItem(item);
      && Names(t.keyHosts) == {t.domain} + (set h | h in item.keyHosts && NormName(h.fqdn) != "" :: NormName(h.fqdn))
      && forall i, j :: 0 <= i < j < |t.keyHosts| ==> t.keyHosts[i].fqdn != t.keyHosts[j].fqdn
  {
    hide NormName, KeptHosts;
    KeptHostsRight(item.keyHosts);
    var domain, kept := NormName(item.domain), KeptHosts(item.keyHosts);
    assert forall i :: 0 <= i < |kept| ==> kept[i] in kept;
    assert Names([AutoApex(domain)] + kept) == {domain} + Names(kept);
  }

  method NormalizeHosts(domain: string, hosts: seq<ManifestHost>) returns (out: seq<ManifestHost>)
    ensures out == NormalHosts(domain, hosts)
  {
    hide NormName;
    var seen: set<string> := {};
    out := [];
    for k := 0 to |hosts|
      invariant out == KeptHosts(hosts[..k]) && seen == Names(out)
    {
      assert hosts[..k + 1][..k] == hosts[..k];
      var h := hosts[k].(fqdn := NormName(hosts[k].fqdn));
      if h.fqdn == "" || h.fqdn in seen { continue; }
      seen := seen + {h.fqdn};
      out := out + [h];
    }
    assert hosts[..|hosts|] == hosts;
    if domain !in seen {
      out := [AutoApex(domain)] + out;
    }
  }

  /** Accepts a manifest exactly when every item has a domain and all name one supported environment. */
  method NormalizeManifest(items: seq<ManifestItem>) returns (r: Result<(seq<ManifestItem>, string), Error>)
    ensures r.Ok? <==> exists env :: AllAcceptable(items, env)
    ensures r.Err? ==> r.error != DuplicateKey && exists k: nat :: Faulty(items, k, r.error)
    ensures r.Ok? ==>
      && |r.value.0| == |items|
      && (forall i :: 0 <= i < |items| ==> r.value.0[i] == NormalItem(items[i]) && Acceptable(items[i], r.value.1))
      && (items == [] ==> r.value.1 == PROD)
  {
    hide NormName, NormalHosts;
    var environment := "";
    var out: seq<ManifestItem> := [];
    for k := 0 to |items|
      invariant |out| == k && (k > 0 <==> environment != "")
      invariant k > 0 ==> environment == EnvironmentOf(items[0])
      invariant forall i :: 0 <= i < k ==> out[i] == NormalItem(items[i]) && Acceptable(items[i], environment)
    {
      var item := items[k];
      var domain := NormName(item.domain);
      assert k > 0 ==> Acceptable(items[0], environment);
      assert k > 0 ==> AllAcceptable(items[..k], EnvironmentOf(items[0]));
      if domain == "" {
        assert Faulty(items, k, EmptyDomain);
        return Err(EmptyDomain);
      }
      var itemEnv := if item.environment == "" then PROD else item.environment;
      if itemEnv != PROD && itemEnv != LAB {
        assert Faulty(items, k, UnsupportedEnvironment);
        return Err(UnsupportedEnvironment);
      }
      if environment != "" && environment != itemEnv {
        assert Faulty(items, k, MixedEnvironments);
        return Err(MixedEnvironments);
      }
      environment := itemEnv;
      var hosts := NormalizeHosts(domain, item.keyHosts);
      out := out + [item.(domain := domain, environment := itemEnv,
                          importance := if item.importance == "" then HIGH else item.importance, keyHosts := hosts)];
    }
    if environment == "" { environment := PROD; }
    assert AllAcceptable(items, environment);
    r := Ok((out, environment));
  }

  // ---------- rows and upserts ----------

  /** The unique keys of dns_trust_domains and dns_trust_hosts. */
  datatype Key = DomainKey(environment: string, domain: string) | HostKey(environment: string, domain: string, fqdn: string)

  datatype Entry =
    | DomainEntry(owner: string, importance: string, enabled: bool, notes: string)
    | HostEntry(source: string, status: string, allowWildcard: bool, allowAxfr: bool, allowRebind: bool,
                dnssecExpected: bool, enabled: bool, notes: string)

  datatype Row = Row(key: Key, payload: Entry)

  type Table = map<Key, Entry>

  /** A lookup compares the fields that are not empty or false in what it looks for. */
  predicate SameText(stored: string, wanted: string) { wanted == "" || stored == wanted }

  predicate SameFlag(stored: bool, wanted: bool) { wanted ==> stored }

  /** The lookup for payload p finds entry e under its key. */
  predicate Matches(e: Entry, p: Entry) {
    match (e, p)
    case (DomainEntry(_, _, _, _), DomainEntry(_, _, _, _)) =>
      SameText(e.owner, p.owner) && SameText(e.importance, p.importance) && SameFlag(e.enabled, p.enabled)
      && SameText(e.notes, p.notes)
    case (HostEntry(_, _, _, _, _, _, _, _), HostEntry(_, _, _, _, _, _, _, _)) =>
      SameText(e.source, p.source) && SameText(e.status, p.status) && SameFlag(e.allowWildcard, p.allowWildcard)
      && SameFlag(e.allowAxfr, p.allowAxfr) && SameFlag(e.allowRebind, p.allowRebind)
      && SameFlag(e.dnssecExpected, p.dnssecExpected) && SameFlag(e.enabled, p.enabled) && SameText(e.notes, p.notes)
    case _ => false
  }

  /** What an insert stores: a false `enabled` gives way to the column's default, which is true. */
  function Stored(p: Entry): Entry { p.(enabled := true) }

  function Fill(was: string, next: string): string { if was == "" then next else was }

  /** Critical takes over, high takes over from medium. */
  function Upgrade(was: string, next: string): string {
    if next == CRITICAL && was != CRITICAL then next
    else if next == HIGH && was == MEDIUM then next
    else was
  }

  /** The upgrade rules for an entry that was found. */
  function Merge(e: Entry, p: Entry): Entry {
    match (e, p)
    case (DomainEntry(_, _, _, _), DomainEntry(_, _, _, _)) =>
      DomainEntry(Fill(e.owner, p.owner), Upgrade(e.importance, p.importance), e.enabled || p.enabled, Fill(e.notes, p.notes))
    case (HostEntry(_, _, _, _, _, _, _, _), HostEntry(_, _, _, _, _, _, _, _)) =>
      e.(enabled := e.enabled || p.enabled, notes := Fill(e.notes, p.notes))
    case _ => e
  }

  /** What a statement or an import leaves, and whether it succeeded. */
  datatype Outcome = Outcome(table: Table, ok: bool)

  /** The lookup finds the row and the rules apply; or there is none and it is created; or the key is taken by a
      row the lookup did not find, and the insert fails. */
  function Upserted(t: Table, r: Row): Outcome {
    if r.key !in t then Outcome(t[r.key := Stored(r.payload)], true)
    else if Matches(t[r.key], r.payload) then Outcome(t[r.key := Merge(t[r.key], r.payload)], true)
    else Outcome(t, false)
  }

  /** Row by row, up to the first that fails. */
  function Import(t: Table, rows: seq<Row>): Outcome {
    if rows == [] then Outcome(t, true)
    else
      var before := Import(t, rows[..|rows| - 1]);
      if before.ok then Upserted(before.table, rows[|rows| - 1]) else before
  }

  function HostRow(item: ManifestItem, h: ManifestHost): Row {
    Row(HostKey(item.environment, item.domain, h.fqdn),
        HostEntry("manual", "draft", h.allowWildcard, h.allowAxfr, h.allowRebind, h.dnssecExpected, h.enabled, h.notes))
  }

  function DomainRow(item: ManifestItem): Row {
    Row(DomainKey(item.environment, item.domain), DomainEntry(item.owner, item.importance, item.enabled, item.notes))
  }

  function ItemRows(item: ManifestItem): seq<Row> {
    [DomainRow(item)] + seq(|item.keyHosts|, i requires 0 <= i < |item.keyHosts| => HostRow(item, item.keyHosts[i]))
  }

  function ManifestRows(items: seq<ManifestItem>): seq<Row> {
    if items == [] then [] else ManifestRows(items[..|items| - 1]) + ItemRows(items[|items| - 1])
  }

  // ---------- the laws of the upserts ----------

  /** An entry that was found already has all the rules could give it: they never change a row. */
  lemma UpgradesNeverAct(e: Entry, p: Entry)
    requires Matches(e, p)
    ensures Merge(e, p) == e
  {
  }

  lemma MatchesStored(p: Entry)
    ensures Matches(Stored(p), p)
  {
  }

  predicate Extends(t: Table, u: Table) { forall k :: k in t ==> k in u && u[k] == t[k] }

  lemma UpsertExtends(t: Table, r: Row)
    ensures Extends(t, Upserted(t, r).table)
    ensures Upserted(t, r).ok ==> r.key in Upserted(t, r).table && Matches(Upserted(t, r).table[r.key], r.payload)
    ensures r.key in t ==> Upserted(t, r).table == t
  {
    hide Merge, Stored;
    MatchesStored(r.payload);
    if r.key in t && Matches(t[r.key], r.payload) { UpgradesNeverAct(t[r.key], r.payload); }
  }

  /** No import changes or removes a row that is there. */
  lemma {:induction false} ImportExtends(t: Table, rows: seq<Row>)
    ensures Extends(t, Import(t, rows).table)
    decreases |rows|
  {
    hide Upserted;
    if rows != [] {
      ImportExtends(t, rows[..|rows| - 1]);
      UpsertExtends(Import(t, rows[..|rows| - 1]).table, rows[|rows| - 1]);
    }
  }

  /** Whatever a manifest says: a row that an import adds is enabled. */
  lemma {:induction false} AddedRowsAreEnabled(t: Table, rows: seq<Row>)
    ensures forall k :: k in Import(t, rows).table && k !in t ==> Import(t, rows).table[k].enabled
    decreases |rows|
  {
    hide Matches;
    if rows != [] {
      AddedRowsAreEnabled(t, rows[..|rows| - 1]);
    }
  }

  /** Importing the same rows into any table that extends the result changes nothing and ends the same way. */
  lemma {:induction false} ImportAgain(t: Table, rows: seq<Row>, v: Table)
    requires Extends(Import(t, rows).table, v)
    ensures Import(v, rows) == Outcome(v, Import(t, rows).ok)
    decreases |rows|
  {
    if rows != [] {
      var before, last := Import(t, rows[..|rows| - 1]), rows[|rows| - 1];
      UpsertExtends(before.table, last);
      ImportAgain(t, rows[..|rows| - 1], v);
      if before.ok {
        UpsertExtends(v, last);
        hide Matches, Merge, Stored;
      }
    }
  }

  /** Importing again changes nothing, and succeeds or fails as the first time. */
  lemma ImportTwice(t: Table, rows: seq<Row>)
    ensures Import(Import(t, rows).table, rows) == Import(t, rows)
  {
    hide Import;
    ImportAgain(t, rows, Import(t, rows).table);
  }

  lemma {:induction false} ImportConcat(t: Table, a: seq<Row>, b: seq<Row>)
    ensures Import(t, a + b) == if Import(t, a).ok then Import(Import(t, a).table, b) else Import(t, a)
    decreases |b|
  {
    hide Upserted;
    if b == [] {
      assert a + b == a;
    } else {
      assert (a + b)[..|a + b| - 1] == a + b[..|b| - 1];
      ImportConcat(t, a, b[..|b| - 1]);
    }
  }

  /** An import that was cut off, or failed, leaves no trace in the import that starts over from any point the
      first had passed: table and outcome are those of one whole import. */
  lemma CutOffImportLeavesNoTrace(t: Table, rows: seq<Row>, from: nat, cut: nat)
    requires from <= cut <= |rows| && Import(t, rows[..from]).ok
    ensures Import(Import(t, rows[..cut]).table, rows[from..]) == Import(t, rows)
  {
    hide Import, Extends;
    var start, again, rest := Import(t, rows[..from]).table, rows[from..cut], rows[cut..];
    var done := Import(t, rows[..cut]);
    assert rows[..cut] == rows[..from] + again;
    ImportConcat(t, rows[..from], again);
    ExtendsItself(done.table);
    ImportAgain(start, again, done.table);
    assert rows[from..] == again + rest;
    ImportConcat(done.table, again, rest);
    assert rows == rows[..cut] + rest;
    ImportConcat(t, rows[..cut], rest);
  }

  lemma ExtendsItself(t: Table)
    ensures Extends(t, t)
  {
  }

  // ---------- when an import succeeds ----------

  function FirstPayload(rows: seq<Row>, k: Key): Option<Entry> {
    if rows == [] then None
    else
      var before, last := FirstPayload(rows[..|rows| - 1], k), rows[|rows| - 1];
      if before.Some? then before else if last.key == k then Some(last.payload) else None
  }

  function Get(t: Table, k: Key): Option<Entry> { if k in t then Some(t[k]) else None }

  /** The entry under a key once a row with it has been imported: the stored one, or what the first row stores. */
  function Decisive(t: Table, rows: seq<Row>, k: Key): Option<Entry> {
    if k in t then Some(t[k]) else match FirstPayload(rows, k) case Some(p) => Some(Stored(p)) case None => None
  }

  lemma {:induction false} FirstPayloadOf(rows: seq<Row>, i: nat)
    requires i < |rows|
    ensures FirstPayload(rows, rows[i].key).Some?
    ensures FirstPayload(rows[..i], rows[i].key).Some? ==>
      FirstPayload(rows, rows[i].key) == FirstPayload(rows[..i], rows[i].key)
    ensures FirstPayload(rows[..i], rows[i].key).None? ==> FirstPayload(rows, rows[i].key) == Some(rows[i].payload)
    decreases |rows|
  {
    if i < |rows| - 1 {
      FirstPayloadOf(rows[..|rows| - 1], i);
      assert rows[..|rows| - 1][..i] == rows[..i];
    }
  }

  predicate Agrees(t: Table, rows: seq<Row>, r: Row) {
    var e := Decisive(t, rows, r.key);
    e.Some? && Matches(e.value, r.payload)
  }

  /** Every row agrees with what decides its key. Only the table and the rows are needed to tell. */
  predicate NoConflict(t: Table, rows: seq<Row>) {
    forall i :: 0 <= i < |rows| ==> Agrees(t, rows, rows[i])
  }

  predicate NoConflictUpTo(t: Table, rows: seq<Row>, n: nat)
    requires n <= |rows|
  {
    forall i :: 0 <= i < n ==> Agrees(t, rows, rows[i])
  }

  lemma {:induction false} ImportedEntries(t: Table, rows: seq<Row>, k: Key)
    requires Import(t, rows).ok
    ensures Get(Import(t, rows).table, k) == Decisive(t, rows, k)
    decreases |rows|
  {
    if rows != [] {
      var before, last := Import(t, rows[..|rows| - 1]), rows[|rows| - 1];
      ImportedEntries(t, rows[..|rows| - 1], k);
      UpsertExtends(before.table, last);
      hide Matches, Merge, Stored;
    }
  }

  /** One more row is imported exactly when it agrees with what decides its key. */
  lemma NextRowAgrees(t: Table, rows: seq<Row>, i: nat)
    requires i < |rows| && Import(t, rows[..i]).ok
    ensures Upserted(Import(t, rows[..i]).table, rows[i]).ok <==> Agrees(t, rows, rows[i])
  {
    hide Import, Matches, Merge, Stored;
    ImportedEntries(t, rows[..i], rows[i].key);
    FirstPayloadOf(rows, i);
    MatchesStored(rows[i].payload);
  }

  lemma {:induction false} ImportPrefix(t: Table, rows: seq<Row>, n: nat)
    requires n <= |rows|
    ensures Import(t, rows[..n]).ok <==> NoConflictUpTo(t, rows, n)
  {
    hide Agrees, Upserted;
    if n > 0 {
      ImportPrefix(t, rows, n - 1);
      assert rows[..n][..n - 1] == rows[..n - 1];
      if Import(t, rows[..n - 1]).ok {
        NextRowAgrees(t, rows, n - 1);
      }
    }
  }

  /** An import succeeds exactly when no row conflicts; it then leaves every stored row as it was and adds
      what the first row of every new key stores. */
  lemma ImportSucceedsExactly(t: Table, rows: seq<Row>)
    ensures Import(t, rows).ok <==> NoConflict(t, rows)
    ensures Import(t, rows).ok ==> forall k :: Get(Import(t, rows).table, k) == Decisive(t, rows, k)
  {
    hide Import, Agrees;
    assert rows[..|rows|] == rows;
    ImportPrefix(t, rows, |rows|);
    if Import(t, rows).ok {
      forall k ensures Get(Import(t, rows).table, k) == Decisive(t, rows, k) {
        ImportedEntries(t, rows, k);
      }
    }
  }

  predicate TextDiffers(stored: string, wanted: string) { wanted != "" && stored != wanted }

  /** The stored entry has another text than one the row gives, or lacks a flag the row sets. */
  predicate Differs(e: Entry, p: Entry) {
    || (e.DomainEntry? && p.DomainEntry?
        && (TextDiffers(e.owner, p.owner) || TextDiffers(e.importance, p.importance) || TextDiffers(e.notes, p.notes)
            || (p.enabled && !e.enabled)))
    || (e.HostEntry? && p.HostEntry?
        && (TextDiffers(e.source, p.source) || TextDiffers(e.status, p.status) || TextDiffers(e.notes, p.notes)
            || (p.allowWildcard && !e.allowWildcard) || (p.allowAxfr && !e.allowAxfr) || (p.allowRebind && !e.allowRebind)
            || (p.dnssecExpected && !e.dnssecExpected) || (p.enabled && !e.enabled)))
  }

  /** An import fails when a stored row differs from what it gives: a host approved since, a domain stored with
      another importance. When it names stored rows only, it fails for no other reason. */
  lemma ChangedRowsRefuse(t: Table, rows: seq<Row>)
    ensures (exists i :: 0 <= i < |rows| && rows[i].key in t && Differs(t[rows[i].key], rows[i].payload)) ==> !Import(t, rows).ok
    ensures (forall i :: 0 <= i < |rows| ==> rows[i].key in t && t[rows[i].key].DomainEntry? == rows[i].payload.DomainEntry?) ==>
      (Import(t, rows).ok <==> forall i :: 0 <= i < |rows| ==> !Differs(t[rows[i].key], rows[i].payload))
  {
    ImportSucceedsExactly(t, rows);
    hide Import;
    forall i | 0 <= i < |rows| && rows[i].key in t && t[rows[i].key].DomainEntry? == rows[i].payload.DomainEntry?
      ensures Agrees(t, rows, rows[i]) <==> !Differs(t[rows[i].key], rows[i].payload)
    {
    }
    forall i | 0 <= i < |rows| && rows[i].key in t && Differs(t[rows[i].key], rows[i].payload)
      ensures !Agrees(t, rows, rows[i])
    {
    }
  }

  // ---------- what an import stores ----------

  lemma {:induction false} FirstPayloadOnly(rows: seq<Row>, k: Key, p: Entry)
    requires exists r :: r in rows && r.key == k
    requires forall r :: r in rows && r.key == k ==> r.payload == p
    ensures FirstPayload(rows, k) == Some(p)
    decreases |rows|
  {
    var before, last := rows[..|rows| - 1], rows[|rows| - 1];
    assert forall r :: r in rows <==> r in before || r == last;
    if exists r :: r in before && r.key == k {
      FirstPayloadOnly(before, k, p);
    } else {
      FirstPayloadNone(before, k);
    }
  }

  lemma {:induction false} FirstPayloadNone(rows: seq<Row>, k: Key)
    requires forall r :: r in rows ==> r.key != k
    ensures FirstPayload(rows, k) == None
    decreases |rows|
  {
    if rows != [] {
      FirstPayloadNone(rows[..|rows| - 1], k);
    }
  }

  lemma {:induction false} FirstPayloadConcat(a: seq<Row>, b: seq<Row>, k: Key)
    ensures FirstPayload(a + b, k) == if FirstPayload(a, k).Some? then FirstPayload(a, k) else FirstPayload(b, k)
    decreases |b|
  {
    if b == [] {
      assert a + b == a;
    } else {
      assert (a + b)[..|a + b| - 1] == a + b[..|b| - 1];
      FirstPayloadConcat(a, b[..|b| - 1], k);
    }
  }

  lemma ItemKeys(item: ManifestItem)
    ensures forall r :: r in ItemRows(item) ==> r.key.environment == item.environment && r.key.domain == item.domain
  {
  }

  /** The first item for a domain decides what is stored under the domain's keys. */
  lemma {:induction false} FirstItemDecides(items: seq<ManifestItem>, i: nat, k: Key, p: Entry)
    requires i < |items| && FirstPayload(ItemRows(items[i]), k) == Some(p)
    requires forall j :: 0 <= j < i ==> items[j].domain != k.domain
    ensures FirstPayload(ManifestRows(items), k) == Some(p)
    decreases |items|
  {
    hide ItemRows, FirstPayload;
    var n := |items| - 1;
    FirstPayloadConcat(ManifestRows(items[..n]), ItemRows(items[n]), k);
    if i < n {
      FirstItemDecides(items[..n], i, k, p);
    } else {
      NoItemDecides(items[..n], k);
    }
  }

  lemma {:induction false} NoItemDecides(items: seq<ManifestItem>, k: Key)
    requires forall j :: 0 <= j < |items| ==> items[j].domain != k.domain
    ensures FirstPayload(ManifestRows(items), k) == None
    decreases |items|
  {
    if items != [] {
      var n := |items| - 1;
      NoItemDecides(items[..n], k);
      FirstPayloadConcat(ManifestRows(items[..n]), ItemRows(items[n]), k);
      ItemKeys(items[n]);
      hide ItemRows;
      FirstPayloadNone(ItemRows(items[n]), k);
    }
  }

  /** A host that is the first of its name is kept with all it says. */
  lemma {:induction false} FirstOfNameKept(hosts: seq<ManifestHost>, j: nat)
    requires j < |hosts| && NormName(hosts[j].fqdn) != ""
    requires forall m :: 0 <= m < j ==> NormName(hosts[m].fqdn) != NormName(hosts[j].fqdn)
    ensures hosts[j].(fqdn := NormName(hosts[j].fqdn)) in KeptHosts(hosts)
    decreases |hosts|
  {
    hide NormName;
    var n := |hosts| - 1;
    if j < n {
      FirstOfNameKept(hosts[..n], j);
    } else {
      KeptHostsRight(hosts[..n]);
      assert NormName(hosts[j].fqdn) !in Names(KeptHosts(hosts[..n]));
    }
  }

  lemma RowsOfItem(item: ManifestItem)
    ensures |ItemRows(item)| == 1 + |item.keyHosts| && ItemRows(item)[0].key.DomainKey?
    ensures forall m :: 0 <= m < |item.keyHosts| ==> ItemRows(item)[m + 1] == HostRow(item, item.keyHosts[m])
  {
  }

  lemma RowOfHost(item: ManifestItem, h: ManifestHost)
    ensures HostRow(item, h).key == HostKey(item.environment, item.domain, h.fqdn)
  {
  }

  /** Among distinct hosts each decides what is stored under its key. */
  lemma DistinctHostDecides(item: ManifestItem, h: ManifestHost)
    requires h in item.keyHosts
    requires forall i, j :: 0 <= i < j < |item.keyHosts| ==> item.keyHosts[i].fqdn != item.keyHosts[j].fqdn
    ensures FirstPayload(ItemRows(item), HostKey(item.environment, item.domain, h.fqdn)) == Some(HostRow(item, h).payload)
  {
    RowsOfItem(item);
    RowOfHost(item, h);
    hide ItemRows, HostRow, FirstPayload;
    var rows, k := ItemRows(item), HostKey(item.environment, item.domain, h.fqdn);
    var j :| 0 <= j < |item.keyHosts| && item.keyHosts[j] == h;
    assert rows[j + 1].key == k;
    forall r | r in rows && r.key == k ensures r.payload == HostRow(item, h).payload {
      var m :| 0 <= m < |rows| && rows[m] == r;
      assert rows[m] == HostRow(item, item.keyHosts[m - 1]);
      RowOfHost(item, item.keyHosts[m - 1]);
    }
    FirstPayloadOnly(rows, k, HostRow(item, h).payload);
  }

  /** The rows of a normalised item store, under the key of one of its hosts, what that host says. */
  lemma HostDecides(item: ManifestItem, h: ManifestHost)
    requires h in NormalItem(item).keyHosts
    ensures var t := NormalItem(item); FirstPayload(ItemRows(t), HostKey(t.environment, t.domain, h.fqdn)) == Some(HostRow(t, h).payload)
  {
    hide NormalItem, HostRow, ItemRows, FirstPayload;
    NormalHostsRight(item);
    DistinctHostDecides(NormalItem(item), h);
  }

  /** No earlier item is for the same domain. */
  predicate FirstOfItsDomain(items: seq<ManifestItem>, i: nat)
    requires i < |items|
  {
    forall m :: 0 <= m < i ==> NormName(items[m].domain) != NormName(items[i].domain)
  }

  lemma NewKeyStored(t: Table, items: seq<ManifestItem>, i: nat, k: Key, p: Entry)
    requires i < |items| && FirstOfItsDomain(items, i) && Import(t, ManifestRows(Normalized(items))).ok
    requires k !in t && k.domain == NormName(items[i].domain) && FirstPayload(ItemRows(NormalItem(items[i])), k) == Some(p)
    ensures Get(Import(t, ManifestRows(Normalized(items))).table, k) == Some(Stored(p))
  {
    hide NormName, ItemRows, Import, ManifestRows;
    FirstItemDecides(Normalized(items), i, k, p);
    ImportedEntries(t, ManifestRows(Normalized(items)), k);
  }

  /** What a successful import stores for a new domain: owner, importance (high unless given) and notes of the
      first item for it; the domain is enabled. */
  lemma NewDomainStored(t: Table, items: seq<ManifestItem>, i: nat)
    requires i < |items| && FirstOfItsDomain(items, i) && Import(t, ManifestRows(Normalized(items))).ok
    requires DomainKey(EnvironmentOf(items[i]), NormName(items[i].domain)) !in t
    ensures Get(Import(t, ManifestRows(Normalized(items))).table, DomainKey(EnvironmentOf(items[i]), NormName(items[i].domain)))
         == Some(DomainEntry(items[i].owner, if items[i].importance == "" then "high" else items[i].importance, true, items[i].notes))
  {
    hide NormName, NormalHosts, Import, ManifestRows;
    var item := NormalItem(items[i]);
    var k := DomainKey(item.environment, item.domain);
    assert ItemRows(item)[0] == DomainRow(item);
    FirstPayloadOnly(ItemRows(item), k, DomainRow(item).payload);
    NewKeyStored(t, items, i, k, DomainRow(item).payload);
  }

  /** What it stores for a new host: a manual draft, with the flags and notes of the first mention of the host in
      the first item for its domain; the host is enabled. */
  lemma NewHostStored(t: Table, items: seq<ManifestItem>, i: nat, j: nat)
    requires i < |items| && FirstOfItsDomain(items, i) && Import(t, ManifestRows(Normalized(items))).ok
    requires j < |items[i].keyHosts| && NormName(items[i].keyHosts[j].fqdn) != ""
    requires forall m :: 0 <= m < j ==> NormName(items[i].keyHosts[m].fqdn) != NormName(items[i].keyHosts[j].fqdn)
    requires HostKey(EnvironmentOf(items[i]), NormName(items[i].domain), NormName(items[i].keyHosts[j].fqdn)) !in t
    ensures var h := items[i].keyHosts[j];
      Get(Import(t, ManifestRows(Normalized(items))).table,
          HostKey(EnvironmentOf(items[i]), NormName(items[i].domain), NormName(h.fqdn)))
      == Some(HostEntry("manual", "draft", h.allowWildcard, h.allowAxfr, h.allowRebind, h.dnssecExpected, true, h.notes))
  {
    hide NormName, Import, ManifestRows;
    FirstOfNameKept(items[i].keyHosts, j);
    var item, h := NormalItem(items[i]), items[i].keyHosts[j].(fqdn := NormName(items[i].keyHosts[j].fqdn));
    assert h in item.keyHosts;
    HostDecides(items[i], h);
    NewKeyStored(t, items, i, HostKey(item.environment, item.domain, h.fqdn), HostRow(item, h).payload);
  }

  /** And for the apex when the item does not name it. */
  lemma NewApexStored(t: Table, items: seq<ManifestItem>, i: nat)
    requires i < |items| && FirstOfItsDomain(items, i) && Import(t, ManifestRows(Normalized(items))).ok
    requires NormName(items[i].domain) != ""
    requires forall h :: h in items[i].keyHosts ==> NormName(h.fqdn) != NormName(items[i].domain)
    requires HostKey(EnvironmentOf(items[i]), NormName(items[i].domain), NormName(items[i].domain)) !in t
    ensures Get(Import(t, ManifestRows(Normalized(items))).table,
                HostKey(EnvironmentOf(items[i]), NormName(items[i].domain), NormName(items[i].domain)))
      == Some(HostEntry("manual", "draft", false, false, false, false, true, "manifest auto apex"))
  {
    hide NormName, Import, ManifestRows;
    KeptHostsRight(items[i].keyHosts);
    var item, h := NormalItem(items[i]), AutoApex(NormName(items[i].domain));
    assert h in item.keyHosts by { hide KeptHosts; }
    HostDecides(items[i], h);
    NewKeyStored(t, items, i, HostKey(item.environment, item.domain, h.fqdn), HostRow(item, h).payload);
  }

  /** A manifest item is about the key: of its domain, or of the apex or a host it names. */
  predicate About(item: ManifestItem, k: Key) {
    && k.environment == EnvironmentOf(item) && k.domain == NormName(item.domain)
    && (k.HostKey? ==> k.fqdn == k.domain || (k.fqdn != "" && exists h :: h in item.keyHosts && NormName(h.fqdn) == k.fqdn))
  }

  predicate SomeAbout(items: seq<ManifestItem>, k: Key) { exists i :: 0 <= i < |items| && About(items[i], k) }

  predicate HasKey(rows: seq<Row>, k: Key) { exists r :: r in rows && r.key == k }

  lemma RowKeysExactly(item: ManifestItem, k: Key)
    ensures HasKey(ItemRows(item), k) <==>
      k.environment == item.environment && k.domain == item.domain && (k.HostKey? ==> k.fqdn in Names(item.keyHosts))
  {
    RowsOfItem(item);
    ItemKeys(item);
    assert ItemRows(item)[0] == DomainRow(item);
    hide ItemRows;
    if HasKey(ItemRows(item), k) && k.HostKey? {
      var m :| 0 <= m < |ItemRows(item)| && ItemRows(item)[m].key == k;
      assert ItemRows(item)[m] == HostRow(item, item.keyHosts[m - 1]);
    }
    if k.HostKey? && k.fqdn in Names(item.keyHosts) {
      var m :| 0 <= m < |item.keyHosts| && item.keyHosts[m].fqdn == k.fqdn;
      assert ItemRows(item)[m + 1] == HostRow(item, item.keyHosts[m]);
    }
  }

  lemma ItemKeysExactly(item: ManifestItem, k: Key)
    ensures HasKey(ItemRows(NormalItem(item)), k) <==> About(item, k)
  {
    NormalHostsRight(item);
    RowKeysExactly(NormalItem(item), k);
    hide ItemRows, NormName, NormalHosts, Names, HasKey;
  }

  /** An import is about exactly the domains of its items, their apexes and the hosts they name. */
  lemma {:induction false} ManifestKeysExactly(items: seq<ManifestItem>, k: Key)
    ensures HasKey(ManifestRows(Normalized(items)), k) <==> SomeAbout(items, k)
    decreases |items|
  {
    hide ItemRows, NormalItem, About;
    if items != [] {
      var n := |items| - 1;
      ManifestKeysExactly(items[..n], k);
      ItemKeysExactly(items[n], k);
      assert Normalized(items)[..n] == Normalized(items[..n]);
      var a, b := ManifestRows(Normalized(items[..n])), ItemRows(NormalItem(items[n]));
      assert ManifestRows(Normalized(items)) == a + b;
      assert forall r :: r in a + b <==> r in a || r in b;
      assert forall i :: 0 <= i < n ==> items[..n][i] == items[i];
    }
  }

  // ---------- the import, row by row ----------

  class TrustTables {
    var table: Table

    /** FirstOrCreate, then an update when the upgrade rules changed something. */
    method Upsert(r: Row) returns (ok: bool)
      modifies this
      ensures Outcome(table, ok) == Upserted(old(table), r)
    {
      if r.key !in table {
        table := table[r.key := Stored(r.payload)];
        return true;
      }
      if !Matches(table[r.key], r.payload) {
        return false;
      }
      var merged := Merge(table[r.key], r.payload);
      if merged != table[r.key] {
        table := table[r.key := merged];
      }
      return true;
    }

    method ImportItem(item: ManifestItem) returns (ok: bool)
      modifies this
      ensures Outcome(table, ok) == Import(old(table), ItemRows(item))
    {
      hide Upserted;
      var rows := ItemRows(item);
      assert rows[..1] == [rows[0]] && rows[..1][..0] == [];
      ok := Upsert(DomainRow(item));
      if !ok {
        ImportStops(old(table), rows, 1);
        return;
      }
      for k := 0 to |item.keyHosts|
        invariant Outcome(table, true) == Import(old(table), rows[..k + 1])
      {
        assert rows[k + 1] == HostRow(item, item.keyHosts[k]);
        assert rows[..k + 2][..k + 1] == rows[..k + 1];
        ok := Upsert(HostRow(item, item.keyHosts[k]));
        if !ok {
          ImportStops(old(table), rows, k + 2);
          return;
        }
      }
      assert rows[..|item.keyHosts| + 1] == rows;
    }

    method ImportItems(items: seq<ManifestItem>) returns (ok: bool)
      modifies this
      ensures Outcome(table, ok) == Import(old(table), ManifestRows(items))
    {
      hide Import, ItemRows;
      ImportNothing(table);
      for k := 0 to |items|
        invariant Outcome(table, true) == Import(old(table), ManifestRows(items[..k]))
      {
        assert items[..k + 1][..k] == items[..k];
        ok := ImportItem(items[k]);
        ImportConcat(old(table), ManifestRows(items[..k]), ItemRows(items[k]));
        if !ok {
          ManifestStops(old(table), items, k + 1);
          return;
        }
      }
      assert items[..|items|] == items;
      ok := true;
    }

    /** A manifest that is not accepted changes nothing. An accepted one has the effect of its rows: for every
        normalised item its domain, then its hosts, up to the first conflict, which ends it with an error; it
        ends without one exactly when no row conflicts. */
    method ImportTrustManifest(items: seq<ManifestItem>) returns (e: Option<Error>)
      modifies this
      ensures !(exists env :: AllAcceptable(items, env)) ==>
        table == old(table) && e.Some? && e.value != DuplicateKey && exists k: nat :: Faulty(items, k, e.value)
      ensures (exists env :: AllAcceptable(items, env)) ==>
        var rows := ManifestRows(Normalized(items));
        && table == Import(old(table), rows).table
        && e == if NoConflict(old(table), rows) then None else Some(DuplicateKey)
    {
      hide AllAcceptable, Acceptable, Faulty, NormalItem, Import, ManifestRows, NoConflict;
      var r := NormalizeManifest(items);
      if r.Err? { return Some(r.error); }
      assert r.value.0 == Normalized(items);
      var ok := ImportItems(r.value.0);
      ImportSucceedsExactly(old(table), ManifestRows(Normalized(items)));
      e := if ok then None else Some(DuplicateKey);
    }
  }

  lemma ImportStops(t: Table, rows: seq<Row>, n: nat)
    requires n <= |rows| && !Import(t, rows[..n]).ok
    ensures Import(t, rows) == Import(t, rows[..n])
  {
    hide Import;
    assert rows == rows[..n] + rows[n..];
    ImportConcat(t, rows[..n], rows[n..]);
  }

  lemma {:induction false} ManifestStops(t: Table, items: seq<ManifestItem>, n: nat)
    requires n <= |items| && !Import(t, ManifestRows(items[..n])).ok
    ensures Import(t, ManifestRows(items)) == Import(t, ManifestRows(items[..n]))
    decreases |items|
  {
    hide Import, ItemRows;
    if n == |items| {
      assert items[..n] == items;
    } else {
      var before := items[..|items| - 1];
      assert before[..n] == items[..n];
      ManifestStops(t, before, n);
      ImportConcat(t, ManifestRows(before), ItemRows(items[|items| - 1]));
    }
  }

  function Normalized(items: seq<ManifestItem>): seq<ManifestItem> {
    seq(|items|, i requires 0 <= i < |items| => NormalItem(items[i]))
  }

  lemma ImportNothing(t: Table)
    ensures Import(t, ManifestRows([])) == Outcome(t, true)
  {
  }
}
