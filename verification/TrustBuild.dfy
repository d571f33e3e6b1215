/** Build jobs with import_only (RunTrustBuildJob and RetryTrustBuildJob of internal/service/trust.go): a file
    is imported in chunks with a checkpoint after each, by any number of runs that may overlap, fail or be cut
    off between any two database statements. */
module TrustBuild {
  import opened Text
  import opened TrustImport
  import opened Wrappers

  // ---------- the rows of a file ----------

  /** buildChunkManifest: one item per line that is not empty when normalised. */
  function LineItems(lines: seq<string>): seq<ManifestItem> {
    if lines == [] then []
    else
      var before, domain := LineItems(lines[..|lines| - 1]), NormName(lines[|lines| - 1]);
      if domain == "" then before else before + [ManifestItem(domain, "", HIGH, PROD, true, "", [])]
  }

  function RowsOf(lines: seq<string>): seq<Row> { ManifestRows(Normalized(LineItems(lines))) }

  /** The import of these lines refuses none of them. A domain is normalised a second time there, which can
      leave nothing of a name with white space between dots. */
  predicate Accepted(lines: seq<string>) {
    forall i :: 0 <= i < |LineItems(lines)| ==> NormName(LineItems(lines)[i].domain) != ""
  }

  lemma {:induction false} LineItemsShape(lines: seq<string>)
    ensures forall i :: 0 <= i < |LineItems(lines)| ==>
      LineItems(lines)[i] == ManifestItem(LineItems(lines)[i].domain, "", HIGH, PROD, true, "", [])
    decreases |lines|
  {
    hide NormName;
    if lines != [] {
      LineItemsShape(lines[..|lines| - 1]);
    }
  }

  /** Accepted lines are those whose manifest ImportTrustManifest accepts. */
  lemma AcceptedRight(lines: seq<string>)
    ensures Accepted(lines) <==> exists env :: AllAcceptable(LineItems(lines), env)
  {
    hide NormName, LineItems;
    LineItemsShape(lines);
    if Accepted(lines) {
      assert AllAcceptable(LineItems(lines), PROD);
    }
  }

  lemma {:induction false} LineItemsConcat(a: seq<string>, b: seq<string>)
    ensures LineItems(a + b) == LineItems(a) + LineItems(b)
    decreases |b|
  {
    hide NormName;
    if b == [] {
      assert a + b == a;
    } else {
      assert (a + b)[..|a + b| - 1] == a + b[..|b| - 1];
      LineItemsConcat(a, b[..|b| - 1]);
    }
  }

  lemma {:induction false} ManifestRowsConcat(a: seq<ManifestItem>, b: seq<ManifestItem>)
    ensures ManifestRows(a + b) == ManifestRows(a) + ManifestRows(b)
    decreases |b|
  {
    hide ItemRows;
    if b == [] {
      assert a + b == a;
    } else {
      assert (a + b)[..|a + b| - 1] == a + b[..|b| - 1];
      ManifestRowsConcat(a, b[..|b| - 1]);
    }
  }

  lemma RowsConcat(a: seq<string>, b: seq<string>)
    ensures RowsOf(a + b) == RowsOf(a) + RowsOf(b)
  {
    LineItemsConcat(a, b);
    hide LineItems, ManifestRows, NormalItem;
    assert Normalized(LineItems(a) + LineItems(b)) == Normalized(LineItems(a)) + Normalized(LineItems(b));
    ManifestRowsConcat(Normalized(LineItems(a)), Normalized(LineItems(b)));
  }

  /** All rows of a build carry the same payload for the same key. */
  function PayloadOf(k: Key): Entry {
    if k.DomainKey? then DomainEntry("", HIGH, true, "")
    else HostEntry("manual", "draft", false, false, false, false, true, "manifest auto apex")
  }

  /** What is stored for a new key is the payload itself, and the lookup finds it. */
  lemma PayloadStored(k: Key)
    ensures Stored(PayloadOf(k)) == PayloadOf(k) && Matches(PayloadOf(k), PayloadOf(k))
  {
  }

  lemma {:induction false} ManifestRowsUniform(items: seq<ManifestItem>)
    requires forall i :: 0 <= i < |items| ==>
      items[i] == NormalItem(ManifestItem(items[i].domain, "", HIGH, PROD, true, "", [])).(domain := items[i].domain,
                    keyHosts := [AutoApex(items[i].domain)])
    ensures forall r :: r in ManifestRows(items) ==> r.payload == PayloadOf(r.key)
    decreases |items|
  {
    hide NormName;
    if items != [] {
      ManifestRowsUniform(items[..|items| - 1]);
    }
  }

  lemma RowsUniform(lines: seq<string>)
    ensures forall r :: r in RowsOf(lines) ==> r.payload == PayloadOf(r.key)
  {
    hide NormName, LineItems, ManifestRows;
    LineItemsShape(lines);
    var items := Normalized(LineItems(lines));
    forall i | 0 <= i < |items| ensures items[i].keyHosts == [AutoApex(items[i].domain)] {
      assert KeptHosts([]) == [];
    }
    ManifestRowsUniform(items);
  }

  /** The key is that of the line's domain in the production environment, or of its apex. */
  predicate OfLine(line: string, k: Key) {
    && NormName(line) != "" && k.environment == "prod" && k.domain == NormName(NormName(line))
    && (k.HostKey? ==> k.fqdn == k.domain)
  }

  predicate SomeLine(lines: seq<string>, k: Key) { exists j :: 0 <= j < |lines| && OfLine(lines[j], k) }

  lemma {:induction false} LinesOfItems(lines: seq<string>, k: Key)
    ensures SomeAbout(LineItems(lines), k) <==> SomeLine(lines, k)
    decreases |lines|
  {
    hide NormName;
    if lines != [] {
      var n := |lines| - 1;
      LinesOfItems(lines[..n], k);
      assert forall j :: 0 <= j < n ==> lines[..n][j] == lines[j];
      var before, domain := LineItems(lines[..n]), NormName(lines[n]);
      var items := LineItems(lines);
      assert items == if domain == "" then before else before + [ManifestItem(domain, "", HIGH, PROD, true, "", [])];
      assert forall i :: 0 <= i < |before| ==> items[i] == before[i];
      if domain != "" {
        assert About(items[|before|], k) <==> OfLine(lines[n], k);
      }
      hide About, OfLine, LineItems;
    }
  }

  /** A build is about exactly the domains of its lines and their apexes. */
  lemma FileKeysExactly(lines: seq<string>, k: Key)
    ensures HasKey(RowsOf(lines), k) <==> SomeLine(lines, k)
  {
    ManifestKeysExactly(LineItems(lines), k);
    LinesOfItems(lines, k);
    hide LineItems, ManifestRows, SomeAbout, SomeLine, HasKey;
  }

  // ---------- the chunks ----------

  /** A job's input: the lines (after the limit) and the chunk size. */
  datatype Job = Job(lines: seq<string>, chunkSize: nat) {
    predicate Valid() { chunkSize >= 1 }

    function Total(): nat
      requires Valid()
    {
      (|lines| + chunkSize - 1) / chunkSize
    }

    /** Where chunk i starts. */
    function Start(i: nat): nat { if i * chunkSize <= |lines| then i * chunkSize else |lines| }

    function Chunk(i: nat): seq<string> { lines[Start(i)..if Start(i + 1) < Start(i) then Start(i) else Start(i + 1)] }

    function Before(i: nat): seq<string> { lines[..Start(i)] }
  }

  /** The chunks partition the lines: chunk i starts where the chunks before it end, none is empty, and after
      the last nothing is left. */
  lemma ChunksPartition(job: Job, i: nat)
    requires job.Valid()
    ensures job.Before(0) == [] && job.Before(job.Total()) == job.lines
    ensures i < job.Total() ==> job.Before(i + 1) == job.Before(i) + job.Chunk(i) && job.Chunk(i) != []
    ensures i < job.Total() ==> |job.Chunk(i)| <= job.chunkSize
  {
    var n, c, total := |job.lines|, job.chunkSize, job.Total();
    assert total * c >= n by { CeilCovers(n, c); }
    if i < total {
      CeilLast(n, c, i);
      assert (i + 1) * c == i * c + c;
    }
  }

  lemma CeilCovers(n: nat, c: nat)
    requires c >= 1
    ensures (n + c - 1) / c * c >= n
  {
    var q, x := (n + c - 1) / c, n + c - 1;
    assert x == q * c + x % c;
  }

  lemma CeilLast(n: nat, c: nat, i: nat)
    requires c >= 1 && i < (n + c - 1) / c
    ensures i * c < n
  {
    var q, x := (n + c - 1) / c, n + c - 1;
    assert x == q * c + x % c;
    assert i * c <= (q - 1) * c == q * c - c;
  }

  // ---------- runs ----------

  datatype Status = PendingJob | RunningJob | CompletedJob | FailedJob

  /** A run: not started, past the load of the job row, at row `row` of chunk `chunk` (`creating` when its lookup
      found nothing and the insert is next), or over. */
  datatype Run = Spawned | Loaded(chunk: nat) | At(chunk: nat, row: nat, creating: bool) | Over

  datatype State = State(status: Status, processed: nat, table: Table, runs: seq<Run>)

  /** Creating the job starts the first run. */
  function Init(table: Table): State { State(PendingJob, 0, table, [Spawned]) }

  /** Step(w): the next statement of run w. Fail: a statement fails for a reason of its own and the run marks the
      job failed. Crash: the process ends. */
  datatype Action = Retry | Step(w: nat) | Fail(w: nat) | Crash(w: nat)

  predicate Live(s: State, w: nat) { w < |s.runs| && s.runs[w] != Over }

  /** A retry is refused while the job is running. */
  predicate Enabled(s: State, a: Action) {
    match a
    case Retry => s.status != RunningJob
    case Step(w) => Live(s, w)
    case Fail(w) => Live(s, w)
    case Crash(w) => Live(s, w)
  }

  function ChunkRows(job: Job, i: nat): seq<Row> { RowsOf(job.Chunk(i)) }

  function Goto(s: State, w: nat, r: Run): State
    requires w < |s.runs|
  {
    s.(runs := s.runs[w := r])
  }

  function Apply(job: Job, s: State, a: Action): State
    requires job.Valid() && Enabled(s, a)
  {
    match a
    case Retry => s.(status := PendingJob, runs := s.runs + [Spawned])
    case Fail(w) => Goto(s, w, Over).(status := FailedJob)
    case Crash(w) => Goto(s, w, Over)
    case Step(w) =>
      match s.runs[w]
      case Spawned => Goto(s, w, Loaded(s.processed))
      case Loaded(m) => Goto(s, w, At(m, 0, false)).(status := RunningJob)
      case At(i, j, creating) =>
        if i >= job.Total() then Goto(s, w, Over).(status := CompletedJob)
        else if !Accepted(job.Chunk(i)) then Goto(s, w, Over).(status := FailedJob)
        else if j >= |ChunkRows(job, i)| then Goto(s, w, At(i + 1, 0, false)).(processed := i + 1)
        else UpsertStep(s, w, i, j, creating, ChunkRows(job, i)[j])
  }

  /** The lookup; then, when it found nothing, the insert, which fails the run if the key is taken: by a row the
      lookup does not match, or by one that another run has inserted since. What the lookup finds is never
      changed (UpgradesNeverAct). */
  function UpsertStep(s: State, w: nat, i: nat, j: nat, creating: bool, r: Row): State
    requires w < |s.runs|
  {
    if !creating && r.key in s.table && Matches(s.table[r.key], r.payload) then Goto(s, w, At(i, j + 1, false))
    else if !creating then Goto(s, w, At(i, j, true))
    else if r.key in s.table then Goto(s, w, Over).(status := FailedJob)
    else Goto(s, w, At(i, j + 1, false)).(table := s.table[r.key := Stored(r.payload)])
  }

  ghost predicate Runs(job: Job, s: State, acts: seq<Action>, t: State)
    requires job.Valid()
    decreases |acts|
  {
    if acts == [] then s == t
    else Enabled(s, acts[0]) && Runs(job, Apply(job, s, acts[0]), acts[1..], t)
  }

  // ---------- what every state keeps ----------

  /** What the import of the file leaves under a key: the stored entry, or else the file's. */
  function Goal(orig: Table, k: Key): Entry { if k in orig then orig[k] else PayloadOf(k) }

  /** The key holds its goal, and the file's lookup finds it. */
  predicate Reached(orig: Table, t: Table, k: Key) { k in t && t[k] == Goal(orig, k) && Matches(t[k], PayloadOf(k)) }

  ghost predicate AllReached(orig: Table, t: Table, rows: seq<Row>) {
    forall r :: r in rows ==> Reached(orig, t, r.key)
  }

  /** The table is as it was, but for rows of the file that were missing and now hold their goal. */
  ghost predicate Between(job: Job, orig: Table, t: Table) {
    forall k :: Get(t, k) == Get(orig, k) || (HasKey(RowsOf(job.lines), k) && k !in orig && Reached(orig, t, k))
  }

  ghost predicate AcceptedBefore(job: Job, i: nat) { forall c :: 0 <= c < i ==> Accepted(job.Chunk(c)) }

  ghost predicate DoneBefore(job: Job, orig: Table, t: Table, i: nat)
    requires job.Valid()
  {
    i <= job.Total() && AcceptedBefore(job, i) && AllReached(orig, t, RowsOf(job.Before(i)))
  }

  ghost predicate RunOk(job: Job, orig: Table, t: Table, r: Run)
    requires job.Valid()
  {
    match r
    case Loaded(m) => DoneBefore(job, orig, t, m)
    case At(i, j, creating) =>
      && DoneBefore(job, orig, t, i)
      && (i == job.Total() ==> j == 0 && !creating)
      && j <= |ChunkRows(job, i)| && AllReached(orig, t, ChunkRows(job, i)[..j])
      && (creating ==> j < |ChunkRows(job, i)| && Accepted(job.Chunk(i)))
    case _ => true
  }

  ghost predicate Inv(job: Job, orig: Table, s: State)
    requires job.Valid()
  {
    && Between(job, orig, s.table)
    && DoneBefore(job, orig, s.table, s.processed)
    && (s.status == CompletedJob ==> DoneBefore(job, orig, s.table, job.Total()))
    && (forall w :: 0 <= w < |s.runs| ==> RunOk(job, orig, s.table, s.runs[w]))
  }

  // ---------- one statement ----------

  lemma DoneStays(job: Job, orig: Table, t: Table, k: Key, e: Entry, i: nat)
    requires job.Valid() && k !in t
    ensures DoneBefore(job, orig, t, i) ==> DoneBefore(job, orig, t[k := e], i)
  {
    hide RowsOf, Accepted, Matches, Goal, PayloadOf;
  }

  lemma RunStays(job: Job, orig: Table, t: Table, k: Key, e: Entry, r: Run)
    requires job.Valid() && k !in t
    ensures RunOk(job, orig, t, r) ==> RunOk(job, orig, t[k := e], r)
  {
    hide RowsOf, Accepted, Matches, Goal, PayloadOf, DoneBefore;
    match r
    case Loaded(m) => DoneStays(job, orig, t, k, e, m);
    case At(i, _, _) => DoneStays(job, orig, t, k, e, i);
    case _ =>
  }

  /** Every write to the table adds a missing row of the file. */
  lemma AddingKeeps(job: Job, orig: Table, t: Table, k: Key)
    requires Between(job, orig, t) && HasKey(RowsOf(job.lines), k) && k !in t
    ensures k !in orig && Reached(orig, t[k := PayloadOf(k)], k) && Between(job, orig, t[k := PayloadOf(k)])
  {
    hide RowsOf, PayloadOf, Matches, HasKey, Between;
    PayloadStored(k);
    BetweenAt(job, orig, t, k);
    var u := t[k := PayloadOf(k)];
    forall g ensures Get(u, g) == Get(orig, g) || (HasKey(RowsOf(job.lines), g) && g !in orig && Reached(orig, u, g)) {
      BetweenAt(job, orig, t, g);
    }
    BetweenFrom(job, orig, u);
  }

  lemma BetweenAt(job: Job, orig: Table, t: Table, k: Key)
    requires Between(job, orig, t)
    ensures Get(t, k) == Get(orig, k) || (HasKey(RowsOf(job.lines), k) && k !in orig && Reached(orig, t, k))
  {
  }

  lemma BetweenFrom(job: Job, orig: Table, t: Table)
    requires forall k :: Get(t, k) == Get(orig, k) || (HasKey(RowsOf(job.lines), k) && k !in orig && Reached(orig, t, k))
    ensures Between(job, orig, t)
  {
    hide RowsOf, Get, HasKey, Reached;
  }

  lemma ChunkRowInFile(job: Job, i: nat, j: nat)
    requires job.Valid() && i < job.Total() && j < |ChunkRows(job, i)|
    ensures HasKey(RowsOf(job.lines), ChunkRows(job, i)[j].key)
    ensures ChunkRows(job, i)[j].payload == PayloadOf(ChunkRows(job, i)[j].key)
  {
    hide RowsOf;
    ChunksPartition(job, i);
    var a, b := job.lines[..job.Start(i + 1)], job.lines[job.Start(i + 1)..];
    assert job.lines == a + b;
    RowsConcat(a, b);
    RowsConcat(job.Before(i), job.Chunk(i));
    RowsUniform(job.Chunk(i));
    var r := ChunkRows(job, i)[j];
    assert r in RowsOf(a);
    assert r in RowsOf(job.lines);
  }

  lemma BeforeNext(job: Job, orig: Table, t: Table, i: nat)
    requires job.Valid() && i < job.Total() && DoneBefore(job, orig, t, i) && Accepted(job.Chunk(i))
    requires AllReached(orig, t, ChunkRows(job, i))
    ensures DoneBefore(job, orig, t, i + 1)
  {
    hide RowsOf, Accepted;
    ChunksPartition(job, i);
    RowsConcat(job.Before(i), job.Chunk(i));
  }

  lemma AdvanceKeeps(job: Job, orig: Table, t: Table, i: nat, j: nat)
    requires job.Valid() && i < job.Total() && j < |ChunkRows(job, i)| && DoneBefore(job, orig, t, i)
    requires AllReached(orig, t, ChunkRows(job, i)[..j]) && Reached(orig, t, ChunkRows(job, i)[j].key)
    ensures RunOk(job, orig, t, At(i, j + 1, false))
  {
    hide RowsOf, Reached, DoneBefore;
    var rows := ChunkRows(job, i);
    assert rows[..j + 1] == rows[..j] + [rows[j]];
  }

  /** A run inside a chunk, unpacked. */
  lemma InsideChunk(job: Job, orig: Table, t: Table, i: nat, j: nat, creating: bool)
    requires job.Valid() && i < job.Total() && j < |ChunkRows(job, i)| && RunOk(job, orig, t, At(i, j, creating))
    ensures DoneBefore(job, orig, t, i) && AllReached(orig, t, ChunkRows(job, i)[..j])
    ensures Accepted(job.Chunk(i)) ==> RunOk(job, orig, t, At(i, j, true))
  {
    hide RowsOf, AllReached, DoneBefore, Accepted;
  }

  /** What one step of an upsert does, whatever the other runs have done since the lookup. */
  lemma UpsertReaches(job: Job, orig: Table, s: State, w: nat, i: nat, j: nat, creating: bool, r: Row)
    requires w < |s.runs| && r.payload == PayloadOf(r.key) && HasKey(RowsOf(job.lines), r.key)
    requires Between(job, orig, s.table)
    ensures var t := UpsertStep(s, w, i, j, creating, r);
      && |t.runs| == |s.runs| && t.processed == s.processed && t.runs == s.runs[w := t.runs[w]]
      && (t.status == s.status || t.status == FailedJob)
      && (t.table == s.table || (r.key !in s.table && t.table == s.table[r.key := PayloadOf(r.key)]))
      && (t.runs[w] == At(i, j + 1, false) ==> Reached(orig, t.table, r.key))
      && (t.runs[w] == At(i, j + 1, false) || (t.table == s.table && (t.runs[w] == At(i, j, true) || t.runs[w] == Over)))
  {
    hide RowsOf, PayloadOf, Stored;
    assert Get(s.table, r.key) == Get(orig, r.key) || Reached(orig, s.table, r.key);
    PayloadStored(r.key);
    hide Matches;
  }

  lemma UpsertRunOk(job: Job, orig: Table, s: State, w: nat, i: nat, j: nat, creating: bool)
    requires job.Valid() && Between(job, orig, s.table) && w < |s.runs| && s.runs[w] == At(i, j, creating)
    requires RunOk(job, orig, s.table, At(i, j, creating)) && i < job.Total() && j < |ChunkRows(job, i)|
    requires Accepted(job.Chunk(i))
    ensures var t := UpsertStep(s, w, i, j, creating, ChunkRows(job, i)[j]);
      |t.runs| == |s.runs| && RunOk(job, orig, t.table, t.runs[w])
  {
    hide *;
    var r := ChunkRows(job, i)[j];
    ChunkRowInFile(job, i, j);
    InsideChunk(job, orig, s.table, i, j, creating);
    UpsertReaches(job, orig, s, w, i, j, creating, r);
    var t := UpsertStep(s, w, i, j, creating, r);
    if t.runs[w] == At(i, j + 1, false) {
      if t.table != s.table {
        RunStays(job, orig, s.table, r.key, PayloadOf(r.key), At(i, j, creating));
        InsideChunk(job, orig, t.table, i, j, creating);
      }
      AdvanceKeeps(job, orig, t.table, i, j);
    } else if t.runs[w] == Over {
      OverIsOk(job, orig, t.table);
    }
  }

  lemma OverIsOk(job: Job, orig: Table, t: Table)
    requires job.Valid()
    ensures RunOk(job, orig, t, Over)
  {
  }

  lemma UpsertKeeps(job: Job, orig: Table, s: State, w: nat)
    requires job.Valid() && Inv(job, orig, s) && w < |s.runs| && s.runs[w].At?
    requires var r := s.runs[w]; r.chunk < job.Total() && r.row < |ChunkRows(job, r.chunk)| && Accepted(job.Chunk(r.chunk))
    ensures var r := s.runs[w];
      Inv(job, orig, UpsertStep(s, w, r.chunk, r.row, r.creating, ChunkRows(job, r.chunk)[r.row]))
  {
    hide UpsertStep, RowsOf, ChunkRows, Goal, Between, Reached, DoneBefore, PayloadOf, HasKey, RunOk, Accepted;
    var r := s.runs[w];
    var row := ChunkRows(job, r.chunk)[r.row];
    var t := UpsertStep(s, w, r.chunk, r.row, r.creating, row);
    ChunkRowInFile(job, r.chunk, r.row);
    UpsertReaches(job, orig, s, w, r.chunk, r.row, r.creating, row);
    UpsertRunOk(job, orig, s, w, r.chunk, r.row, r.creating);
    if t.table != s.table {
      forall v | 0 <= v < |s.runs| ensures RunOk(job, orig, s.table, s.runs[v]) ==> RunOk(job, orig, t.table, s.runs[v]) {
        RunStays(job, orig, s.table, row.key, PayloadOf(row.key), s.runs[v]);
      }
      forall i ensures DoneBefore(job, orig, s.table, i) ==> DoneBefore(job, orig, t.table, i) {
        DoneStays(job, orig, s.table, row.key, PayloadOf(row.key), i);
      }
      AddingKeeps(job, orig, s.table, row.key);
    }
  }

  lemma StepKeeps(job: Job, orig: Table, s: State, a: Action)
    requires job.Valid() && Inv(job, orig, s) && Enabled(s, a)
    ensures Inv(job, orig, Apply(job, s, a))
  {
    hide RowsOf, Between, AllReached, UpsertStep, Accepted, DoneBefore;
    if a.Step? && s.runs[a.w].At? {
      var r := s.runs[a.w];
      assert RunOk(job, orig, s.table, r);
      if r.chunk < job.Total() && Accepted(job.Chunk(r.chunk)) {
        if r.row >= |ChunkRows(job, r.chunk)| {
          var rows := ChunkRows(job, r.chunk);
          assert rows[..r.row] == rows;
          BeforeNext(job, orig, s.table, r.chunk);
          FreshRunOk(job, orig, s.table, r.chunk + 1);
        } else {
          UpsertKeeps(job, orig, s, a.w);
        }
      } else if r.chunk >= job.Total() {
        DoneInRange(job, orig, s.table, r.chunk);
      }
    } else if a.Step? && s.runs[a.w].Loaded? {
      assert RunOk(job, orig, s.table, s.runs[a.w]);
      FreshRunOk(job, orig, s.table, s.runs[a.w].chunk);
    }
  }

  lemma DoneInRange(job: Job, orig: Table, t: Table, i: nat)
    requires job.Valid() && DoneBefore(job, orig, t, i)
    ensures i <= job.Total()
  {
  }

  lemma FreshRunOk(job: Job, orig: Table, t: Table, i: nat)
    requires job.Valid() && DoneBefore(job, orig, t, i)
    ensures RunOk(job, orig, t, At(i, 0, false))
  {
    hide RowsOf, Reached;
  }

  lemma {:induction false} RunKeeps(job: Job, orig: Table, s: State, acts: seq<Action>, t: State)
    requires job.Valid() && Inv(job, orig, s) && Runs(job, s, acts, t)
    ensures Inv(job, orig, t)
    decreases |acts|
  {
    hide Inv, Apply;
    if acts != [] {
      StepKeeps(job, orig, s, acts[0]);
      RunKeeps(job, orig, Apply(job, s, acts[0]), acts[1..], t);
    }
  }

  // ---------- the promise ----------

  /** Rows with one payload per key import exactly when no stored row disagrees, and leave each key its goal. */
  lemma {:induction false} FirstIsUniform(rows: seq<Row>, k: Key)
    requires forall r :: r in rows ==> r.payload == PayloadOf(r.key)
    ensures FirstPayload(rows, k) == if HasKey(rows, k) then Some(PayloadOf(k)) else None
    decreases |rows|
  {
    hide PayloadOf;
    if rows != [] {
      var before, last := rows[..|rows| - 1], rows[|rows| - 1];
      assert forall r :: r in rows <==> r in before || r == last;
      FirstIsUniform(before, k);
    }
  }

  /** No row that is stored for a line of the file differs from what the file would store. */
  predicate FileFits(job: Job, orig: Table) {
    forall r :: r in RowsOf(job.lines) && r.key in orig ==> Matches(orig[r.key], PayloadOf(r.key))
  }

  lemma FileFitsExactly(job: Job, orig: Table)
    ensures FileFits(job, orig) <==> NoConflict(orig, RowsOf(job.lines))
    ensures forall k ::
      Decisive(orig, RowsOf(job.lines), k) == if k in orig || HasKey(RowsOf(job.lines), k) then Some(Goal(orig, k)) else None
  {
    var rows := RowsOf(job.lines);
    RowsUniform(job.lines);
    hide RowsOf, PayloadOf, Matches, FirstPayload, Stored;
    forall k
      ensures FirstPayload(rows, k) == if HasKey(rows, k) then Some(PayloadOf(k)) else None
      ensures Decisive(orig, rows, k) == if k in orig || HasKey(rows, k) then Some(Goal(orig, k)) else None
    {
      FirstIsUniform(rows, k);
      PayloadStored(k);
    }
    forall i | 0 <= i < |rows|
      ensures Agrees(orig, rows, rows[i]) <==> (rows[i].key in orig ==> Matches(orig[rows[i].key], PayloadOf(rows[i].key)))
    {
      assert rows[i] in rows;
      PayloadStored(rows[i].key);
    }
    if NoConflict(orig, rows) {
      forall r | r in rows && r.key in orig ensures Matches(orig[r.key], PayloadOf(r.key)) {
        var i :| 0 <= i < |rows| && rows[i] == r;
        assert Agrees(orig, rows, rows[i]);
      }
    }
  }

  lemma InitOk(job: Job, orig: Table)
    requires job.Valid()
    ensures Inv(job, orig, Init(orig))
  {
    ChunksPartition(job, 0);
    hide RowsOf;
    assert RowsOf([]) == [] by { NoRows(); }
  }

  lemma NoRows()
    ensures RowsOf([]) == []
  {
  }

  predicate AllAccepted(job: Job)
    requires job.Valid()
  {
    forall c :: 0 <= c < job.Total() ==> Accepted(job.Chunk(c))
  }

  lemma CompletedReaches(job: Job, orig: Table, s: State)
    requires job.Valid() && Inv(job, orig, s) && s.status == CompletedJob
    ensures AllAccepted(job) && FileFits(job, orig)
    ensures forall k :: HasKey(RowsOf(job.lines), k) ==> Get(s.table, k) == Some(Goal(orig, k))
  {
    ChunksPartition(job, 0);
    hide RowsOf, Accepted, Matches, PayloadOf;
    assert AllReached(orig, s.table, RowsOf(job.lines));
  }

  /** A completed build leaves the domains and hosts of one successful import of the whole file, however often it
      was retried and wherever its runs failed, were cut off or overlapped. Before that every stored row is as it
      was, and every added one as that import leaves it. */
  lemma BuildIsOneImport(job: Job, orig: Table, acts: seq<Action>, s: State)
    requires job.Valid() && Runs(job, Init(orig), acts, s)
    ensures s.status == CompletedJob ==> Import(orig, RowsOf(job.lines)) == Outcome(s.table, true)
    ensures forall k :: k in orig ==> Get(s.table, k) == Get(orig, k)
    ensures forall k :: k in s.table && k !in orig ==> HasKey(RowsOf(job.lines), k) && s.table[k] == PayloadOf(k)
  {
    InitOk(job, orig);
    RunKeeps(job, orig, Init(orig), acts, s);
    var rows := RowsOf(job.lines);
    hide Import, RowsOf, PayloadOf, Matches;
    forall k ensures k in orig ==> Get(s.table, k) == Get(orig, k) {
      assert Get(s.table, k) == Get(orig, k) || (HasKey(rows, k) && k !in orig && Reached(orig, s.table, k));
    }
    if s.status == CompletedJob {
      CompletedReaches(job, orig, s);
      FileFitsExactly(job, orig);
      ImportSucceedsExactly(orig, rows);
      hide FileFits, NoConflict, Reached, HasKey, Decisive;
      forall k ensures Get(s.table, k) == Get(Import(orig, rows).table, k) {
        assert Get(s.table, k) == Get(orig, k) || (HasKey(rows, k) && k !in orig && Reached(orig, s.table, k));
      }
      SameTables(s.table, Import(orig, rows).table);
    }
  }

  /** A completed build, line by line: for every line with a name the domain and its apex are there; what was
      stored before is as it was, and everything else is a domain of high importance or a manual draft host of
      some line. */
  lemma BuiltLines(job: Job, orig: Table, acts: seq<Action>, s: State)
    requires job.Valid() && Runs(job, Init(orig), acts, s) && s.status == CompletedJob
    ensures forall j, k :: 0 <= j < |job.lines| && OfLine(job.lines[j], k) ==> k in s.table
    ensures forall k :: k in s.table && k !in orig ==>
      && SomeLine(job.lines, k)
      && s.table[k] == (if k.DomainKey? then DomainEntry("", "high", true, "")
                        else HostEntry("manual", "draft", false, false, false, false, true, "manifest auto apex"))
    ensures forall k :: k in orig ==> k in s.table && s.table[k] == orig[k]
  {
    BuildIsOneImport(job, orig, acts, s);
    InitOk(job, orig);
    RunKeeps(job, orig, Init(orig), acts, s);
    CompletedReaches(job, orig, s);
    hide Runs, Inv, RowsOf, Import, OfLine, HasKey, FileFits, AllAccepted;
    forall k ensures HasKey(RowsOf(job.lines), k) <==> SomeLine(job.lines, k) {
      FileKeysExactly(job.lines, k);
    }
    forall k | k in orig ensures k in s.table && s.table[k] == orig[k] {
      assert Get(s.table, k) == Get(orig, k);
    }
  }

  lemma SameTables(a: Table, b: Table)
    requires forall k :: Get(a, k) == Get(b, k)
    ensures a == b
  {
    forall k ensures k in a <==> k in b {
      assert Get(a, k) == Get(b, k);
    }
    forall k | k in a ensures a[k] == b[k] {
      assert Get(a, k) == Get(b, k);
    }
  }

  // ---------- when a build can complete ----------

  lemma {:induction false} RunThen(job: Job, s: State, acts: seq<Action>, t: State, a: Action)
    requires job.Valid() && Runs(job, s, acts, t) && Enabled(t, a)
    ensures Runs(job, s, acts + [a], Apply(job, t, a))
    decreases |acts|
  {
    hide Apply, Enabled;
    if acts == [] {
      assert [a][1..] == [];
      assert acts + [a] == [a];
    } else {
      RunThen(job, Apply(job, s, acts[0]), acts[1..], t, a);
      assert (acts + [a])[0] == acts[0] && (acts + [a])[1..] == acts[1..] + [a];
    }
  }

  lemma Do(job: Job, first: State, acts: seq<Action>, s: State, a: Action) returns (more: seq<Action>, t: State)
    requires job.Valid() && Runs(job, first, acts, s) && Enabled(s, a)
    ensures Runs(job, first, more, t) && t == Apply(job, s, a)
  {
    more, t := acts + [a], Apply(job, s, a);
    RunThen(job, first, acts, s, a);
  }

  lemma AddingFits(job: Job, t: Table, k: Key)
    requires FileFits(job, t)
    ensures FileFits(job, t[k := PayloadOf(k)])
  {
    hide RowsOf, Matches, PayloadOf;
    PayloadStored(k);
  }

  lemma FitsAt(job: Job, t: Table, k: Key)
    requires FileFits(job, t) && HasKey(RowsOf(job.lines), k)
    ensures k in t ==> Matches(t[k], PayloadOf(k))
  {
    hide RowsOf, Matches, PayloadOf;
  }

  /** A run alone takes a row that fits in one or two statements. */
  lemma RowAlone(job: Job, first: State, before: seq<Action>, from: State, i: nat, j: nat)
    returns (acts: seq<Action>, s: State)
    requires job.Valid() && Runs(job, first, before, from) && from.runs == [At(i, j, false)]
    requires i < job.Total() && Accepted(job.Chunk(i)) && j < |ChunkRows(job, i)| && FileFits(job, from.table)
    ensures Runs(job, first, acts, s) && s.runs == [At(i, j + 1, false)] && FileFits(job, s.table)
  {
    hide Runs, Accepted, RowsOf, ChunkRows, Matches, PayloadOf, FileFits, HasKey, Stored;
    ChunkRowInFile(job, i, j);
    var r := ChunkRows(job, i)[j];
    PayloadStored(r.key);
    AddingFits(job, from.table, r.key);
    FitsAt(job, from.table, r.key);
    acts, s := Do(job, first, before, from, Step(0));
    if s.runs == [At(i, j, true)] {
      acts, s := Do(job, first, acts, s, Step(0));
    }
  }

  lemma {:induction false} ChunkAlone(job: Job, first: State, before: seq<Action>, from: State, i: nat, j: nat)
    returns (acts: seq<Action>, s: State)
    requires job.Valid() && Runs(job, first, before, from) && from.runs == [At(i, j, false)]
    requires i < job.Total() && Accepted(job.Chunk(i)) && j <= |ChunkRows(job, i)| && FileFits(job, from.table)
    ensures Runs(job, first, acts, s) && s.runs == [At(i + 1, 0, false)] && FileFits(job, s.table)
    decreases |ChunkRows(job, i)| - j
  {
    hide Runs, Accepted, RowsOf, ChunkRows, FileFits;
    if j < |ChunkRows(job, i)| {
      acts, s := RowAlone(job, first, before, from, i, j);
      acts, s := ChunkAlone(job, first, acts, s, i, j + 1);
    } else {
      acts, s := Do(job, first, before, from, Step(0));
    }
  }

  lemma {:induction false} FileAlone(job: Job, first: State, before: seq<Action>, from: State, i: nat)
    returns (acts: seq<Action>, s: State)
    requires job.Valid() && Runs(job, first, before, from) && from.runs == [At(i, 0, false)] && i <= job.Total()
    requires AllAccepted(job) && FileFits(job, from.table)
    ensures Runs(job, first, acts, s) && s.status == CompletedJob
    decreases job.Total() - i
  {
    hide Runs, Accepted, ChunkRows, FileFits;
    if i < job.Total() {
      acts, s := ChunkAlone(job, first, before, from, i, 0);
      acts, s := FileAlone(job, first, acts, s, i + 1);
    } else {
      acts, s := Do(job, first, before, from, Step(0));
    }
  }

  lemma CompletesAlone(job: Job, orig: Table) returns (acts: seq<Action>, s: State)
    requires job.Valid() && AllAccepted(job) && FileFits(job, orig)
    ensures Runs(job, Init(orig), acts, s) && s.status == CompletedJob
  {
    var first := Init(orig);
    assert Runs(job, first, [], first);
    hide Runs, AllAccepted, FileFits;
    acts, s := Do(job, first, [], first, Step(0));
    acts, s := Do(job, first, acts, s, Step(0));
    acts, s := FileAlone(job, first, acts, s, 0);
  }

  /** A build can complete exactly when every chunk is accepted and no stored row differs from the file's; both
      can be seen before it starts. */
  lemma CompletableExactly(job: Job, orig: Table)
    requires job.Valid()
    ensures (exists acts, s :: Runs(job, Init(orig), acts, s) && s.status == CompletedJob)
      <==> AllAccepted(job) && FileFits(job, orig)
  {
    hide AllAccepted, FileFits;
    if acts, s :| Runs(job, Init(orig), acts, s) && s.status == CompletedJob {
      InitOk(job, orig);
      RunKeeps(job, orig, Init(orig), acts, s);
      CompletedReaches(job, orig, s);
    }
    if AllAccepted(job) && FileFits(job, orig) {
      var acts, s := CompletesAlone(job, orig);
    }
  }

  // ---------- a crash while running ----------

  /** A job whose runs are all over can move on exactly when it is not marked running. */
  lemma StuckExactly(s: State)
    requires forall w :: 0 <= w < |s.runs| ==> s.runs[w] == Over
    ensures (forall a :: !Enabled(s, a)) <==> s.status == RunningJob
  {
    if forall a :: !Enabled(s, a) {
      assert !Enabled(s, Retry);
    }
  }

  /** And that state is reached: when the process ends after the job was marked running, nothing can be done any
      more, since a retry is refused while the job is marked running. */
  lemma CrashStrandsTheJob(job: Job, orig: Table) returns (acts: seq<Action>, s: State)
    requires job.Valid()
    ensures Runs(job, Init(orig), acts, s)
    ensures forall a :: !Enabled(s, a)
    ensures s.table == orig && s.status != CompletedJob
  {
    var first := Init(orig);
    assert Runs(job, first, [], first);
    hide Runs;
    acts, s := Do(job, first, [], first, Step(0));
    acts, s := Do(job, first, acts, s, Step(0));
    acts, s := Do(job, first, acts, s, Crash(0));
  }
}
