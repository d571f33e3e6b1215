/** What every schedule of the batch pipeline keeps. */
module BatchSafety {
  import opened Rounding
  import opened Sums
  import opened Wrappers
  import opened BatchPipeline

  // ---------- sums after one worker's step ----------

  lemma SumsAfter(ws: seq<Worker>, k: nat, w: Worker)
    requires k < |ws|
    ensures Sum(ws[k := w], Holds) == Sum(ws, Holds) - Holds(ws[k]) + Holds(w)
    ensures Sum(ws[k := w], Stays) == Sum(ws, Stays) - Stays(ws[k]) + Stays(w)
    ensures Sum(ws[k := w], HasCounted) == Sum(ws, HasCounted) - HasCounted(ws[k]) + HasCounted(w)
    ensures Sum(ws[k := w], HasRated) == Sum(ws, HasRated) - HasRated(ws[k]) + HasRated(w)
    ensures Sum(ws[k := w], HasSent) == Sum(ws, HasSent) - HasSent(ws[k]) + HasSent(w)
    ensures Sum(ws[k := w], HasSentOk) == Sum(ws, HasSentOk) - HasSentOk(ws[k]) + HasSentOk(w)
  {
    SumUpdate(ws, k, w, Holds);
    SumUpdate(ws, k, w, Stays);
    SumUpdate(ws, k, w, HasCounted);
    SumUpdate(ws, k, w, HasRated);
    SumUpdate(ws, k, w, HasSent);
    SumUpdate(ws, k, w, HasSentOk);
  }

  lemma SumsGrow(ws: seq<Worker>)
    ensures var w := Worker(Probing, false); var now := ws + [w];
      && Sum(now, Holds) == Sum(ws, Holds) + 1 && Sum(now, Stays) == Sum(ws, Stays) + 1
      && Sum(now, HasCounted) == Sum(ws, HasCounted) && Sum(now, HasRated) == Sum(ws, HasRated)
      && Sum(now, HasSent) == Sum(ws, HasSent) && Sum(now, HasSentOk) == Sum(ws, HasSentOk)
      && SentBag(now) == SentBag(ws)
  {
    var w := Worker(Probing, false);
    SumAppend(ws, w, Holds);
    SumAppend(ws, w, Stays);
    SumAppend(ws, w, HasCounted);
    SumAppend(ws, w, HasRated);
    SumAppend(ws, w, HasSent);
    SumAppend(ws, w, HasSentOk);
    assert (ws + [w])[..|ws|] == ws;
  }

  /** Sent <= counted <= launched and rated <= counted, whatever the workers do. */
  lemma CountersOrdered(ws: seq<Worker>)
    ensures Sum(ws, HasSent) <= Sum(ws, HasCounted) <= |ws|
    ensures Sum(ws, HasRated) <= Sum(ws, HasCounted)
  {
    SumBounds(ws, HasSent, HasCounted);
    SumBounds(ws, HasRated, HasCounted);
    SumOfOnes(ws, HasCounted);
  }

  /** A worker that is not gone is still counted by the wait group, so nobody has closed the channel. */
  lemma ActiveMeansOpen(c: Config, s: State, k: nat)
    requires Inv(c, s) && k < |s.pool.workers| && s.pool.workers[k].phase != Gone
    ensures s.pool.wg > 0 && !s.pipe.closed && !WriterThrough(s.pipe)
    ensures Launching(s.ctl.launcher) || s.ctl.launcher.Waiting?
  {
    hide Sum, Conservation, Progress, StopBound, Reports, Capacity;
    SumZero(s.pool.workers, Stays);
    assert Stays(s.pool.workers[k]) == 1;
  }

  // ---------- worker steps ----------

  predicate WorkerAction(a: Action) {
    a.ProbeReturns? || a.AddDone? || a.AddSuccess? || a.Send? || a.Leave? || a.Finish?
  }

  lemma WorkerKeepsCounters(c: Config, s: State, a: Action)
    requires Inv(c, s) && WorkerAction(a) && Enabled(c, s, a)
    ensures Counters(c, Apply(c, s, a).pool, Apply(c, s, a).ctl.launcher)
  {
    hide Sum, Conservation, InOrder, Progress, StopBound, Reports, Capacity;
    SumsAfter(s.pool.workers, a.w, Apply(c, s, a).pool.workers[a.w]);
  }

  lemma OneRow(r: Row)
    ensures OkRows([r]) == if r.success then 1 else 0
  {
    assert [r][..0] == [];
  }

  lemma SendKeepsRows(ws: seq<Worker>, p: Pipe, k: nat)
    requires Conservation(ws, p) && k < |ws| && ws[k].phase == Rated
    ensures Conservation(ws[k := ws[k].(phase := Sent)], p.(channel := p.channel + [Row(k, ws[k].ok)]))
  {
    hide Sum, OkRows, SentBag;
    var r := Row(k, ws[k].ok);
    SumsAfter(ws, k, ws[k].(phase := Sent));
    SentBagGrows(ws, k, ws[k].(phase := Sent));
    OkRowsConcat(p.channel, [r]);
    OneRow(r);
    assert multiset(p.channel + [r]) == multiset(p.channel) + multiset{r};
  }

  lemma QuietKeepsRows(ws: seq<Worker>, p: Pipe, k: nat, w: Worker)
    requires Conservation(ws, p) && k < |ws|
    requires (Order(ws[k].phase) >= 4) == (Order(w.phase) >= 4) && (Order(w.phase) >= 4 ==> ws[k].ok == w.ok)
    ensures Conservation(ws[k := w], p)
  {
    hide Sum, OkRows, SentBag;
    SumsAfter(ws, k, w);
    SentBagSame(ws, k, w);
  }

  lemma WorkerKeepsRows(c: Config, s: State, a: Action)
    requires Inv(c, s) && WorkerAction(a) && Enabled(c, s, a)
    ensures Conservation(Apply(c, s, a).pool.workers, Apply(c, s, a).pipe)
    ensures Capacity(c, Apply(c, s, a).pipe)
  {
    hide Conservation, InOrder, Progress, StopBound, Reports, Counters;
    if a.Send? {
      SendKeepsRows(s.pool.workers, s.pipe, a.w);
    } else {
      QuietKeepsRows(s.pool.workers, s.pipe, a.w, Apply(c, s, a).pool.workers[a.w]);
    }
  }

  /** A worker's step moves neither the launcher nor the reports, and only raises what progress rests on. */
  lemma WorkerKeepsRest(c: Config, s: State, a: Action)
    requires Inv(c, s) && WorkerAction(a) && Enabled(c, s, a)
    ensures var t := Apply(c, s, a);
      && InOrder(c, t.ctl, |t.pool.workers|, t.pool.wg, t.pipe, t.db.stopRequested)
      && Progress(t.pool, t.pipe, t.db)
      && StopBound(c, t.ctl, |t.pool.workers|, t.db.stopRequested, t.stops)
      && Reports(c, t.ctl.launcher, t.pipe, t.db)
  {
    ActiveMeansOpen(c, s, a.w);
    hide StopBound, Counters, Conservation, Capacity, Verdict, HalfUp, OkRows, FailedRows;
  }

  lemma WorkerKeeps(c: Config, s: State, a: Action)
    requires Inv(c, s) && WorkerAction(a) && Enabled(c, s, a)
    ensures Inv(c, Apply(c, s, a))
  {
    WorkerKeepsCounters(c, s, a);
    WorkerKeepsRows(c, s, a);
    WorkerKeepsRest(c, s, a);
  }

  // ---------- writer steps ----------

  predicate WriterAction(a: Action) {
    a.Receive? || a.FlushFull? || a.Tick? || a.ReadSuccess? || a.ReadDone? || a.WriteProgress? || a.Drain?
  }

  lemma TakeKeepsRows(c: Config, ws: seq<Worker>, p: Pipe)
    requires Conservation(ws, p) && p.channel != []
    ensures Conservation(ws, TakeOne(c, p))
  {
    hide Sum, OkRows, SentBag;
    var t, r := TakeOne(c, p), p.channel[0];
    assert p.channel == [r] + t.channel;
    OkRowsConcat([r], t.channel);
    OkRowsConcat(p.buffer, [r]);
    assert multiset(t.buffer) == multiset(p.buffer) + multiset{r};
    assert multiset(p.channel) == multiset{r} + multiset(t.channel);
  }

  lemma FlushKeepsRows(ws: seq<Worker>, p: Pipe, fails: bool)
    requires Conservation(ws, p)
    ensures Conservation(ws, Flush(p, fails)) && Flush(p, fails).buffer == []
  {
    assert OkRows([]) == 0;
    hide Sum, SentBag, OkRows;
    var kept := if fails then p.lost else p.rows;
    OkRowsConcat(kept, p.buffer);
    FlushKeepsBag(p, fails);
    var t := Flush(p, fails);
    assert |t.rows| + |t.lost| + |t.buffer| + |t.channel| == |p.rows| + |p.lost| + |p.buffer| + |p.channel|;
  }

  lemma FlushKeepsBag(p: Pipe, fails: bool)
    ensures var t := Flush(p, fails);
      multiset(t.rows) + multiset(t.lost) + multiset(t.buffer) + multiset(t.channel)
        == multiset(p.rows) + multiset(p.lost) + multiset(p.buffer) + multiset(p.channel)
  {
    var kept := if fails then p.lost else p.rows;
    assert multiset(kept + p.buffer) == multiset(kept) + multiset(p.buffer);
  }

  predicate Flushes(a: Action) { a.FlushFull? || a.Tick? || a.Drain? }

  lemma RowsIgnoreWriter(ws: seq<Worker>, p: Pipe, w: Writer)
    requires Conservation(ws, p)
    ensures Conservation(ws, p.(writer := w))
  {
    hide Sum, OkRows, SentBag;
  }

  lemma WriterKeepsRows(c: Config, s: State, a: Action)
    requires Inv(c, s) && WriterAction(a) && Enabled(c, s, a)
    ensures Conservation(Apply(c, s, a).pool.workers, Apply(c, s, a).pipe)
  {
    hide InOrder, Progress, StopBound, Reports, Counters, Conservation, Capacity, TakeOne, Flush;
    var ws := s.pool.workers;
    if a.Receive? {
      TakeKeepsRows(c, ws, s.pipe);
    } else if Flushes(a) {
      FlushKeepsRows(ws, s.pipe, a.fails);
      RowsIgnoreWriter(ws, Flush(s.pipe, a.fails), Apply(c, s, a).pipe.writer);
    } else {
      RowsIgnoreWriter(ws, s.pipe, Apply(c, s, a).pipe.writer);
    }
  }

  lemma WriterKeepsCapacity(c: Config, s: State, a: Action)
    requires Inv(c, s) && WriterAction(a) && Enabled(c, s, a)
    ensures Capacity(c, Apply(c, s, a).pipe)
  {
    hide InOrder, Progress, StopBound, Reports, Counters, Conservation;
  }

  lemma WriterKeepsOrder(c: Config, s: State, a: Action)
    requires Inv(c, s) && WriterAction(a) && Enabled(c, s, a)
    ensures var t := Apply(c, s, a); InOrder(c, t.ctl, |t.pool.workers|, t.pool.wg, t.pipe, t.db.stopRequested)
  {
    hide Counters, Conservation, Capacity, Progress, StopBound, Reports;
  }

  lemma WriterKeepsProgress(c: Config, s: State, a: Action)
    requires Inv(c, s) && WriterAction(a) && Enabled(c, s, a)
    ensures Progress(Apply(c, s, a).pool, Apply(c, s, a).pipe, Apply(c, s, a).db)
  {
    CountersOrdered(s.pool.workers);
    hide StopBound, Capacity, InOrder, Reports, Sum, SentBag, OkRows;
  }

  /** Reports are only promised once the writer is through, and then it never steps again. */
  lemma WriterKeepsReports(c: Config, s: State, a: Action)
    requires Inv(c, s) && WriterAction(a) && Enabled(c, s, a)
    ensures Reports(c, Apply(c, s, a).ctl.launcher, Apply(c, s, a).pipe, Apply(c, s, a).db)
  {
    assert !WriterThrough(s.pipe) && BeforeVerdict(s.ctl.launcher);
    hide Counters, Conservation, Capacity, Progress, StopBound, InOrder;
  }

  lemma WriterKeeps(c: Config, s: State, a: Action)
    requires Inv(c, s) && WriterAction(a) && Enabled(c, s, a)
    ensures Inv(c, Apply(c, s, a))
  {
    hide Counters, Conservation, Capacity, InOrder, Progress, StopBound, Reports;
    WriterKeepsRows(c, s, a);
    WriterKeepsCapacity(c, s, a);
    WriterKeepsOrder(c, s, a);
    WriterKeepsProgress(c, s, a);
    WriterKeepsReports(c, s, a);
  }

  // ---------- launcher steps ----------

  lemma LaunchKeepsCounters(c: Config, s: State)
    requires Inv(c, s) && Enabled(c, s, Launch)
    ensures Counters(c, Apply(c, s, Launch).pool, Apply(c, s, Launch).ctl.launcher)
  {
    SumsGrow(s.pool.workers);
    hide InOrder, Progress, StopBound, Reports, Sum, OkRows, SentBag, HalfUp, Verdict, FailedRows, CheckPoint,
         Conservation, Capacity;
  }

  /** The launcher touches the pipe only to start the writer and to close the channel. */
  lemma LaunchKeepsRows(c: Config, s: State)
    requires Inv(c, s) && Enabled(c, s, Launch)
    ensures Conservation(Apply(c, s, Launch).pool.workers, Apply(c, s, Launch).pipe)
  {
    hide Progress, StopBound, Reports, Sum, OkRows, SentBag, HalfUp, Verdict, FailedRows, CheckPoint, Counters, InOrder,
      Capacity;
    SumsGrow(s.pool.workers);
  }

  lemma LaunchKeepsCapacity(c: Config, s: State)
    requires Inv(c, s) && Enabled(c, s, Launch)
    ensures Capacity(c, Apply(c, s, Launch).pipe)
  {
    hide Progress, StopBound, Reports, OkRows, HalfUp, Verdict, FailedRows, CheckPoint, Counters, Conservation;
  }

  lemma OrderKeeps(c: Config, s: State)
    requires Inv(c, s) && Enabled(c, s, Launch)
    ensures var t := Apply(c, s, Launch); InOrder(c, t.ctl, |t.pool.workers|, t.pool.wg, t.pipe, t.db.stopRequested)
  {
    hide Progress, StopBound, Reports, Counters, Conservation, OkRows, HalfUp, Verdict, FailedRows, CheckPoint;
  }

  lemma NextCheckPoint(n: nat, conc: nat)
    requires conc > 0
    ensures CheckPoint(0, conc)
    ensures CheckPoint(n, conc) ==> CheckPoint(n + conc, conc)
  {
    if CheckPoint(n, conc) {
      MultipleHasNoRest(n + conc, n / conc + 1, conc);
    }
  }

  lemma MultipleHasNoRest(x: nat, k: nat, m: nat)
    requires m > 0 && x == k * m
    ensures x % m == 0
  {
    var d := k - x / m;
    assert d * m == x % m;
    SmallMultiple(d, m);
  }

  lemma SmallMultiple(d: int, m: nat)
    requires m > 0 && 0 <= d * m < m
    ensures d == 0
  {
  }

  lemma CheckKeepsBound(c: Config, s: State)
    requires Inv(c, s) && s.ctl.launcher.AtItem?
    ensures var t := Apply(c, s, Launch); StopBound(c, t.ctl, |t.pool.workers|, t.db.stopRequested, t.stops)
  {
    NextCheckPoint(s.ctl.lastCheck, c.conc);
    hide Progress, Reports, Counters, Conservation, InOrder, CheckPoint, Capacity;
  }

  lemma StopBoundKeeps(c: Config, s: State)
    requires Inv(c, s) && Enabled(c, s, Launch)
    ensures var t := Apply(c, s, Launch); StopBound(c, t.ctl, |t.pool.workers|, t.db.stopRequested, t.stops)
  {
    hide Progress, Reports, Counters, Conservation, OkRows, HalfUp, Verdict, FailedRows, CheckPoint, Capacity;
    if s.ctl.launcher.AtItem? {
      CheckKeepsBound(c, s);
    } else {
      assert s.ctl.launcher.Marking? ==> s.db.stopRequested;
      hide InOrder;
    }
  }

  /** When everybody has gone and the writer is through, every row is stored or lost. */
  lemma AllStored(c: Config, s: State)
    requires Inv(c, s) && Joined(s.ctl.launcher) && WriterThrough(s.pipe)
    ensures |s.pipe.rows| + |s.pipe.lost| == |s.pool.workers|
    ensures OkRows(s.pipe.rows) + OkRows(s.pipe.lost) == s.pool.success
    ensures forall k :: 0 <= k < |s.pool.workers| ==> s.pool.workers[k].phase == Gone
  {
    hide StopBound, Progress, Reports, SentBag;
    var ws := s.pool.workers;
    SumZero(ws, Stays);
    forall k | 0 <= k < |ws| ensures ws[k].phase == Gone {
      assert Stays(ws[k]) == 0;
    }
    SumOfOnes(ws, HasSent);
    SumSame(ws, HasRated, HasSentOk);
  }

  lemma VerdictKeepsProgress(c: Config, s: State)
    requires Inv(c, s) && !BeforeVerdict(s.ctl.launcher) && Enabled(c, s, Launch)
    ensures var t := Apply(c, s, Launch); Progress(t.pool, t.pipe, t.db)
  {
    hide StopBound, Counters, Conservation, Capacity, OkRows, HalfUp, Verdict, FailedRows, CheckPoint;
    AllStored(c, s);
    OkAndFailed(s.pipe.rows);
    OkAndFailed(s.pipe.lost);
  }

  /** A run that is about to finish has stored a row for every item. */
  lemma FinishingFacts(c: Config, s: State)
    requires Inv(c, s) && s.ctl.launcher.Finishing?
    ensures s.pipe.lost == [] && |s.pipe.rows| == c.items
    ensures OkRows(s.pipe.rows) == s.pool.success && FailedRows(s.pipe.rows) == c.items - s.pool.success
  {
    assert OkRows([]) == 0;
    hide StopBound, Counters, Conservation, Progress, Reports, OkRows, FailedRows, CheckPoint;
    AllStored(c, s);
    OkAndFailed(s.pipe.rows);
  }

  /** The ratio of the final write is that of the stored rows. */
  lemma FinalRatio(rows: seq<Row>)
    ensures HalfUp(OkRows(rows), if |rows| > 1 then |rows| else 1) == HalfUp(OkRows(rows), |rows|)
  {
  }

  lemma FinishingReports(c: Config, s: State)
    requires Inv(c, s) && s.ctl.launcher.Finishing? && Enabled(c, s, Launch)
    ensures var t := Apply(c, s, Launch);
      Reports(c, t.ctl.launcher, t.pipe, t.db) && (c.items > 0 ==> SaysOf(t.db.status, t.pipe.rows))
  {
    FinishingFacts(c, s);
    FinalRatio(s.pipe.rows);
    if c.items > 0 { VerdictSays(s.pipe.rows); }
    hide Inv, SaysOf, OkRows, FailedRows, HalfUp, Verdict, CheckPoint;
  }

  lemma NoWorkReports(c: Config, s: State)
    requires Inv(c, s) && s.ctl.launcher.NoWork? && Enabled(c, s, Launch)
    ensures var t := Apply(c, s, Launch); Reports(c, t.ctl.launcher, t.pipe, t.db)
  {
    hide StopBound, Counters, Conservation, Capacity, OkRows, HalfUp, Verdict, FailedRows, CheckPoint;
  }

  lemma VerdictKeepsReports(c: Config, s: State)
    requires Inv(c, s) && !BeforeVerdict(s.ctl.launcher) && Enabled(c, s, Launch)
    ensures var t := Apply(c, s, Launch); Reports(c, t.ctl.launcher, t.pipe, t.db)
  {
    hide StopBound, Counters, Conservation, Capacity, InOrder, Progress, OkRows, HalfUp, Verdict, FailedRows, CheckPoint;
    OkAndFailed(s.pipe.rows);
    if s.ctl.launcher.Finishing? {
      FinishingReports(c, s);
    } else if s.ctl.launcher.NoWork? {
      NoWorkReports(c, s);
    }
  }

  lemma ReportsKeep(c: Config, s: State)
    requires Inv(c, s) && Enabled(c, s, Launch)
    ensures var t := Apply(c, s, Launch); Progress(t.pool, t.pipe, t.db) && Reports(c, t.ctl.launcher, t.pipe, t.db)
  {
    hide StopBound, Counters, Conservation, Capacity, OkRows, HalfUp, Verdict, FailedRows, CheckPoint;
    if !BeforeVerdict(s.ctl.launcher) {
      VerdictKeepsProgress(c, s);
      VerdictKeepsReports(c, s);
    }
  }

  lemma LaunchKeeps(c: Config, s: State)
    requires Inv(c, s) && Enabled(c, s, Launch)
    ensures Inv(c, Apply(c, s, Launch))
  {
    LaunchKeepsCounters(c, s);
    LaunchKeepsRows(c, s);
    LaunchKeepsCapacity(c, s);
    OrderKeeps(c, s);
    StopBoundKeeps(c, s);
    ReportsKeep(c, s);
    hide Counters, Conservation, Capacity, InOrder, Progress, StopBound, Reports;
  }

  // ---------- all steps, all schedules ----------

  lemma StopKeeps(c: Config, s: State, a: Action)
    requires Inv(c, s) && !Internal(a) && Enabled(c, s, a)
    ensures Inv(c, Apply(c, s, a))
  {
    hide Counters, Conservation, Capacity, OkRows, HalfUp, Verdict, FailedRows, CheckPoint;
  }

  lemma StepKeeps(c: Config, s: State, a: Action)
    requires Inv(c, s) && Enabled(c, s, a)
    ensures Inv(c, Apply(c, s, a))
  {
    hide Inv;
    if WorkerAction(a) {
      WorkerKeeps(c, s, a);
    } else if WriterAction(a) {
      WriterKeeps(c, s, a);
    } else if a.Launch? {
      LaunchKeeps(c, s);
    } else {
      StopKeeps(c, s, a);
    }
  }

  lemma InitHolds(c: Config)
    requires c.Valid()
    ensures Inv(c, Init())
  {
  }

  lemma {:induction false} RunKeeps(c: Config, s: State, acts: seq<Action>, t: State)
    requires Inv(c, s) && Runs(c, s, acts, t)
    ensures Inv(c, t)
    decreases |acts|
  {
    hide Inv;
    if acts != [] {
      StepKeeps(c, s, acts[0]);
      RunKeeps(c, Apply(c, s, acts[0]), acts[1..], t);
    }
  }

  lemma ReachableKeeps(c: Config, s: State)
    requires c.Valid() && Reachable(c, s)
    ensures Inv(c, s)
  {
    var acts :| Runs(c, Init(), acts, s);
    InitHolds(c);
    RunKeeps(c, Init(), acts, s);
  }
}
