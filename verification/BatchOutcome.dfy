/** The promises of the batch engine, for every reachable state and every schedule. */
module BatchOutcome {
  import opened Rounding
  import opened Sums
  import opened Wrappers
  import opened BatchWork
  import opened BatchPipeline
  import opened BatchSafety

  // ---------- safety while it runs ----------

  function IsProbing(w: Worker): nat { if w.phase == Probing then 1 else 0 }

  /** At most `conc` probes are in flight. */
  lemma ProbesInFlight(c: Config, s: State)
    requires c.Valid() && Reachable(c, s)
    ensures Sum(s.pool.workers, IsProbing) <= c.conc
  {
    ReachableKeeps(c, s);
    SumBounds(s.pool.workers, IsProbing, Holds);
  }

  /** Nobody sends on, or closes, a closed channel. */
  lemma NoSendAfterClose(c: Config, s: State, w: nat)
    requires c.Valid() && Reachable(c, s)
    ensures s.pipe.closed ==> !InPhase(s.pool, w, Rated) && s.ctl.launcher != Closing
  {
    ReachableKeeps(c, s);
    hide Reachable;
    if InPhase(s.pool, w, Rated) {
      ActiveMeansOpen(c, s, w);
    }
  }

  /** Every progress write reports counts that are not negative and that lie between the rows already stored
      and the items launched. */
  lemma ProgressWriteInRange(c: Config, s: State)
    requires c.Valid() && Reachable(c, s) && Enabled(c, s, WriteProgress)
    ensures var db := Apply(c, s, WriteProgress).db;
      && db.successCount >= 0 && db.failedCount >= 0
      && |s.pipe.rows| <= db.successCount + db.failedCount <= |s.pool.workers| <= c.items
  {
    ReachableKeeps(c, s);
    CountersOrdered(s.pool.workers);
  }

  /** The same range at every moment, final writes included. */
  lemma CountsInRange(c: Config, s: State)
    requires c.Valid() && Reachable(c, s)
    ensures s.db.successCount >= 0 && s.db.failedCount >= 0
    ensures s.db.successCount + s.db.failedCount <= c.items
  {
    ReachableKeeps(c, s);
  }

  function ExpectedChecks(validTargets: nat, storedRegions: nat, protocols: nat): nat {
    validTargets * (if storedRegions == 0 then 1 else storedRegions) * protocols
  }

  /** progressPercent stays in 0..100 (in hundredths: 0..10000) when the run works on no more regions than
      max(1, stored regions), as NormalizeRegionCodes ensures. */
  lemma ProgressPercentInRange(c: Config, s: State, targets: nat, stored: nat, regions: nat, protocols: nat)
    requires c.Valid() && Reachable(c, s)
    requires regions <= (if stored == 0 then 1 else stored) && c.items == regions * targets * protocols
    ensures 0 <= s.db.successCount + s.db.failedCount <= ExpectedChecks(targets, stored, protocols)
    ensures HalfUp(s.db.successCount + s.db.failedCount, ExpectedChecks(targets, stored, protocols)) <= 10000
  {
    CountsInRange(c, s);
    var most := if stored == 0 then 1 else stored;
    MulMono(regions, most, targets);
    MulMono(regions * targets, most * targets, protocols);
    assert most * targets == targets * most;
    HalfUpRange(s.db.successCount + s.db.failedCount, ExpectedChecks(targets, stored, protocols));
  }

  // ---------- no deadlock ----------

  /** As long as the run has not ended some goroutine can move. */
  lemma NoDeadlock(c: Config, s: State) returns (a: Action)
    requires c.Valid() && Reachable(c, s) && !s.ctl.launcher.Ended?
    ensures Internal(a) && Enabled(c, s, a)
  {
    ReachableKeeps(c, s);
    hide Reachable;
    match s.ctl.launcher
    case Acquiring =>
      if s.pool.sem < c.conc {
        a := Launch;
      } else {
        a := SomeHolderMoves(c, s);
      }
    case Waiting =>
      if s.pool.wg == 0 {
        a := Launch;
      } else {
        a := SomeWorkerMoves(c, s);
      }
    case Joining =>
      if s.pipe.writer == Exited {
        a := Launch;
      } else {
        a := WriterMoves(c, s);
      }
    case _ => a := Launch;
  }

  lemma SomeHolderMoves(c: Config, s: State) returns (a: Action)
    requires Inv(c, s) && s.pool.sem >= c.conc
    ensures Internal(a) && Enabled(c, s, a)
  {
    var k := SomePositive(s.pool.workers, Holds);
    a := WorkerMoves(c, s, k);
  }

  lemma SomeWorkerMoves(c: Config, s: State) returns (a: Action)
    requires Inv(c, s) && s.ctl.launcher.Waiting? && s.pool.wg > 0
    ensures Internal(a) && Enabled(c, s, a)
  {
    var k := SomePositive(s.pool.workers, Stays);
    a := WorkerMoves(c, s, k);
  }

  /** A worker that is not gone can step, or the writer can make room in the channel for it. */
  lemma WorkerMoves(c: Config, s: State, k: nat) returns (a: Action)
    requires Inv(c, s) && k < |s.pool.workers| && s.pool.workers[k].phase != Gone
    ensures Internal(a) && Enabled(c, s, a)
  {
    match s.pool.workers[k].phase
    case Probing => a := ProbeReturns(k, true);
    case Returned => a := AddDone(k);
    case Counted => a := AddSuccess(k);
    case Rated =>
      if |s.pipe.channel| < 2 * c.flushSize {
        a := Send(k);
      } else {
        ActiveMeansOpen(c, s, k);
        a := WriterMoves(c, s);
      }
    case Sent =>
      SumZero(s.pool.workers, Holds);
      assert Holds(s.pool.workers[k]) == 1;
      a := Leave(k);
    case Released => a := Finish(k);
  }

  lemma WriterMoves(c: Config, s: State) returns (a: Action)
    requires Inv(c, s) && !WriterThrough(s.pipe) && (s.pipe.channel != [] || s.pipe.closed)
    ensures Internal(a) && Enabled(c, s, a)
  {
    match s.pipe.writer
    case Selecting => a := if s.pipe.channel != [] then Receive else Drain(false);
    case Flushing => a := FlushFull(false);
    case ReadingSuccess => a := ReadSuccess;
    case ReadingDone(_) => a := ReadDone;
    case Updating(_, _) => a := WriteProgress;
  }

  // ---------- termination ----------

  function Toil(w: Worker): nat {
    match w.phase
    case Probing => 26 case Returned => 25 case Counted => 24 case Rated => 23
    case Sent => 3 case Released => 2 case Gone => 1
  }

  function WriterToil(w: Writer): nat {
    match w
    case NotStarted => 1 case Selecting => 1 case Flushing => 6 case ReadingSuccess => 4
    case ReadingDone(_) => 3 case Updating(_, _) => 2 case Exited => 0
  }

  function LauncherToil(l: Launcher): nat {
    match l
    case Loading => 20 case MarkRunning => 19 case NoWork => 1 case AtItem => 12 case Acquiring => 11 case Waiting => 9
    case Closing => 8 case Joining => 7 case LastCheck => 6 case Counting => 3 case Marking(_, _) => 2
    case Finishing => 3 case Ended(_) => 0
  }

  function PipeToil(p: Pipe): nat { |p.channel| * 18 + |p.buffer| * 8 + WriterToil(p.writer) }

  /** How many steps a run can still take at most. */
  function Measure(c: Config, s: State): nat {
    LauncherToil(s.ctl.launcher) + (if |s.pool.workers| < c.items then c.items - |s.pool.workers| else 0) * 30
    + Sum(s.pool.workers, Toil) + PipeToil(s.pipe)
  }

  lemma WorkerMeasureDrops(c: Config, s: State, a: Action)
    requires Inv(c, s) && WorkerAction(a) && Enabled(c, s, a)
    ensures Measure(c, Apply(c, s, a)) < Measure(c, s)
  {
    var t := Apply(c, s, a);
    WorkerToils(c, s, a);
    SumUpdate(s.pool.workers, a.w, t.pool.workers[a.w], Toil);
    hide Sum, Inv, Toil, Enabled, Apply, LauncherToil, WriterToil, WorkerAction;
  }

  /** A worker's step changes that worker, and the channel when it sends. */
  lemma WorkerToils(c: Config, s: State, a: Action)
    requires WorkerAction(a) && Enabled(c, s, a)
    ensures var t := Apply(c, s, a);
      && t.ctl == s.ctl && |t.pool.workers| == |s.pool.workers| && a.w < |s.pool.workers|
      && t.pool.workers == s.pool.workers[a.w := t.pool.workers[a.w]]
      && t.pipe.writer == s.pipe.writer && t.pipe.buffer == s.pipe.buffer
      && |t.pipe.channel| == |s.pipe.channel| + (if a.Send? then 1 else 0)
      && Toil(t.pool.workers[a.w]) + (if a.Send? then 18 else 0) < Toil(s.pool.workers[a.w])
  {
  }

  lemma WriterMeasureDrops(c: Config, s: State, a: Action)
    requires Inv(c, s) && WriterAction(a) && Enabled(c, s, a)
    ensures Measure(c, Apply(c, s, a)) < Measure(c, s)
  {
    hide Sum, Conservation, Counters, InOrder, Progress, StopBound, Reports;
  }

  lemma LaunchMeasureDrops(c: Config, s: State)
    requires Inv(c, s) && Enabled(c, s, Launch)
    ensures Measure(c, Apply(c, s, Launch)) < Measure(c, s)
  {
    SumAppend(s.pool.workers, Worker(Probing, false), Toil);
    hide Sum, Conservation, Counters, Progress, StopBound, Reports, CheckPoint, OkRows, FailedRows, HalfUp, Verdict;
  }

  lemma MeasureDrops(c: Config, s: State, a: Action)
    requires Inv(c, s) && Enabled(c, s, a)
    ensures Internal(a) ==> Measure(c, Apply(c, s, a)) < Measure(c, s)
    ensures !Internal(a) ==> Measure(c, Apply(c, s, a)) == Measure(c, s)
  {
    hide Inv, Measure;
    if WorkerAction(a) {
      WorkerMeasureDrops(c, s, a);
    } else if WriterAction(a) {
      WriterMeasureDrops(c, s, a);
    } else if a.Launch? {
      LaunchMeasureDrops(c, s);
    } else {
      StopKeepsMeasure(c, s, a);
    }
  }

  lemma StopKeepsMeasure(c: Config, s: State, a: Action)
    requires !Internal(a) && Enabled(c, s, a)
    ensures Measure(c, Apply(c, s, a)) == Measure(c, s)
  {
  }

  function InternalSteps(acts: seq<Action>): nat {
    if acts == [] then 0 else (if Internal(acts[0]) then 1 else 0) + InternalSteps(acts[1..])
  }

  /** Every schedule, whatever the stop requests do, has at most as many steps of the run itself as the
      measure says at its start. */
  lemma {:induction false} RunsTerminate(c: Config, s: State, acts: seq<Action>, t: State)
    requires Inv(c, s) && Runs(c, s, acts, t)
    ensures InternalSteps(acts) + Measure(c, t) <= Measure(c, s)
    decreases |acts|
  {
    hide Inv, Measure;
    if acts != [] {
      MeasureDrops(c, s, acts[0]);
      StepKeeps(c, s, acts[0]);
      RunsTerminate(c, Apply(c, s, acts[0]), acts[1..], t);
    }
  }

  // ---------- where it ends ----------

  /** Exactly one row for each of the items 0 .. |ws| - 1, with its probe's verdict, and no other row. */
  ghost predicate OneRowEach(rows: seq<Row>, ws: seq<Worker>) {
    && |rows| == |ws|
    && (forall r :: r in rows ==> r.item < |ws| && r.success == ws[r.item].ok)
    && (forall i :: 0 <= i < |ws| ==> multiset(rows)[Row(i, ws[i].ok)] == 1)
  }

  lemma {:induction false} SentBagMembers(ws: seq<Worker>)
    requires forall k :: 0 <= k < |ws| ==> ws[k].phase == Gone
    ensures forall r :: r in SentBag(ws) ==> r.item < |ws| && r.success == ws[r.item].ok
    ensures forall i :: 0 <= i < |ws| ==> SentBag(ws)[Row(i, ws[i].ok)] == 1
    decreases |ws|
  {
    if ws != [] {
      var init := ws[..|ws| - 1];
      SentBagMembers(init);
      assert forall i :: 0 <= i < |init| ==> init[i] == ws[i];
      assert Row(|ws| - 1, ws[|ws| - 1].ok) !in SentBag(init);
    }
  }

  lemma OneEachFromBag(all: seq<Row>, bag: multiset<Row>, ws: seq<Worker>)
    requires multiset(all) == bag && |all| == |ws|
    requires forall r :: r in bag ==> r.item < |ws| && r.success == ws[r.item].ok
    requires forall i :: 0 <= i < |ws| ==> bag[Row(i, ws[i].ok)] == 1
    ensures OneRowEach(all, ws)
  {
    forall r | r in all ensures r in bag {
      assert r in multiset(all);
    }
  }

  lemma BagIsOneEach(all: seq<Row>, ws: seq<Worker>)
    requires multiset(all) == SentBag(ws) && |all| == |ws|
    requires forall k :: 0 <= k < |ws| ==> ws[k].phase == Gone
    ensures OneRowEach(all, ws)
  {
    hide SentBag, OneRowEach;
    SentBagMembers(ws);
    OneEachFromBag(all, SentBag(ws), ws);
  }

  /** When the run has ended every launched item has exactly one row, stored or lost. */
  lemma EndRows(c: Config, s: State)
    requires Inv(c, s) && s.ctl.launcher.Ended?
    ensures s.pipe.lost == [] ==> OneRowEach(s.pipe.rows, s.pool.workers)
    ensures OneRowEach(s.pipe.rows + s.pipe.lost, s.pool.workers)
  {
    AllStored(c, s);
    hide Counters, Progress, StopBound, Reports, Capacity, SentBag, OkRows, Sum, OneRowEach;
    var all := s.pipe.rows + s.pipe.lost;
    assert s.pipe.buffer == [] && s.pipe.channel == [];
    assert multiset(all) == SentBag(s.pool.workers);
    BagIsOneEach(all, s.pool.workers);
    assert s.pipe.lost == [] ==> all == s.pipe.rows;
  }

  /** A run no stop request touched ends with its verdict and one row for every work item, unless a flush
      failed; it ends with the write error, and stays marked running, exactly when one failed; and as failed,
      having done nothing, exactly when there was no work. */
  lemma UnstoppedRunEnds(c: Config, s: State)
    requires c.Valid() && Reachable(c, s) && s.ctl.launcher.Ended? && !s.db.stopRequested
    ensures |s.pool.workers| == c.items
    ensures s.ctl.launcher ==
      if c.items == 0 then Ended(NothingToDo) else if s.pipe.lost == [] then Ended(Finished) else Ended(WriteFailed)
    ensures s.pipe.lost == [] ==>
      && OneRowEach(s.pipe.rows, s.pool.workers)
      && s.db.successCount + s.db.failedCount == c.items == |s.pipe.rows|
      && s.db.status == if c.items == 0 then FailedRun else Verdict(OkRows(s.pipe.rows), c.items)
    ensures s.pipe.lost == [] && c.items > 0 ==> CountsMatch(s.pipe, s.db)
    ensures s.pipe.lost != [] ==> s.db.status == RunningRun
  {
    ReachableKeeps(c, s);
    hide Reachable;
    EndRows(c, s);
    OkAndFailed(s.pipe.rows);
    hide Counters, Conservation, Progress, OkRows, FailedRows, Verdict, HalfUp, OneRowEach;
    match s.ctl.launcher.outcome
    case Finished =>
      assert s.pipe.writer.Exited?;
      assert s.pipe.lost == [];
    case WriteFailed => assert s.pipe.lost != [];
    case Cancelled => assert false;
    case NothingToDo =>
  }

  /** The final status of such a run, and its report, read off the stored rows and off the probes. */
  lemma UnstoppedRunSays(c: Config, s: State)
    requires c.Valid() && Reachable(c, s) && s.ctl.launcher.Ended? && !s.db.stopRequested && s.pipe.lost == [] && c.items > 0
    ensures |s.pool.workers| == c.items && SaysOf(s.db.status, s.pipe.rows)
    ensures s.db.status == SuccessRun <==> forall i :: 0 <= i < c.items ==> s.pool.workers[i].ok
    ensures s.db.status == FailedRun <==> forall i :: 0 <= i < c.items ==> !s.pool.workers[i].ok
    ensures ReportSays(s)
  {
    UnstoppedRunEnds(c, s);
    hide Reachable;
    ReportMeans(s);
    VerdictSays(s.pipe.rows);
    hide Verdict, CountsMatch, ReportSays;
    var rows, ws := s.pipe.rows, s.pool.workers;
    forall i | 0 <= i < c.items ensures exists k :: 0 <= k < |rows| && rows[k] == Row(i, ws[i].ok) {
      assert Row(i, ws[i].ok) in multiset(rows);
    }
    forall k | 0 <= k < |rows| ensures rows[k].item < c.items && rows[k].success == ws[rows[k].item].ok {
      assert rows[k] in rows;
    }
  }

  /** The counts are the numbers of successful and of failed rows, and the ratio is the hundredth of a percent
      nearest to their share, halves rounded up. */
  ghost predicate ReportSays(s: State) {
    var rows := s.pipe.rows;
    && s.db.successCount == |set i | 0 <= i < |rows| && rows[i].success|
    && s.db.failedCount == |set i | 0 <= i < |rows| && !rows[i].success|
    && (rows == [] ==> s.db.ratio == 0)
    && (rows != [] ==>
          && 2 * (s.db.ratio * |rows| - 10000 * s.db.successCount) <= |rows|
          && 2 * (10000 * s.db.successCount - s.db.ratio * |rows|) < |rows|)
  }

  lemma ReportMeans(s: State)
    requires CountsMatch(s.pipe, s.db)
    ensures ReportSays(s)
  {
    OkRowsMean(s.pipe.rows);
    assert Successes(s.pipe.rows) == set i | 0 <= i < |s.pipe.rows| && s.pipe.rows[i].success;
    assert Failures(s.pipe.rows) == set i | 0 <= i < |s.pipe.rows| && !s.pipe.rows[i].success;
    if s.pipe.rows != [] { HalfUpNearest(OkRows(s.pipe.rows), |s.pipe.rows|, HalfUp(OkRows(s.pipe.rows), |s.pipe.rows|)); }
    hide HalfUp, OkRows, FailedRows;
  }

  /** So an unstopped run without a failed flush answers every combination of region, target and protocol. */
  lemma UnstoppedRunCovers(c: Config, s: State, regions: seq<string>, targets: seq<string>, protocols: seq<string>)
    requires c.Valid() && Reachable(c, s) && s.ctl.launcher.Ended? && !s.db.stopRequested && s.pipe.lost == []
    requires c.items == |WorkItems(regions, targets, protocols)|
    ensures s.db.successCount + s.db.failedCount == |s.pipe.rows| == |regions| * |targets| * |protocols|
    ensures forall x: Item :: x.region in regions && x.target in targets && x.protocol in protocols ==>
      exists i :: 0 <= i < c.items && WorkItems(regions, targets, protocols)[i] == x
                  && multiset(s.pipe.rows)[Row(i, s.pool.workers[i].ok)] == 1
  {
    UnstoppedRunEnds(c, s);
    WorkItemsRight(regions, targets, protocols);
    hide Reachable, WorkItems, CountsMatch;
    var work := WorkItems(regions, targets, protocols);
    forall x: Item | x.region in regions && x.target in targets && x.protocol in protocols
      ensures exists i :: 0 <= i < c.items && work[i] == x && multiset(s.pipe.rows)[Row(i, s.pool.workers[i].ok)] == 1
    {
      var i :| 0 <= i < |work| && work[i] == x;
    }
  }

  /** Once a stop request has committed at most `conc` further items are launched. */
  lemma FewLaunchesAfterStop(c: Config, s: State)
    requires c.Valid() && Reachable(c, s) && s.db.stopRequested
    ensures s.stops.mark.Some? && s.stops.mark.value <= |s.pool.workers| <= s.stops.mark.value + c.conc
  {
    ReachableKeeps(c, s);
  }

  /** How a run ends that a stop reached in time: cancelled, its row counting the stored rows; or, when there was
      no work at all, possibly as a run that had nothing to do. */
  ghost predicate EndedByStop(c: Config, s: State) {
    && s.db.stopRequested && |s.pool.workers| <= c.items
    && (c.items > 0 || s.ctl.launcher != Ended(NothingToDo) ==>
          s.ctl.launcher == Ended(Cancelled) && s.db.status == CancelledRun && ReportSays(s))
    && (s.ctl.launcher == Ended(NothingToDo) ==>
          s.pipe.rows == [] && s.db.successCount == 0 == s.db.failedCount && s.db.status in {FailedRun, CancelledRun})
  }

  /** A stop that commits before the final check wins: the run ends cancelled, its row counts the stored rows,
      and, when no flush failed, those are exactly one row for each item of a prefix of the work list. */
  lemma StoppedRunEnds(c: Config, s: State)
    requires c.Valid() && Reachable(c, s) && s.ctl.launcher.Ended? && s.stops.inTime
    ensures EndedByStop(c, s)
    ensures s.pipe.lost == [] ==> OneRowEach(s.pipe.rows, s.pool.workers)
  {
    ReachableKeeps(c, s);
    hide Reachable;
    if CountsMatch(s.pipe, s.db) { ReportMeans(s); }
    EndRows(c, s);
    hide Counters, Conservation, Progress, OkRows, FailedRows, Verdict, HalfUp, OneRowEach;
  }

  /** And an unstopped run without a failed flush on as many regions as are expected ends at 100 percent. */
  lemma FinishedIsComplete(c: Config, s: State, targets: nat, stored: nat, protocols: nat)
    requires c.Valid() && Reachable(c, s) && s.ctl.launcher.Ended? && !s.db.stopRequested && s.pipe.lost == []
    requires c.items == targets * (if stored == 0 then 1 else stored) * protocols && c.items > 0
    ensures s.db.successCount + s.db.failedCount == c.items == ExpectedChecks(targets, stored, protocols)
    ensures HalfUp(s.db.successCount + s.db.failedCount, ExpectedChecks(targets, stored, protocols)) == 10000
  {
    UnstoppedRunEnds(c, s);
    hide Reachable, CountsMatch, OneRowEach;
    HalfUpNearest(c.items, c.items, 10000);
  }

  // ---------- stop requests, along a schedule ----------

  lemma {:induction false} RunsJoin(c: Config, s: State, a: seq<Action>, t: State, b: seq<Action>, u: State)
    requires Runs(c, s, a, t) && Runs(c, t, b, u)
    ensures Runs(c, s, a + b, u)
    decreases |a|
  {
    hide Apply, Enabled;
    if a == [] {
      assert a + b == b;
    } else {
      RunsJoin(c, Apply(c, s, a[0]), a[1..], t, b, u);
      assert (a + b)[0] == a[0] && (a + b)[1..] == a[1..] + b;
    }
  }

  /** What a stop request has recorded stays. */
  lemma {:induction false} MarkStays(c: Config, s: State, acts: seq<Action>, t: State)
    requires Runs(c, s, acts, t) && s.stops.mark.Some? && s.db.stopRequested
    ensures t.stops.mark == s.stops.mark && t.db.stopRequested && (s.stops.inTime ==> t.stops.inTime)
    decreases |acts|
  {
    if acts != [] {
      assert var u := Apply(c, s, acts[0]); u.stops.mark == s.stops.mark && u.db.stopRequested && (s.stops.inTime ==> u.stops.inTime);
      hide Apply, Enabled;
      MarkStays(c, Apply(c, s, acts[0]), acts[1..], t);
    }
  }

  lemma AfterStop(c: Config, before: seq<Action>, s: State, after: seq<Action>, t: State)
    requires Runs(c, Init(), before, s) && Enabled(c, s, StopCommits) && Runs(c, Apply(c, s, StopCommits), after, t)
    ensures Reachable(c, t)
  {
    var u := Apply(c, s, StopCommits);
    assert [StopCommits][1..] == [] && Runs(c, u, [], u);
    assert Runs(c, s, [StopCommits], u);
    hide Runs, Apply, Enabled;
    RunsJoin(c, s, [StopCommits], u, after, t);
    RunsJoin(c, Init(), before, s, [StopCommits] + after, t);
  }

  /** From the moment any stop request commits, at most `conc` further items are launched, whatever happens. */
  lemma StopBoundsLaunches(c: Config, before: seq<Action>, s: State, after: seq<Action>, t: State)
    requires c.Valid()
    requires Runs(c, Init(), before, s) && Enabled(c, s, StopCommits) && Runs(c, Apply(c, s, StopCommits), after, t)
    ensures |t.pool.workers| <= |s.pool.workers| + c.conc
  {
    AfterStop(c, before, s, after, t);
    assert Reachable(c, s);
    ReachableKeeps(c, s);
    MarkStays(c, Apply(c, s, StopCommits), after, t);
    hide Reachable, Runs;
    FewLaunchesAfterStop(c, t);
  }

  /** A stop request that commits before the final check wins, in every schedule from there: if a run with work
      ends, it ends cancelled, with counts equal to its rows, which are one for each item of a prefix of the work
      list when no flush failed. */
  lemma StopInTimeWins(c: Config, before: seq<Action>, s: State, after: seq<Action>, t: State)
    requires c.Valid()
    requires Runs(c, Init(), before, s) && Enabled(c, s, StopCommits) && Runs(c, Apply(c, s, StopCommits), after, t)
    requires BeforeVerdict(s.ctl.launcher) && t.ctl.launcher.Ended?
    ensures EndedByStop(c, t)
    ensures t.pipe.lost == [] ==> OneRowEach(t.pipe.rows, t.pool.workers)
  {
    AfterStop(c, before, s, after, t);
    MarkStays(c, Apply(c, s, StopCommits), after, t);
    hide Reachable, Runs, OneRowEach, EndedByStop;
    StoppedRunEnds(c, t);
  }

  /** When a run has ended nothing happens any more, whatever anybody asks for, exactly when its status is final
      and no stop request is under way that read the status before. */
  lemma EndIsFinal(c: Config, s: State)
    requires c.Valid() && Reachable(c, s) && s.ctl.launcher.Ended?
    ensures (forall a :: !Enabled(c, s, a)) <==> s.stops.open == 0 && s.db.status != PendingRun && s.db.status != RunningRun
  {
    ReachableKeeps(c, s);
    hide Reachable, Inv;
    if s.stops.open == 0 && s.db.status != PendingRun && s.db.status != RunningRun {
      forall a ensures !Enabled(c, s, a) {
        if Internal(a) { NothingInternal(c, s, a); }
      }
    } else {
      assert Enabled(c, s, StopLoads) || Enabled(c, s, StopCommits);
    }
  }

  lemma NothingInternal(c: Config, s: State, a: Action)
    requires Inv(c, s) && s.ctl.launcher.Ended? && Internal(a)
    ensures !Enabled(c, s, a)
  {
    AllStored(c, s);
    hide Counters, Conservation, Progress, Capacity, StopBound, Reports, Sum, OkRows, FailedRows, HalfUp;
  }

  // ---------- with the protocols of a task ----------

  lemma TaskItems(regions: seq<string>, targets: seq<string>, protocol: string)
    ensures |WorkItems(regions, targets, ExpandProtocols(protocol))|
         == |regions| * |targets| * (if protocol == "all" then 5 else 1)
    ensures forall x: Item :: x in WorkItems(regions, targets, ExpandProtocols(protocol)) <==>
      && x.region in regions && x.target in targets
      && (if protocol == "all" then x.protocol in ALL_PROTOCOLS else x.protocol == protocol)
  {
    var protocols := ExpandProtocols(protocol);
    ExpandProtocolsRight(protocol);
    assert |protocols| == if protocol == "all" then 5 else 1;
    hide ExpandProtocols, WorkItems;
    WorkItemsRight(regions, targets, protocols);
    if protocol == "all" {
      assert |protocols| == 5;
    }
  }

  /** An unstopped run of a task answers every region and target in the task's protocol, or in each of the five
      when the task is for all: there is one row for each, and as many rows in all. */
  lemma TaskCovered(c: Config, s: State, regions: seq<string>, targets: seq<string>, protocol: string)
    requires c.Valid() && Reachable(c, s) && s.ctl.launcher.Ended? && !s.db.stopRequested && s.pipe.lost == []
    requires c.items == |WorkItems(regions, targets, ExpandProtocols(protocol))|
    ensures |s.pipe.rows| == |regions| * |targets| * (if protocol == "all" then 5 else 1)
    ensures forall r, d, p ::
      r in regions && d in targets && (if protocol == "all" then p in ALL_PROTOCOLS else p == protocol) ==>
        exists i :: 0 <= i < c.items && WorkItems(regions, targets, ExpandProtocols(protocol))[i] == Item(r, d, p)
                    && multiset(s.pipe.rows)[Row(i, s.pool.workers[i].ok)] == 1
  {
    hide ExpandProtocols, Reachable, WorkItems, CountsMatch;
    UnstoppedRunEnds(c, s);
    TaskItems(regions, targets, protocol);
    var work := WorkItems(regions, targets, ExpandProtocols(protocol));
    forall r, d, p | r in regions && d in targets && (if protocol == "all" then p in ALL_PROTOCOLS else p == protocol)
      ensures exists i :: 0 <= i < c.items && work[i] == Item(r, d, p)
                          && multiset(s.pipe.rows)[Row(i, s.pool.workers[i].ok)] == 1
    {
      assert Item(r, d, p) in work;
      var i :| 0 <= i < |work| && work[i] == Item(r, d, p);
    }
  }
}
