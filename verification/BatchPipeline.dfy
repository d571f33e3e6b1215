/** RunBatchExecution of internal/service/batch.go as a state machine: the launcher loop, one worker per
    launched item behind a semaphore, a bounded channel, the buffering writer, and stop requests. Every
    action is one step of one goroutine (one channel, semaphore, atomic or database operation); a schedule is
    any sequence of actions, so a statement about all schedules is a statement about all interleavings. */
module BatchPipeline {
  import opened Rounding
  import opened Sums
  import opened Wrappers

  /** One run: how many work items it has, BatchLocalConcurrency and BatchFlushSize. */
  datatype Config = Config(items: nat, conc: nat, flushSize: nat) {
    predicate Valid() { conc >= 1 && flushSize >= 1 }
  }

  datatype Row = Row(item: nat, success: bool)

  // ---------- the goroutines ----------

  /** What a worker has behind it. Its deferred calls run last: leave the semaphore, then the wait group. */
  datatype Phase = Probing | Returned | Counted | Rated | Sent | Released | Gone

  function Order(p: Phase): nat {
    match p
    case Probing => 0 case Returned => 1 case Counted => 2 case Rated => 3
    case Sent => 4 case Released => 5 case Gone => 6
  }

  /** Worker i probes item i; `ok` is the probe's verdict once it has returned. */
  datatype Worker = Worker(phase: Phase, ok: bool)

  /** NothingToDo: the run had no region or no target. */
  datatype Outcome = Cancelled | WriteFailed | Finished | NothingToDo

  datatype Launcher =
    | Loading | MarkRunning | NoWork | AtItem | Acquiring | Waiting | Closing | Joining | LastCheck
    | Counting | Marking(success: nat, failed: nat) | Finishing | Ended(outcome: Outcome)

  datatype Writer = NotStarted | Selecting | Flushing | ReadingSuccess | ReadingDone(s: nat) | Updating(s: nat, d: nat) | Exited

  datatype Status = PendingRun | RunningRun | SuccessRun | PartialRun | FailedRun | CancelledRun

  /** The execution row. The ratio is in hundredths of a percent. */
  datatype Execution = Execution(status: Status, stopRequested: bool, successCount: int, failedCount: int, ratio: int)

  /** `lastCheck` only records the past: the item at which the last stop check passed. */
  datatype Control = Control(launcher: Launcher, stopped: bool, lastCheck: nat)

  /** The workers, the taken semaphore slots, the wait group and the two counters. */
  datatype Pool = Pool(workers: seq<Worker>, sem: int, wg: int, done: nat, success: nat)

  /** The channel, the writer and the result table. `lost` records the rows of failed flushes. */
  datatype Pipe = Pipe(channel: seq<Row>, closed: bool, writer: Writer, buffer: seq<Row>,
                       writeFailed: bool, lost: seq<Row>, rows: seq<Row>)

  /** `open` counts stop requests that have read a pending or running status and not yet written. `mark` and
      `inTime` record how many items were launched when a stop first committed, and whether one committed
      before the final check. */
  datatype Stops = Stops(open: nat, mark: Option<nat>, inTime: bool)

  datatype State = State(ctl: Control, pool: Pool, pipe: Pipe, db: Execution, stops: Stops)

  function Init(): State {
    State(Control(Loading, false, 0), Pool([], 0, 0, 0, 0), Pipe([], false, NotStarted, [], false, [], []),
          Execution(PendingRun, false, 0, 0, 0), Stops(0, None, false))
  }

  datatype Action =
    | Launch
    | ProbeReturns(w: nat, ok: bool) | AddDone(w: nat) | AddSuccess(w: nat) | Send(w: nat) | Leave(w: nat) | Finish(w: nat)
    | Receive | FlushFull(fails: bool) | Tick(fails: bool) | ReadSuccess | ReadDone | WriteProgress | Drain(fails: bool)
    | StopLoads | StopCommits

  /** Everything but the stop requests of other users. */
  predicate Internal(a: Action) { !a.StopLoads? && !a.StopCommits? }

  // ---------- arithmetic of the reports ----------

  function OkRows(rows: seq<Row>): nat {
    if rows == [] then 0 else OkRows(rows[..|rows| - 1]) + if rows[|rows| - 1].success then 1 else 0
  }

  function FailedRows(rows: seq<Row>): nat {
    if rows == [] then 0 else FailedRows(rows[..|rows| - 1]) + if rows[|rows| - 1].success then 0 else 1
  }

  function Verdict(success: nat, total: nat): Status {
    if success == total then SuccessRun else if success > 0 then PartialRun else FailedRun
  }

  // ---------- the steps ----------

  predicate InPhase(p: Pool, w: nat, phase: Phase) {
    w < |p.workers| && p.workers[w].phase == phase
  }

  predicate Enabled(c: Config, s: State, a: Action) {
    match a
    case Launch =>
      (match s.ctl.launcher
       case Acquiring => s.pool.sem < c.conc
       case Waiting => s.pool.wg == 0
       case Joining => s.pipe.writer == Exited
       case Ended(_) => false
       case _ => true)
    case ProbeReturns(w, ok) => InPhase(s.pool, w, Probing)
    case AddDone(w) => InPhase(s.pool, w, Returned)
    case AddSuccess(w) => InPhase(s.pool, w, Counted)
    case Send(w) => InPhase(s.pool, w, Rated) && |s.pipe.channel| < 2 * c.flushSize
    case Leave(w) => InPhase(s.pool, w, Sent) && s.pool.sem > 0
    case Finish(w) => InPhase(s.pool, w, Released)
    case Receive => s.pipe.writer == Selecting && s.pipe.channel != []
    case FlushFull(_) => s.pipe.writer == Flushing
    case Tick(_) => s.pipe.writer == Selecting && s.pipe.buffer != []
    case ReadSuccess => s.pipe.writer == ReadingSuccess
    case ReadDone => s.pipe.writer.ReadingDone?
    case WriteProgress => s.pipe.writer.Updating?
    case Drain(_) => s.pipe.writer == Selecting && s.pipe.channel == [] && s.pipe.closed
    case StopLoads => s.db.status == PendingRun || s.db.status == RunningRun
    case StopCommits => s.stops.open > 0
  }

  function Apply(c: Config, s: State, a: Action): State
    requires Enabled(c, s, a)
  {
    match a
    case Launch => LaunchStep(c, s)
    case ProbeReturns(w, ok) => s.(pool := SetWorker(s.pool, w, Worker(Returned, ok)))
    case AddDone(w) =>
      s.(pool := SetPhase(s.pool, w, Counted).(done := s.pool.done + 1))
    case AddSuccess(w) =>
      s.(pool := SetPhase(s.pool, w, Rated).(success := s.pool.success + if s.pool.workers[w].ok then 1 else 0))
    case Send(w) =>
      s.(pool := SetPhase(s.pool, w, Sent),
         pipe := s.pipe.(channel := s.pipe.channel + [Row(w, s.pool.workers[w].ok)]))
    case Leave(w) => s.(pool := SetPhase(s.pool, w, Released).(sem := s.pool.sem - 1))
    case Finish(w) => s.(pool := SetPhase(s.pool, w, Gone).(wg := s.pool.wg - 1))
    case Receive => s.(pipe := TakeOne(c, s.pipe))
    case FlushFull(fails) => s.(pipe := Flush(s.pipe, fails).(writer := ReadingSuccess))
    case Tick(fails) => s.(pipe := Flush(s.pipe, fails))
    case ReadSuccess => s.(pipe := s.pipe.(writer := ReadingDone(s.pool.success)))
    case ReadDone => s.(pipe := s.pipe.(writer := Updating(s.pipe.writer.s, s.pool.done)))
    case WriteProgress =>
      s.(pipe := s.pipe.(writer := Selecting),
         db := s.db.(successCount := s.pipe.writer.s, failedCount := s.pipe.writer.d - s.pipe.writer.s))
    case Drain(fails) => s.(pipe := Flush(s.pipe, fails).(writer := Exited))
    case StopLoads => s.(stops := s.stops.(open := s.stops.open + 1))
    case StopCommits =>
      s.(db := s.db.(status := CancelledRun, stopRequested := true),
         stops := Stops(s.stops.open - 1,
                        if s.stops.mark.Some? then s.stops.mark else Some(|s.pool.workers|),
                        s.stops.inTime || BeforeVerdict(s.ctl.launcher)))
  }

  predicate BeforeVerdict(l: Launcher) {
    !(l.Counting? || l.Marking? || l.Finishing? || l.NoWork? || l.Ended?)
  }

  function SetWorker(p: Pool, w: nat, worker: Worker): Pool
    requires w < |p.workers|
  {
    p.(workers := p.workers[w := worker])
  }

  function SetPhase(p: Pool, w: nat, phase: Phase): Pool
    requires w < |p.workers|
  {
    SetWorker(p, w, p.workers[w].(phase := phase))
  }

  /** The writer's receive: append to the buffer, and turn to a flush when it is full. */
  function TakeOne(c: Config, p: Pipe): Pipe
    requires p.channel != []
  {
    var buffer := p.buffer + [p.channel[0]];
    p.(channel := p.channel[1..], buffer := buffer, writer := if |buffer| >= c.flushSize then Flushing else Selecting)
  }

  /** The writer's flush: one transaction; on an error the rows are dropped and the error is kept. */
  function Flush(p: Pipe, fails: bool): Pipe {
    if p.buffer == [] then p
    else if fails then p.(buffer := [], lost := p.lost + p.buffer, writeFailed := true)
    else p.(buffer := [], rows := p.rows + p.buffer)
  }

  /** The launcher looks for a stop at every multiple of the concurrency. */
  predicate CheckPoint(n: nat, conc: nat) { conc > 0 && n % conc == 0 }

  function LaunchStep(c: Config, s: State): State {
    var n := |s.pool.workers|;
    match s.ctl.launcher
    case Loading => Goto(s, if s.db.stopRequested then Counting else MarkRunning)
    case MarkRunning =>
      if c.items == 0 then Goto(s, NoWork).(db := s.db.(status := RunningRun))
      else Goto(s, AtItem).(pipe := s.pipe.(writer := Selecting), db := s.db.(status := RunningRun))
    case NoWork => Goto(s, Ended(NothingToDo)).(db := s.db.(status := FailedRun, failedCount := 0))
    case AtItem =>
      if n >= c.items then Goto(s, Waiting)
      else if CheckPoint(n, c.conc) && s.db.stopRequested then s.(ctl := s.ctl.(launcher := Waiting, stopped := true))
      else
        s.(ctl := Control(Acquiring, s.ctl.stopped, if CheckPoint(n, c.conc) then n else s.ctl.lastCheck),
           pool := s.pool.(wg := s.pool.wg + 1))
    case Acquiring =>
      Goto(s, AtItem).(pool := s.pool.(sem := s.pool.sem + 1, workers := s.pool.workers + [Worker(Probing, false)]))
    case Waiting => Goto(s, Closing)
    case Closing => Goto(s, Joining).(pipe := s.pipe.(closed := true))
    case Joining => Goto(s, LastCheck)
    case LastCheck =>
      Goto(s, if s.ctl.stopped || s.db.stopRequested then Counting
              else if s.pipe.writeFailed then Ended(WriteFailed)
              else Finishing)
    case Counting => Goto(s, Marking(OkRows(s.pipe.rows), FailedRows(s.pipe.rows)))
    case Marking(success, failed) =>
      Goto(s, Ended(Cancelled)).(db := Execution(CancelledRun, true, success, failed, HalfUp(success, success + failed)))
    case Finishing =>
      Goto(s, Ended(Finished)).(
        db := s.db.(status := Verdict(s.pool.success, c.items), successCount := s.pool.success,
                    failedCount := c.items - s.pool.success,
                    ratio := HalfUp(s.pool.success, if c.items > 1 then c.items else 1)))
    case Ended(_) => s
  }

  function Goto(s: State, l: Launcher): State { s.(ctl := s.ctl.(launcher := l)) }

  /** `acts` is a schedule that leads from s to t. */
  ghost predicate Runs(c: Config, s: State, acts: seq<Action>, t: State)
    decreases |acts|
  {
    if acts == [] then s == t
    else Enabled(c, s, acts[0]) && Runs(c, Apply(c, s, acts[0]), acts[1..], t)
  }

  ghost predicate Reachable(c: Config, s: State) {
    exists acts :: Runs(c, Init(), acts, s)
  }

  // ---------- what the counters count ----------

  function Holds(w: Worker): nat { if Order(w.phase) <= 4 then 1 else 0 }

  function Stays(w: Worker): nat { if w.phase != Gone then 1 else 0 }

  function HasCounted(w: Worker): nat { if Order(w.phase) >= 2 then 1 else 0 }

  function HasRated(w: Worker): nat { if Order(w.phase) >= 3 && w.ok then 1 else 0 }

  function HasSent(w: Worker): nat { if Order(w.phase) >= 4 then 1 else 0 }

  function HasSentOk(w: Worker): nat { if Order(w.phase) >= 4 && w.ok then 1 else 0 }

  /** The rows the workers have handed over. */
  function SentBag(ws: seq<Worker>): multiset<Row> {
    if ws == [] then multiset{}
    else SentBag(ws[..|ws| - 1]) +
         if Order(ws[|ws| - 1].phase) >= 4 then multiset{Row(|ws| - 1, ws[|ws| - 1].ok)} else multiset{}
  }

  lemma {:induction false} SentBagSame(ws: seq<Worker>, k: nat, w: Worker)
    requires k < |ws|
    requires (Order(ws[k].phase) >= 4) == (Order(w.phase) >= 4)
    requires Order(w.phase) >= 4 ==> ws[k].ok == w.ok
    ensures SentBag(ws[k := w]) == SentBag(ws)
    decreases |ws|
  {
    hide Order;
    if k == |ws| - 1 {
      assert ws[k := w][..k] == ws[..k];
    } else {
      assert ws[k := w][..|ws| - 1] == ws[..|ws| - 1][k := w];
      SentBagSame(ws[..|ws| - 1], k, w);
    }
  }

  lemma {:induction false} SentBagGrows(ws: seq<Worker>, k: nat, w: Worker)
    requires k < |ws| && Order(ws[k].phase) < 4 <= Order(w.phase)
    ensures SentBag(ws[k := w]) == SentBag(ws) + multiset{Row(k, w.ok)}
    decreases |ws|
  {
    if k == |ws| - 1 {
      assert ws[k := w][..k] == ws[..k];
    } else {
      assert ws[k := w][..|ws| - 1] == ws[..|ws| - 1][k := w];
      SentBagGrows(ws[..|ws| - 1], k, w);
    }
  }

  lemma {:induction false} OkRowsConcat(a: seq<Row>, b: seq<Row>)
    ensures OkRows(a + b) == OkRows(a) + OkRows(b)
    decreases |b|
  {
    if b == [] {
      assert a + b == a;
    } else {
      assert (a + b)[..|a + b| - 1] == a + b[..|b| - 1];
      OkRowsConcat(a, b[..|b| - 1]);
    }
  }

  lemma {:induction false} OkAndFailed(rows: seq<Row>)
    ensures OkRows(rows) + FailedRows(rows) == |rows|
    decreases |rows|
  {
    if rows != [] {
      OkAndFailed(rows[..|rows| - 1]);
    }
  }

  function Successes(rows: seq<Row>): set<nat> { set i | 0 <= i < |rows| && rows[i].success }

  function Failures(rows: seq<Row>): set<nat> { set i | 0 <= i < |rows| && !rows[i].success }

  lemma {:induction false} RowsCounted(rows: seq<Row>)
    ensures OkRows(rows) == |Successes(rows)| && FailedRows(rows) == |Failures(rows)|
    decreases |rows|
  {
    if rows != [] {
      RowsCounted(rows[..|rows| - 1]);
      OneRowMore(rows);
      hide Successes, Failures;
    }
  }

  lemma OneRowMore(rows: seq<Row>)
    requires rows != []
    ensures var n := |rows| - 1;
      && n !in Successes(rows[..n]) && n !in Failures(rows[..n])
      && Successes(rows) == (if rows[n].success then Successes(rows[..n]) + {n} else Successes(rows[..n]))
      && Failures(rows) == (if rows[n].success then Failures(rows[..n]) else Failures(rows[..n]) + {n})
  {
  }

  /** The two counts are numbers of rows. */
  lemma OkRowsMean(rows: seq<Row>)
    ensures OkRows(rows) == |Successes(rows)| && FailedRows(rows) == |Failures(rows)|
    ensures OkRows(rows) == |rows| <==> forall i :: 0 <= i < |rows| ==> rows[i].success
    ensures OkRows(rows) == 0 <==> forall i :: 0 <= i < |rows| ==> !rows[i].success
  {
    RowsCounted(rows);
    OkAndFailed(rows);
    forall i: nat | i < |rows|
      ensures i in Successes(rows) <==> rows[i].success
      ensures i in Failures(rows) <==> !rows[i].success
    {
    }
    assert Successes(rows) == {} <==> |Successes(rows)| == 0;
    assert Failures(rows) == {} <==> |Failures(rows)| == 0;
    hide OkRows, FailedRows;
    if forall i :: 0 <= i < |rows| ==> rows[i].success { assert Failures(rows) == {}; }
    if forall i :: 0 <= i < |rows| ==> !rows[i].success { assert Successes(rows) == {}; }
  }

  /** What a final status says: that all rows are successes, that none is, or that some are and some are not. */
  ghost predicate SaysOf(status: Status, rows: seq<Row>) {
    && (status == SuccessRun <==> forall i :: 0 <= i < |rows| ==> rows[i].success)
    && (status == FailedRun <==> forall i :: 0 <= i < |rows| ==> !rows[i].success)
    && (status == PartialRun <==>
          (exists i :: 0 <= i < |rows| && rows[i].success) && (exists i :: 0 <= i < |rows| && !rows[i].success))
  }

  lemma VerdictSays(rows: seq<Row>)
    requires rows != []
    ensures SaysOf(Verdict(OkRows(rows), |rows|), rows)
  {
    OkRowsMean(rows);
    hide OkRows;
    assert rows[0].success || !rows[0].success;
  }

  // ---------- what every state keeps ----------

  ghost predicate Counters(c: Config, p: Pool, l: Launcher) {
    && p.sem == Sum(p.workers, Holds) && p.sem <= c.conc
    && p.wg == Sum(p.workers, Stays) + (if l.Acquiring? then 1 else 0)
    && p.done == Sum(p.workers, HasCounted)
    && p.success == Sum(p.workers, HasRated)
  }

  /** Every row handed over is in exactly one of four places: stored, lost, buffered, in the channel. */
  ghost predicate Conservation(ws: seq<Worker>, p: Pipe) {
    && multiset(p.rows) + multiset(p.lost) + multiset(p.buffer) + multiset(p.channel) == SentBag(ws)
    && |p.rows| + |p.lost| + |p.buffer| + |p.channel| == Sum(ws, HasSent)
    && OkRows(p.rows) + OkRows(p.lost) + OkRows(p.buffer) + OkRows(p.channel) == Sum(ws, HasSentOk)
  }

  ghost predicate Capacity(c: Config, p: Pipe) {
    && |p.channel| <= 2 * c.flushSize
    && (if p.writer == Flushing then |p.buffer| == c.flushSize else |p.buffer| < c.flushSize)
    && (p.writeFailed <==> p.lost != [])
  }

  predicate Fresh(l: Launcher) { l.Loading? || l.MarkRunning? }

  predicate Launching(l: Launcher) { l.AtItem? || l.Acquiring? }

  /** Behind the wait group. */
  predicate Joined(l: Launcher) { !Fresh(l) && !Launching(l) && !l.Waiting? }

  predicate Idle(l: Launcher) { l.NoWork? || l == Ended(NothingToDo) }

  predicate Cancelling(l: Launcher) { l.Counting? || l.Marking? || l == Ended(Cancelled) }

  predicate WriterThrough(p: Pipe) { p.writer.NotStarted? || p.writer.Exited? }

  predicate Unused(p: Pipe) { p.rows == [] && p.lost == [] && p.buffer == [] && p.channel == [] && !p.closed }

  ghost predicate InOrder(c: Config, ctl: Control, n: nat, wg: int, p: Pipe, stop: bool) {
    var l := ctl.launcher;
    && n <= c.items && (l.Acquiring? ==> n < c.items)
    && (Fresh(l) || Idle(l) ==> p.writer.NotStarted? && !ctl.stopped)
    && (Idle(l) ==> c.items == 0)
    && (!p.writer.NotStarted? ==> c.items > 0)
    && (p.writer.NotStarted? ==> n == 0 && wg == 0 && Unused(p) && (Fresh(l) || Idle(l) || Cancelling(l)))
    && (Launching(l) || l.Waiting? || l.Closing? ==> !p.closed && !p.writer.Exited?)
    && (Launching(l) ==> !ctl.stopped)
    && (l.Joining? ==> p.closed)
    && (!Fresh(l) && !Launching(l) && !p.writer.NotStarted? ==> ctl.stopped || n == c.items)
    && (Joined(l) ==> wg == 0)
    && (l.LastCheck? || !BeforeVerdict(l) ==> WriterThrough(p))
    && (p.writer.Exited? ==> p.closed && p.channel == [] && p.buffer == [])
    && (p.closed ==> l.Joining? || l.LastCheck? || !BeforeVerdict(l))
    && (ctl.stopped || Cancelling(l) ==> stop)
    && (l.Finishing? || l == Ended(Finished) ==> !ctl.stopped && !p.writeFailed && p.writer.Exited?)
    && (l == Ended(WriteFailed) ==> p.writeFailed && p.writer.Exited?)
  }

  ghost predicate Progress(pool: Pool, p: Pipe, db: Execution) {
    && (p.writer.ReadingDone? ==> p.writer.s <= pool.success)
    && (p.writer.Updating? ==> p.writer.s <= p.writer.d <= pool.done && |p.rows| + |p.lost| <= p.writer.d)
    && db.successCount >= 0 && db.failedCount >= 0
    && db.successCount + db.failedCount <= |pool.workers|
  }

  ghost predicate StopBound(c: Config, ctl: Control, n: nat, stop: bool, stops: Stops) {
    && (stop <==> stops.mark.Some?)
    && CheckPoint(ctl.lastCheck, c.conc) && ctl.lastCheck <= n <= ctl.lastCheck + c.conc
    && (ctl.launcher.Acquiring? ==> n < ctl.lastCheck + c.conc)
    && (stops.mark.Some? ==> ctl.lastCheck <= stops.mark.value <= n)
    && (stops.inTime && c.items > 0 ==> BeforeVerdict(ctl.launcher) || Cancelling(ctl.launcher))
    && (stops.inTime ==> stop)
  }

  /** Marked running and without a verdict, for good after a write error. */
  predicate UnderWay(l: Launcher) {
    l.NoWork? || Launching(l) || l.Waiting? || l.Closing? || l.Joining? || l.LastCheck? || l.Finishing? || l == Ended(WriteFailed)
  }

  /** The execution row reports exactly the stored rows. */
  ghost predicate CountsMatch(p: Pipe, db: Execution) {
    && db.successCount == OkRows(p.rows) && db.failedCount == FailedRows(p.rows)
    && db.ratio == HalfUp(OkRows(p.rows), |p.rows|)
  }

  ghost predicate Reports(c: Config, l: Launcher, p: Pipe, db: Execution) {
    && (l.Marking? ==> l.success == OkRows(p.rows) && l.failed == FailedRows(p.rows))
    && (l == Ended(Cancelled) ==> db.status == CancelledRun && CountsMatch(p, db))
    && (UnderWay(l) ==> db.status == RunningRun || (db.stopRequested && db.status == CancelledRun))
    && (l == Ended(NothingToDo) ==>
          db.successCount == 0 == db.failedCount
          && (db.status == FailedRun || (db.stopRequested && db.status == CancelledRun)))
    && (l == Ended(Finished) ==>
          CountsMatch(p, db) && |p.rows| == c.items && p.lost == []
          && (db.status == Verdict(OkRows(p.rows), c.items) || (db.stopRequested && db.status == CancelledRun)))
  }

  ghost predicate Inv(c: Config, s: State) {
    && c.Valid()
    && Counters(c, s.pool, s.ctl.launcher)
    && Conservation(s.pool.workers, s.pipe)
    && Capacity(c, s.pipe)
    && InOrder(c, s.ctl, |s.pool.workers|, s.pool.wg, s.pipe, s.db.stopRequested)
    && Progress(s.pool, s.pipe, s.db)
    && StopBound(c, s.ctl, |s.pool.workers|, s.db.stopRequested, s.stops)
    && Reports(c, s.ctl.launcher, s.pipe, s.db)
  }
}
