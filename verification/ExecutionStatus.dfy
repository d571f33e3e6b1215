/** The roll-up of region rows into an execution's status (refreshExecutionStatus of
    internal/service/scheduling.go) while any number of RunSingleExecution calls (internal/service/tasks.go)
    and result applications (internal/service/probe.go) write the rows, one database statement a step. */
module ExecutionStatus {
  import opened Rounding
  import opened Sums

  datatype RegionStatus = Pending | Running | Success | Failed

  datatype Row = Row(status: RegionStatus, success: bool)

  datatype ExecStatus = ExecPending | ExecRunning | ExecSuccess | ExecPartial | ExecFailed

  datatype Message = NoMessage | Awaiting(returned: int, total: nat) | AllSucceeded | SomeSucceeded | NoneSucceeded

  /** The execution row; the ratio is in hundredths of a percent. */
  datatype Summary = Summary(status: ExecStatus, successCount: nat, total: nat, ratio: nat, message: Message)

  // ---------- the aggregate ----------

  predicate Waits(r: Row) { r.status == Pending || r.status == Running }

  function OneIfSuccess(r: Row): nat { if r.success then 1 else 0 }

  function OneIfWaiting(r: Row): nat { if Waits(r) then 1 else 0 }

  function SummaryOf(success: nat, waiting: nat, total: nat): Summary {
    var ratio := HalfUp(success, total);
    if waiting > 0 then Summary(ExecRunning, success, total, ratio, Awaiting(total - waiting, total))
    else if total > 0 && success == total then Summary(ExecSuccess, success, total, ratio, AllSucceeded)
    else if success > 0 then Summary(ExecPartial, success, total, ratio, SomeSucceeded)
    else Summary(ExecFailed, success, total, ratio, NoneSucceeded)
  }

  function Aggregate(rows: seq<Row>): Summary {
    SummaryOf(Sum(rows, OneIfSuccess), Sum(rows, OneIfWaiting), |rows|)
  }

  /** What the status says about the rows. */
  lemma AggregateRight(rows: seq<Row>)
    ensures Aggregate(rows).status == ExecRunning <==> exists i :: 0 <= i < |rows| && Waits(rows[i])
    ensures Aggregate(rows).status == ExecSuccess <==>
      rows != [] && forall i :: 0 <= i < |rows| ==> rows[i].success && !Waits(rows[i])
    ensures Aggregate(rows).status == ExecFailed <==> forall i :: 0 <= i < |rows| ==> !rows[i].success && !Waits(rows[i])
    ensures Aggregate(rows).status == ExecPartial <==>
      && (forall i :: 0 <= i < |rows| ==> !Waits(rows[i]))
      && (exists i :: 0 <= i < |rows| && rows[i].success) && (exists i :: 0 <= i < |rows| && !rows[i].success)
    ensures Aggregate(rows).successCount <= Aggregate(rows).total == |rows| && Aggregate(rows).ratio <= 10000
  {
    SumZero(rows, OneIfWaiting);
    SumZero(rows, OneIfSuccess);
    SumZero(rows, r => 1 - OneIfSuccess(r));
    SumComplement(rows);
    SumOfOnes(rows, OneIfSuccess);
    HalfUpRange(Sum(rows, OneIfSuccess), |rows|);
  }

  function Succeeded(rows: seq<Row>): set<int> { set i | 0 <= i < |rows| && rows[i].success }

  function Settled(rows: seq<Row>): set<int> { set i | 0 <= i < |rows| && !Waits(rows[i]) }

  lemma CountsRight(rows: seq<Row>)
    ensures Sum(rows, OneIfSuccess) == |Succeeded(rows)| && Sum(rows, OneIfWaiting) == |rows| - |Settled(rows)|
  {
    SumCounts(rows, OneIfSuccess, Succeeded(rows));
    SumCounts(rows, (r: Row) => 1 - OneIfWaiting(r), Settled(rows));
    WaitingComplement(rows);
  }

  /** The numbers of an aggregate: how many rows succeeded, their share to the nearest hundredth of a percent with
      halves rounded up, and in the message how many no longer wait. */
  lemma NumbersRight(rows: seq<Row>)
    ensures Aggregate(rows).successCount == |set i | 0 <= i < |rows| && rows[i].success|
    ensures var s, n := Aggregate(rows), |rows|;
      if n == 0 then s.ratio == 0
      else 2 * (s.ratio * n - 10000 * s.successCount) <= n && 2 * (10000 * s.successCount - s.ratio * n) < n
    ensures Aggregate(rows).message == match Aggregate(rows).status
      case ExecRunning => Awaiting(|set i | 0 <= i < |rows| && !Waits(rows[i])|, |rows|)
      case ExecSuccess => AllSucceeded
      case ExecPartial => SomeSucceeded
      case _ => NoneSucceeded
  {
    assert Succeeded(rows) == set i | 0 <= i < |rows| && rows[i].success;
    assert Settled(rows) == set i | 0 <= i < |rows| && !Waits(rows[i]);
    CountsRight(rows);
    hide Succeeded, Settled, Sum;
    if rows != [] {
      HalfUpNearest(Sum(rows, OneIfSuccess), |rows|, HalfUp(Sum(rows, OneIfSuccess), |rows|));
      hide HalfUp;
    }
  }

  lemma {:induction false} WaitingComplement(rows: seq<Row>)
    ensures Sum(rows, OneIfWaiting) + Sum(rows, (r: Row) => 1 - OneIfWaiting(r)) == |rows|
    decreases |rows|
  {
    if rows != [] {
      WaitingComplement(rows[..|rows| - 1]);
    }
  }

  lemma {:induction false} SumComplement(rows: seq<Row>)
    ensures Sum(rows, OneIfSuccess) + Sum(rows, r => 1 - OneIfSuccess(r)) == |rows|
    decreases |rows|
  {
    if rows != [] {
      SumComplement(rows[..|rows| - 1]);
    }
  }

  /** The counting loop of a refresh. */
  method RefreshExecutionStatus(rows: seq<Row>) returns (s: Summary)
    ensures s == Aggregate(rows)
  {
    var success, running := 0, 0;
    for k := 0 to |rows|
      invariant success == Sum(rows[..k], OneIfSuccess)
      invariant running == Sum(rows[..k], OneIfWaiting)
    {
      assert rows[..k + 1] == rows[..k] + [rows[k]];
      SumAppend(rows[..k], rows[k], OneIfSuccess);
      SumAppend(rows[..k], rows[k], OneIfWaiting);
      if rows[k].success { success := success + 1; }
      if rows[k].status == Pending || rows[k].status == Running { running := running + 1; }
    }
    assert rows[..|rows|] == rows;
    var ratio := HalfUp(success, |rows|);
    if running > 0 {
      s := Summary(ExecRunning, success, |rows|, ratio, Awaiting(|rows| - running, |rows|));
    } else if |rows| > 0 && success == |rows| {
      s := Summary(ExecSuccess, success, |rows|, ratio, AllSucceeded);
    } else if success > 0 {
      s := Summary(ExecPartial, success, |rows|, ratio, SomeSucceeded);
    } else {
      s := Summary(ExecFailed, success, |rows|, ratio, NoneSucceeded);
    }
  }

  // ---------- runs and applications, interleaved ----------

  /** A run of the whole execution, or the application of a result to one region row. */
  datatype Task = RunAll | ApplyTo(row: nat, success: bool)

  /** Where a task stands. A run goes through the rows it has read; `entered` when it has marked row i running.
      Every task ends with a refresh: it reads the rows and writes their aggregate. */
  datatype Proc =
    | Idle(task: Task) | Marked | AtRow(i: nat, todo: seq<Row>, entered: bool)
    | BeforeRefresh | Refreshing(rows: seq<Row>) | Done

  /** `reported` are the rows behind the last summary written. */
  datatype State = State(rows: seq<Row>, exec: Summary, procs: seq<Proc>, reported: seq<Row>)

  function Init(rows: seq<Row>, exec: Summary, tasks: seq<Task>): State {
    State(rows, exec, seq(|tasks|, i requires 0 <= i < |tasks| => Idle(tasks[i])), [])
  }

  /** What becomes of a row that a run has marked: a result, or a job handed to an agent. */
  datatype Choice = Dispatched | Result(success: bool)

  datatype Action = Begin(p: nat) | Advance(p: nat, choice: Choice) | ReadRows(p: nat) | WriteSummary(p: nat)

  predicate Enabled(s: State, a: Action) {
    && a.p < |s.procs|
    && var proc := s.procs[a.p];
       match a
       case Begin(_) => proc.Idle? && (proc.task.ApplyTo? ==> proc.task.row < |s.rows|)
       case Advance(_, _) => proc.Marked? || (proc.AtRow? && proc.i < |s.rows| && |proc.todo| == |s.rows|)
       case ReadRows(_) => proc.BeforeRefresh? || (proc.AtRow? && proc.i == |proc.todo|)
       case WriteSummary(_) => proc.Refreshing?
  }

  function Persisted(success: bool): Row { Row(if success then Success else Failed, success) }

  function Goto(s: State, p: nat, proc: Proc): State
    requires p < |s.procs|
  {
    s.(procs := s.procs[p := proc])
  }

  function WriteRow(s: State, i: nat, row: Row): State
    requires i < |s.rows|
  {
    s.(rows := s.rows[i := row])
  }

  function Apply(s: State, a: Action): State
    requires Enabled(s, a)
  {
    match a
    case Begin(p) =>
      (match s.procs[p].task
       case RunAll => Goto(s.(exec := s.exec.(status := ExecRunning)), p, Marked)
       case ApplyTo(i, success) => Goto(WriteRow(s, i, Persisted(success)), p, BeforeRefresh))
    case Advance(p, choice) =>
      (match s.procs[p]
       case Marked => Goto(s, p, AtRow(0, s.rows, false))
       case AtRow(i, todo, entered) =>
         if !entered && todo[i].status == Success then Goto(s, p, AtRow(i + 1, todo, false))
         else if !entered then Goto(WriteRow(s, i, s.rows[i].(status := Running)), p, AtRow(i, todo, true))
         else if choice.Result? then Goto(WriteRow(s, i, Persisted(choice.success)), p, AtRow(i + 1, todo, false))
         else Goto(s, p, AtRow(i + 1, todo, false)))
    case ReadRows(p) => Goto(s, p, Refreshing(s.rows))
    case WriteSummary(p) => Goto(s.(exec := Aggregate(s.procs[p].rows), reported := s.procs[p].rows), p, Done)
  }

  ghost predicate Runs(s: State, acts: seq<Action>, t: State)
    decreases |acts|
  {
    if acts == [] then s == t
    else Enabled(s, acts[0]) && Runs(Apply(s, acts[0]), acts[1..], t)
  }

  // ---------- agreement ----------

  predicate InProgress(p: Proc) { !p.Idle? && !p.Done? }

  predicate SomeInProgress(s: State) { exists p :: 0 <= p < |s.procs| && InProgress(s.procs[p]) }

  predicate SomeDone(s: State) { exists p :: 0 <= p < |s.procs| && s.procs[p].Done? }

  ghost predicate Inv(s: State) {
    && (forall p :: 0 <= p < |s.procs| && s.procs[p].AtRow? ==> s.procs[p].i <= |s.procs[p].todo| == |s.rows|)
    && (SomeDone(s) && !SomeInProgress(s) ==> s.exec == Aggregate(s.reported))
  }

  lemma StepKeeps(s: State, a: Action)
    requires Inv(s) && Enabled(s, a)
    ensures Inv(Apply(s, a))
  {
    hide Aggregate;
    if !a.WriteSummary? {
      assert InProgress(Apply(s, a).procs[a.p]);
    }
  }

  lemma {:induction false} RunKeeps(s: State, acts: seq<Action>, t: State)
    requires Inv(s) && Runs(s, acts, t)
    ensures Inv(t)
    decreases |acts|
  {
    hide Inv;
    if acts != [] {
      StepKeeps(s, acts[0]);
      RunKeeps(Apply(s, acts[0]), acts[1..], t);
    }
  }

  /** In every run, when nothing is in progress and something has completed, the execution row is the aggregate
      of the rows that the last refresh read; so it agrees with the region rows exactly when their aggregate is
      still that of those rows. */
  lemma AgreesExactly(rows: seq<Row>, exec: Summary, tasks: seq<Task>, acts: seq<Action>, s: State)
    requires Runs(Init(rows, exec, tasks), acts, s)
    requires SomeDone(s) && !SomeInProgress(s)
    ensures s.exec == Aggregate(s.reported)
    ensures s.exec == Aggregate(s.rows) <==> Aggregate(s.reported) == Aggregate(s.rows)
  {
    RunKeeps(Init(rows, exec, tasks), acts, s);
  }

  /** Every refresh is one step. */
  ghost predicate Uninterrupted(acts: seq<Action>) {
    forall k :: 0 <= k < |acts| && acts[k].ReadRows? ==> k + 1 < |acts| && acts[k + 1] == WriteSummary(acts[k].p)
  }

  ghost predicate BetweenRefreshes(s: State) {
    && Inv(s)
    && (forall p :: 0 <= p < |s.procs| ==> !s.procs[p].Refreshing?)
    && (s.reported == s.rows || SomeInProgress(s) || !SomeDone(s))
  }

  lemma PlainStepKeeps(s: State, a: Action)
    requires BetweenRefreshes(s) && Enabled(s, a) && !a.ReadRows?
    ensures BetweenRefreshes(Apply(s, a))
  {
    StepKeeps(s, a);
    hide Inv;
    assert InProgress(Apply(s, a).procs[a.p]);
  }

  lemma RefreshKeeps(s: State, p: nat)
    requires BetweenRefreshes(s) && Enabled(s, ReadRows(p))
    requires Enabled(Apply(s, ReadRows(p)), WriteSummary(p))
    ensures BetweenRefreshes(Apply(Apply(s, ReadRows(p)), WriteSummary(p)))
  {
    StepKeeps(s, ReadRows(p));
    StepKeeps(Apply(s, ReadRows(p)), WriteSummary(p));
    hide Inv, Aggregate;
  }

  lemma {:induction false} UninterruptedRun(s: State, acts: seq<Action>, t: State)
    requires BetweenRefreshes(s) && Runs(s, acts, t) && Uninterrupted(acts)
    ensures BetweenRefreshes(t)
    decreases |acts|
  {
    hide BetweenRefreshes, Apply, Enabled;
    if acts == [] {
    } else if acts[0].ReadRows? {
      assert acts[1] == WriteSummary(acts[0].p);
      RefreshKeeps(s, acts[0].p);
      assert acts[1..][0] == acts[1] && acts[1..][1..] == acts[2..];
      assert Uninterrupted(acts[2..]) by {
        forall k | 0 <= k < |acts[2..]| && acts[2..][k].ReadRows?
          ensures k + 1 < |acts[2..]| && acts[2..][k + 1] == WriteSummary(acts[2..][k].p)
        {
          assert acts[k + 2].ReadRows?;
        }
      }
      UninterruptedRun(Apply(Apply(s, acts[0]), acts[1]), acts[2..], t);
    } else {
      PlainStepKeeps(s, acts[0]);
      assert Uninterrupted(acts[1..]) by {
        forall k | 0 <= k < |acts[1..]| && acts[1..][k].ReadRows?
          ensures k + 1 < |acts[1..]| && acts[1..][k + 1] == WriteSummary(acts[1..][k].p)
        {
          assert acts[k + 1].ReadRows?;
        }
      }
      UninterruptedRun(Apply(s, acts[0]), acts[1..], t);
    }
  }

  /** With every refresh one step, the execution row is the aggregate of the region rows whenever nothing is in
      progress and something has completed: status, counts, ratio and message. */
  lemma AgreesWhenQuiet(rows: seq<Row>, exec: Summary, tasks: seq<Task>, acts: seq<Action>, s: State)
    requires Runs(Init(rows, exec, tasks), acts, s) && Uninterrupted(acts)
    requires SomeDone(s) && !SomeInProgress(s)
    ensures s.exec == Aggregate(s.rows)
  {
    UninterruptedRun(Init(rows, exec, tasks), acts, s);
  }

  lemma {:induction false} RunThen(s: State, acts: seq<Action>, t: State, a: Action)
    requires Runs(s, acts, t) && Enabled(t, a)
    ensures Runs(s, acts + [a], Apply(t, a))
    decreases |acts|
  {
    hide Apply, Enabled;
    if acts == [] {
      assert [a][1..] == [];
      assert acts + [a] == [a];
    } else {
      RunThen(Apply(s, acts[0]), acts[1..], t, a);
      assert (acts + [a])[0] == acts[0] && (acts + [a])[1..] == acts[1..] + [a];
    }
  }

  lemma Do(first: State, acts: seq<Action>, s: State, a: Action) returns (more: seq<Action>, t: State)
    requires Runs(first, acts, s) && Enabled(s, a)
    ensures Runs(first, more, t) && t == Apply(s, a)
  {
    more, t := acts + [a], Apply(s, a);
    RunThen(first, acts, s, a);
  }

  /** Two results are about to be applied to the two rows of an execution. */
  function TwoPending(): State {
    Init([Row(Running, false), Row(Running, false)], Summary(ExecRunning, 0, 2, 0, Awaiting(0, 2)),
         [ApplyTo(0, true), ApplyTo(1, true)])
  }

  lemma Overtaken() returns (acts: seq<Action>, s: State)
    ensures Runs(TwoPending(), acts, s) && s.procs == [Done, Done]
    ensures s.exec == Aggregate([Persisted(true), Row(Running, false)]) && s.rows == [Persisted(true), Persisted(true)]
  {
    var first := TwoPending();
    assert first.procs == [Idle(ApplyTo(0, true)), Idle(ApplyTo(1, true))];
    assert Runs(first, [], first);
    hide Runs, Aggregate, TwoPending;
    acts, s := Do(first, [], first, Begin(0));
    assert s.rows == [Persisted(true), Row(Running, false)];
    acts, s := Do(first, acts, s, ReadRows(0));
    acts, s := Do(first, acts, s, Begin(1));
    acts, s := Do(first, acts, s, ReadRows(1));
    acts, s := Do(first, acts, s, WriteSummary(1));
    acts, s := Do(first, acts, s, WriteSummary(0));
  }

  /** A refresh that is overtaken leaves a stale status for good: two results arrive, all rows succeeded,
      nothing is in progress, and the execution still says it is running. */
  lemma OvertakenRefreshGoesStale() returns (acts: seq<Action>, s: State)
    ensures Runs(TwoPending(), acts, s)
    ensures s.procs == [Done, Done]
    ensures s.exec.status == ExecRunning && Aggregate(s.rows).status == ExecSuccess
  {
    acts, s := Overtaken();
    hide Runs, Aggregate;
    var read := [Persisted(true), Row(Running, false)];
    assert Waits(read[1]);
    AggregateRight(read);
    AggregateRight(s.rows);
  }

  // ---------- what the rows show ----------

  /** Every task applies a result, each to a row of its own. */
  predicate ApplyOnly(tasks: seq<Task>, rows: nat) {
    && (forall p :: 0 <= p < |tasks| ==> tasks[p].ApplyTo? && tasks[p].row < rows)
    && (forall p, q :: 0 <= p < q < |tasks| ==> tasks[p].row != tasks[q].row)
  }

  predicate ShowsResult(r: Row, success: bool) {
    if success then r == Row(Success, true) else r == Row(Failed, false)
  }

  /** Whoever has begun has written its row, and nobody else writes it. */
  ghost predicate Written(tasks: seq<Task>, rows: seq<Row>, s: State)
    requires ApplyOnly(tasks, |rows|)
  {
    && |s.procs| == |tasks| && |s.rows| == |rows|
    && (forall p :: 0 <= p < |tasks| ==> s.procs[p] == Idle(tasks[p]) || s.procs[p].BeforeRefresh? || s.procs[p].Refreshing? || s.procs[p].Done?)
    && (forall p :: 0 <= p < |tasks| && !s.procs[p].Idle? ==> ShowsResult(s.rows[tasks[p].row], tasks[p].success))
    && (forall i :: 0 <= i < |rows| && (forall p :: 0 <= p < |tasks| && tasks[p].row == i ==> s.procs[p].Idle?) ==> s.rows[i] == rows[i])
  }

  lemma StepWrites(tasks: seq<Task>, rows: seq<Row>, s: State, a: Action)
    requires ApplyOnly(tasks, |rows|) && Written(tasks, rows, s) && Enabled(s, a)
    ensures Written(tasks, rows, Apply(s, a))
  {
    hide Aggregate;
    var t := Apply(s, a);
    if a.Begin? {
      var i := tasks[a.p].row;
      assert t.rows == s.rows[i := Persisted(tasks[a.p].success)] && !t.procs[a.p].Idle?;
      forall j | 0 <= j < |rows| && forall p :: 0 <= p < |tasks| && tasks[p].row == j ==> t.procs[p].Idle?
        ensures t.rows[j] == rows[j]
      {
        assert j != i;
        assert forall p :: 0 <= p < |tasks| && tasks[p].row == j ==> s.procs[p] == t.procs[p];
      }
    } else {
      assert t.rows == s.rows;
      assert forall p :: 0 <= p < |tasks| ==> (t.procs[p].Idle? <==> s.procs[p].Idle?);
    }
  }

  lemma {:induction false} RunWrites(tasks: seq<Task>, rows: seq<Row>, s: State, acts: seq<Action>, t: State)
    requires ApplyOnly(tasks, |rows|) && Written(tasks, rows, s) && Runs(s, acts, t)
    ensures Written(tasks, rows, t)
    decreases |acts|
  {
    hide Written, Apply, Enabled;
    if acts != [] {
      StepWrites(tasks, rows, s, acts[0]);
      RunWrites(tasks, rows, Apply(s, acts[0]), acts[1..], t);
    }
  }

  /** However results arrive and refreshes interleave, once the result of a row has been applied the row shows it,
      and a row without a result is as it was. */
  lemma ResultsShown(rows: seq<Row>, exec: Summary, tasks: seq<Task>, acts: seq<Action>, s: State)
    requires ApplyOnly(tasks, |rows|) && Runs(Init(rows, exec, tasks), acts, s)
    ensures |s.rows| == |rows| && |s.procs| == |tasks|
    ensures forall p :: 0 <= p < |tasks| && s.procs[p].Done? ==> ShowsResult(s.rows[tasks[p].row], tasks[p].success)
    ensures forall i :: 0 <= i < |rows| && (forall p :: 0 <= p < |tasks| ==> tasks[p].row != i) ==> s.rows[i] == rows[i]
  {
    RunWrites(tasks, rows, Init(rows, exec, tasks), acts, s);
  }

  /** Only runs of the whole execution, and each that has read the rows has read row i as a success. */
  ghost predicate Skips(s: State, i: nat, row: Row) {
    && i < |s.rows| && s.rows[i] == row && row.status == Success
    && (forall p :: 0 <= p < |s.procs| && s.procs[p].Idle? ==> s.procs[p].task.RunAll?)
    && (forall p :: 0 <= p < |s.procs| && s.procs[p].AtRow? ==>
          i < |s.procs[p].todo| && s.procs[p].todo[i] == row && (s.procs[p].entered ==> s.procs[p].i != i))
  }

  /** Runs leave a row alone that was a success when they began, however many of them interleave. */
  lemma {:induction false} RunsSkipSuccess(s: State, acts: seq<Action>, t: State, i: nat, row: Row)
    requires Skips(s, i, row) && Runs(s, acts, t)
    ensures Skips(t, i, row)
    decreases |acts|
  {
    hide Aggregate;
    if acts != [] {
      assert Skips(Apply(s, acts[0]), i, row);
      hide Skips, Apply, Enabled;
      RunsSkipSuccess(Apply(s, acts[0]), acts[1..], t, i, row);
    }
  }
}
