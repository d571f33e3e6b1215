/** ApplyProbeJobResult of internal/service/probe.go with persistRegionResult of internal/service/tasks.go,
    run any number of times at once on the payload of one job: every bridge applies every copy it gets, and
    the database statements of the applications interleave in any order. */
module ProbeDelivery {
  import opened ProbeAgent
  import opened Text
  import opened Wrappers

  datatype JobStatus = Queued | Published | Leased | Completed | Failed | Cancelled

  datatype StepRow = StepRow(protocol: string, status: string, resolved: string, latency: Option<int>,
                             errorCode: string, errorMessage: string, detail: string)

  datatype RegionRow = RegionRow(status: string, success: bool, resolved: string, latency: Option<int>,
                                 errorCode: string, errorMessage: string, rawPayload: string)

  datatype ProbeResult = ProbeResult(protocol: string, detail: string)

  /** The job's step rows, its region row, and the ProbeResult rows of that region row by ascending id. */
  datatype Tables = Tables(steps: seq<StepRow>, region: RegionRow, results: seq<ProbeResult>)

  /** protocolDetailForAPI followed by JSON encoding. */
  type Renaming = (string, string) -> string

  // ---------- one statement each ----------

  function Verdict(success: bool): string { if success then "success" else "failed" }

  function StepApplied(row: StepRow, o: Outcome): StepRow {
    row.(status := Verdict(o.success), resolved := o.detailTarget, latency := o.latency,
         errorCode := o.errorCode, errorMessage := o.errorMessage, detail := o.detail)
  }

  /** The result handed on carries no resolved target, and a latency only when the step has one. */
  function RegionApplied(row: RegionRow, o: Outcome): RegionRow {
    row.(status := Verdict(o.success), success := o.success, resolved := "",
         latency := if o.latency.Some? then o.latency else row.latency,
         errorCode := o.errorCode, errorMessage := o.errorMessage, rawPayload := "{}")
  }

  /** (execution_region_id, protocol) is unique: a statement that would repeat a protocol fails, and its error
      is not looked at. */
  function Updated(results: seq<ProbeResult>, r: ProbeResult): seq<ProbeResult>
    requires results != []
  {
    if exists k :: 1 <= k < |results| && results[k].protocol == r.protocol then results else results[0 := r]
  }

  function Inserted(results: seq<ProbeResult>, r: ProbeResult): seq<ProbeResult> {
    if exists k :: 0 <= k < |results| && results[k].protocol == r.protocol then results else results + [r]
  }

  // ---------- what one application leaves ----------

  function ProtocolOf(steps: seq<StepRow>): string { if steps == [] then "dns" else steps[0].protocol }

  function ResultOf(t: Tables, o: Outcome, api: Renaming): ProbeResult {
    ProbeResult(ProtocolOf(t.steps), api(ProtocolOf(t.steps), o.detail))
  }

  function AppliedSteps(rows: seq<StepRow>, steps: seq<StepResult>): seq<StepRow> {
    seq(|rows|, j requires 0 <= j < |rows| => if j < |steps| then StepApplied(rows[j], steps[j].outcome) else rows[j])
  }

  function AppliedResults(t: Tables, o: Outcome, api: Renaming): seq<ProbeResult> {
    var r := ResultOf(t, o, api);
    if t.results == [] then Inserted(t.results, r) else Updated(t.results, r)
  }

  function ApplyOnce(t: Tables, steps: seq<StepResult>, api: Renaming): Tables {
    if steps == [] then t
    else Tables(AppliedSteps(t.steps, steps), RegionApplied(t.region, steps[0].outcome),
                AppliedResults(t, steps[0].outcome, api))
  }

  // ---------- applications in any interleaving ----------

  datatype Phase = AtStep | AtRegion | Looking | Storing(found: bool)

  /** One application: before its status check, past it, past the completed mark, at the i-th step result with
      the protocols of the step rows it found, or gone because the check refused it. */
  datatype Proc = Waiting | Passed | Marked | Working(i: nat, phase: Phase, protocols: seq<string>) | Refused

  datatype State = State(status: JobStatus, tables: Tables, procs: seq<Proc>)

  datatype Env = Env(steps: seq<StepResult>, api: Renaming)

  function Init(status: JobStatus, tables: Tables, n: nat): State {
    State(status, tables, seq(n, i => Waiting))
  }

  /** `Outside` is a status write of a dispatcher or a requeue loop; the others are the next statement of
      application p. */
  datatype Action = Outside(status: JobStatus) | Step(p: nat)

  predicate Finished(env: Env, proc: Proc) { proc.Working? && proc.i == |env.steps| }

  predicate Enabled(env: Env, s: State, a: Action) {
    match a
    case Outside(status) => status == Published || status == Failed
    case Step(p) => p < |s.procs| && s.procs[p] != Refused && !Finished(env, s.procs[p])
                    && (s.procs[p].Working? ==> s.procs[p].i < |env.steps|)
                    && (s.procs[p].Working? && s.procs[p].phase == Storing(true) ==> s.tables.results != [])
  }

  function Protocols(rows: seq<StepRow>): seq<string> {
    seq(|rows|, j requires 0 <= j < |rows| => rows[j].protocol)
  }

  function StoredResult(env: Env, proc: Proc): ProbeResult
    requires proc.Working? && proc.i < |env.steps|
  {
    var protocol := if proc.protocols == [] then "dns" else proc.protocols[0];
    ProbeResult(protocol, env.api(protocol, env.steps[proc.i].outcome.detail))
  }

  /** The statement at which a working application stands, and where it stands afterwards. */
  function WorkStep(env: Env, t: Tables, proc: Proc): (Tables, Proc)
    requires proc.Working? && proc.i < |env.steps|
    requires proc.phase == Storing(true) ==> t.results != []
  {
    var i, o := proc.i, env.steps[proc.i].outcome;
    match proc.phase
    case AtStep =>
      (if i < |t.steps| then t.(steps := t.steps[i := StepApplied(t.steps[i], o)]) else t,
       if i == 0 then proc.(phase := AtRegion) else proc.(i := i + 1))
    case AtRegion => (t.(region := RegionApplied(t.region, o)), proc.(phase := Looking))
    case Looking => (t, proc.(phase := Storing(t.results != [])))
    case Storing(found) =>
      (t.(results := if found then Updated(t.results, StoredResult(env, proc))
                     else Inserted(t.results, StoredResult(env, proc))),
       proc.(i := i + 1, phase := AtStep))
  }

  function Apply(env: Env, s: State, a: Action): State
    requires Enabled(env, s, a)
  {
    match a
    case Outside(status) => s.(status := status)
    case Step(p) =>
      match s.procs[p]
      case Waiting =>
        s.(procs := s.procs[p := if s.status == Completed || s.status == Cancelled then Refused else Passed])
      case Passed => s.(status := Completed, procs := s.procs[p := Marked])
      case Marked => s.(procs := s.procs[p := Working(0, AtStep, Protocols(s.tables.steps))])
      case Working(_, _, _) =>
        var next := WorkStep(env, s.tables, s.procs[p]);
        State(s.status, next.0, s.procs[p := next.1])
  }

  ghost predicate Runs(env: Env, s: State, acts: seq<Action>, t: State)
    decreases |acts|
  {
    if acts == [] then s == t
    else Enabled(env, s, acts[0]) && Runs(env, Apply(env, s, acts[0]), acts[1..], t)
  }

  // ---------- what every state keeps ----------

  predicate PastStep(proc: Proc, j: nat) {
    proc.Working? && (proc.i > j || (proc.i == j && proc.phase != AtStep))
  }

  predicate PastRegion(proc: Proc) {
    proc.Working? && (proc.i > 0 || proc.phase == Looking || proc.phase.Storing?)
  }

  predicate PastResult(proc: Proc) { proc.Working? && proc.i > 0 }

  ghost predicate ProcOk(env: Env, t0: Tables, t: Tables, proc: Proc) {
    var final := ApplyOnce(t0, env.steps, env.api);
    proc.Working? ==>
      && proc.protocols == Protocols(t0.steps)
      && proc.i <= |env.steps|
      && (proc.phase != AtStep ==> proc.i == 0 < |env.steps|)
      && (proc.phase == Storing(true) ==> t.results != [])
      && (proc.phase == Storing(false) ==> t0.results == [])
      && (forall j :: 0 <= j < |t.steps| && j < |final.steps| && PastStep(proc, j) ==> t.steps[j] == final.steps[j])
      && (PastRegion(proc) ==> t.region == final.region)
      && (PastResult(proc) ==> t.results == final.results)
  }

  /** Every row is as it was or as one application leaves it. */
  ghost predicate TablesOk(env: Env, t0: Tables, t: Tables) {
    var final := ApplyOnce(t0, env.steps, env.api);
    && |t.steps| == |t0.steps| == |final.steps|
    && (forall j :: 0 <= j < |t.steps| ==> t.steps[j] == t0.steps[j] || t.steps[j] == final.steps[j])
    && (t.region == t0.region || t.region == final.region)
    && (t.results == t0.results || t.results == final.results)
  }

  ghost predicate Inv(env: Env, t0: Tables, s: State) {
    && TablesOk(env, t0, s.tables)
    && (forall p :: 0 <= p < |s.procs| ==> ProcOk(env, t0, s.tables, s.procs[p]))
  }

  lemma StoreKeeps(env: Env, t0: Tables, t: Tables, proc: Proc)
    requires TablesOk(env, t0, t) && ProcOk(env, t0, t, proc)
    requires proc.Working? && proc.i < |env.steps| && proc.phase.Storing?
    ensures var next := WorkStep(env, t, proc);
      TablesOk(env, t0, next.0) && ProcOk(env, t0, next.0, next.1)
  {
    hide AppliedSteps;
    assert StoredResult(env, proc) == ResultOf(t0, env.steps[0].outcome, env.api);
  }

  lemma WorkKeeps(env: Env, t0: Tables, t: Tables, proc: Proc)
    requires TablesOk(env, t0, t) && ProcOk(env, t0, t, proc)
    requires proc.Working? && proc.i < |env.steps|
    ensures var next := WorkStep(env, t, proc);
      TablesOk(env, t0, next.0) && ProcOk(env, t0, next.0, next.1)
  {
    if proc.phase.Storing? {
      StoreKeeps(env, t0, t, proc);
    } else {
      hide AppliedResults, Inserted, Updated;
    }
  }

  lemma OthersKeepStore(env: Env, t0: Tables, t: Tables, proc: Proc, other: Proc)
    requires TablesOk(env, t0, t) && ProcOk(env, t0, t, proc) && ProcOk(env, t0, t, other)
    requires proc.Working? && proc.i < |env.steps| && proc.phase.Storing?
    ensures ProcOk(env, t0, WorkStep(env, t, proc).0, other)
  {
    hide AppliedSteps;
    assert StoredResult(env, proc) == ResultOf(t0, env.steps[0].outcome, env.api);
  }

  /** A statement of one application does not disturb what another has behind it: a row that is as one
      application leaves it stays so. */
  lemma OthersKeep(env: Env, t0: Tables, t: Tables, proc: Proc, other: Proc)
    requires TablesOk(env, t0, t) && ProcOk(env, t0, t, proc) && ProcOk(env, t0, t, other)
    requires proc.Working? && proc.i < |env.steps|
    ensures ProcOk(env, t0, WorkStep(env, t, proc).0, other)
  {
    if proc.phase.Storing? {
      OthersKeepStore(env, t0, t, proc, other);
    } else {
      hide AppliedResults, Inserted, Updated, ResultOf;
    }
  }

  lemma ProtocolsKept(env: Env, t0: Tables, t: Tables)
    requires TablesOk(env, t0, t)
    ensures Protocols(t.steps) == Protocols(t0.steps)
  {
  }

  lemma StepKeeps(env: Env, t0: Tables, s: State, a: Action)
    requires Inv(env, t0, s) && Enabled(env, s, a)
    ensures Inv(env, t0, Apply(env, s, a))
  {
    hide TablesOk, WorkStep, ApplyOnce;
    if a.Step? {
      var proc := s.procs[a.p];
      assert ProcOk(env, t0, s.tables, proc);
      ProtocolsKept(env, t0, s.tables);
      if proc.Working? {
        hide ProcOk;
        WorkKeeps(env, t0, s.tables, proc);
        forall p | 0 <= p < |s.procs| ensures ProcOk(env, t0, WorkStep(env, s.tables, proc).0, s.procs[p]) {
          OthersKeep(env, t0, s.tables, proc, s.procs[p]);
        }
      }
    }
  }

  lemma {:induction false} RunKeeps(env: Env, t0: Tables, s: State, acts: seq<Action>, t: State)
    requires Inv(env, t0, s) && Runs(env, s, acts, t)
    ensures Inv(env, t0, t) && |t.procs| == |s.procs|
    decreases |acts|
  {
    hide Inv;
    if acts != [] {
      StepKeeps(env, t0, s, acts[0]);
      RunKeeps(env, t0, Apply(env, s, acts[0]), acts[1..], t);
    }
  }

  /** From the moment one application that passed the status check has finished, the step rows, the region row
      and the ProbeResult rows are what a single application leaves, whatever the others still do. */
  lemma AppliedOnce(env: Env, status: JobStatus, t0: Tables, n: nat, acts: seq<Action>, s: State)
    requires Runs(env, Init(status, t0, n), acts, s)
    requires exists p :: 0 <= p < |s.procs| && Finished(env, s.procs[p])
    ensures s.tables == ApplyOnce(t0, env.steps, env.api)
  {
    RunKeeps(env, t0, Init(status, t0, n), acts, s);
    var p :| 0 <= p < |s.procs| && Finished(env, s.procs[p]);
    assert ProcOk(env, t0, s.tables, s.procs[p]);
    assert s.tables.steps == ApplyOnce(t0, env.steps, env.api).steps;
  }

  /** There is one ProbeResult when there was at most one. */
  lemma SingleResult(t0: Tables, steps: seq<StepResult>, api: Renaming)
    requires |t0.results| <= 1 && steps != []
    ensures ApplyOnce(t0, steps, api).results == [ResultOf(t0, steps[0].outcome, api)]
  {
  }

  predicate ProtocolsDiffer(results: seq<ProbeResult>) {
    forall i, j :: 0 <= i < j < |results| ==> results[i].protocol != results[j].protocol
  }

  /** Whatever rows there were: their protocols stay different, none is added when there was one, and only the
      first may change, to the payload's result unless another row has that protocol. */
  lemma ResultsKeepKey(t0: Tables, steps: seq<StepResult>, api: Renaming)
    requires ProtocolsDiffer(t0.results) && t0.results != [] && steps != []
    ensures var u, r := ApplyOnce(t0, steps, api).results, ResultOf(t0, steps[0].outcome, api);
      && ProtocolsDiffer(u) && |u| == |t0.results| && u[1..] == t0.results[1..]
      && u[0] == (if exists k :: 1 <= k < |t0.results| && t0.results[k].protocol == r.protocol then t0.results[0] else r)
  {
    hide AppliedSteps;
  }

  /** Applying a payload again, to the rows it left, changes nothing. */
  lemma ApplyTwice(t: Tables, steps: seq<StepResult>, api: Renaming)
    ensures ApplyOnce(ApplyOnce(t, steps, api), steps, api) == ApplyOnce(t, steps, api)
  {
    var once := ApplyOnce(t, steps, api);
    assert ApplyOnce(once, steps, api).steps == once.steps;
    if steps != [] {
      assert ProtocolOf(once.steps) == ProtocolOf(t.steps);
    }
  }

  // ---------- somebody applies ----------

  /** As long as nobody has passed the check the job is open. */
  predicate OpenOrApplied(s: State) {
    || (s.status != Completed && s.status != Cancelled)
    || exists p :: 0 <= p < |s.procs| && (s.procs[p].Marked? || s.procs[p].Working?)
  }

  predicate NoneRefused(s: State) {
    (exists p :: 0 <= p < |s.procs| && s.procs[p].Refused?) ==>
      exists p :: 0 <= p < |s.procs| && (s.procs[p].Marked? || s.procs[p].Working?)
  }

  lemma StepKeepsOpen(env: Env, s: State, a: Action)
    requires OpenOrApplied(s) && NoneRefused(s) && Enabled(env, s, a)
    ensures OpenOrApplied(Apply(env, s, a)) && NoneRefused(Apply(env, s, a))
  {
    hide WorkStep;
    var t := Apply(env, s, a);
    WorkStaysWork(env, s, a);
    if p :| 0 <= p < |s.procs| && (s.procs[p].Marked? || s.procs[p].Working?) {
      assert t.procs[p].Marked? || t.procs[p].Working?;
    } else if a.Step? && s.procs[a.p].Passed? {
      assert t.procs[a.p].Marked?;
    }
  }

  lemma WorkStaysWork(env: Env, s: State, a: Action)
    requires Enabled(env, s, a)
    ensures a.Step? && s.procs[a.p].Working? ==> Apply(env, s, a).procs[a.p].Working?
  {
  }

  lemma {:induction false} RunKeepsOpen(env: Env, s: State, acts: seq<Action>, t: State)
    requires OpenOrApplied(s) && NoneRefused(s) && Runs(env, s, acts, t)
    ensures NoneRefused(t)
    decreases |acts|
  {
    hide OpenOrApplied, NoneRefused;
    if acts != [] {
      StepKeepsOpen(env, s, acts[0]);
      RunKeepsOpen(env, Apply(env, s, acts[0]), acts[1..], t);
    }
  }

  /** A job that was neither completed nor cancelled, and whose result was delivered at least once: when all
      applications are through, the tables are what one application leaves. */
  lemma DeliveredOnce(env: Env, status: JobStatus, t0: Tables, n: nat, acts: seq<Action>, s: State)
    requires status != Completed && status != Cancelled && n > 0
    requires Runs(env, Init(status, t0, n), acts, s)
    requires forall p :: 0 <= p < |s.procs| ==> s.procs[p].Refused? || Finished(env, s.procs[p])
    ensures s.tables == ApplyOnce(t0, env.steps, env.api)
  {
    RunKeeps(env, t0, Init(status, t0, n), acts, s);
    RunKeepsOpen(env, Init(status, t0, n), acts, s);
    assert s.procs[0].Refused? || Finished(env, s.procs[0]);
    AppliedOnce(env, status, t0, n, acts, s);
  }

  /** Nobody else writes the status. */
  ghost predicate NoOutside(acts: seq<Action>) { forall k :: 0 <= k < |acts| ==> acts[k].Step? }

  predicate Late(s: State, q: nat) {
    q < |s.procs| && (s.procs[q].Waiting? || s.procs[q].Refused?)
  }

  /** A copy whose application starts after the completed mark is refused, as long as nobody else writes the
      status: it gets as far as its status check and no further. */
  lemma {:induction false} LaterCopiesRefused(env: Env, s: State, acts: seq<Action>, t: State, q: nat)
    requires Runs(env, s, acts, t) && NoOutside(acts) && s.status == Completed && Late(s, q)
    ensures t.status == Completed && Late(t, q)
    decreases |acts|
  {
    hide WorkStep;
    if acts != [] {
      assert forall k :: 0 <= k < |acts[1..]| ==> acts[1..][k] == acts[k + 1];
      var u := Apply(env, s, acts[0]);
      assert u.status == Completed && Late(u, q);
      LaterCopiesRefused(env, u, acts[1..], t, q);
    }
  }

  /** And the completed mark is there from the first statement after the check on. */
  lemma {:induction false} MarkedIsCompleted(env: Env, s: State, acts: seq<Action>, t: State, p: nat)
    requires Runs(env, s, acts, t) && NoOutside(acts) && p < |s.procs|
    requires s.procs[p].Marked? || s.procs[p].Working? ==> s.status == Completed
    ensures |t.procs| == |s.procs| && (t.procs[p].Marked? || t.procs[p].Working? ==> t.status == Completed)
    decreases |acts|
  {
    hide WorkStep;
    if acts != [] {
      assert forall k :: 0 <= k < |acts[1..]| ==> acts[1..][k] == acts[k + 1];
      MarkedIsCompleted(env, Apply(env, s, acts[0]), acts[1..], t, p);
    }
  }

  // ---------- from the probe to the rows ----------

  /** The rows of an applied job tell one story: region row, first step row and the single ProbeResult agree. */
  lemma RowsAgree(t: Tables, steps: seq<StepResult>, api: Renaming)
    requires steps != [] && t.steps != [] && |t.results| <= 1
    ensures var u := ApplyOnce(t, steps, api);
      && |u.steps| == |t.steps| && u.steps[0].protocol == t.steps[0].protocol
      && u.region.status == u.steps[0].status && (u.region.success <==> u.region.status == "success")
      && u.region.errorCode == u.steps[0].errorCode && u.region.errorMessage == u.steps[0].errorMessage
      && (u.steps[0].latency.Some? ==> u.region.latency == u.steps[0].latency)
      && u.results == [ProbeResult(u.steps[0].protocol, api(u.steps[0].protocol, u.steps[0].detail))]
  {
  }

  /** The whole way of a single job: the agent runs its one step, publishes the payload, and whatever copies of
      it are applied by whomever, the region row ends as a success exactly when the probe succeeded. */
  lemma RowShowsTheProbe(network: Network, run: nat, job: Job, p: Payload, api: Renaming, status: JobStatus,
                         t0: Tables, n: nat, acts: seq<Action>, s: State)
    requires |job.steps| == 1 && Reports(p, network, run, job)
    requires status != Completed && status != Cancelled && n > 0
    requires Runs(Env(p.steps, api), Init(status, t0, n), acts, s)
    requires forall q :: 0 <= q < |s.procs| ==> s.procs[q].Refused? || Finished(Env(p.steps, api), s.procs[q])
    ensures s.tables.region.success <==> RunStep(network, run, job.steps[0]).success
    ensures s.tables.region.success <==> p.status == "success"
  {
    hide RunStep, Runs, AppliedSteps, AppliedResults;
    DeliveredOnce(Env(p.steps, api), status, t0, n, acts, s);
    assert p.steps[0] == StepResult(job.steps[0].stepId, RunStep(network, run, job.steps[0]));
  }

  /** What a step row shows of an outcome. */
  predicate Shows(row: StepRow, o: Outcome) {
    && row.status == (if o.success then "success" else "failed")
    && row.resolved == o.detailTarget && row.latency == o.latency && row.detail == o.detail
    && row.errorCode == o.errorCode && row.errorMessage == o.errorMessage
  }

  /** The five protocols, in any case of letters. */
  predicate Supported(protocol: string) {
    var p := ToLower(protocol);
    p == "dns" || p == "http" || p == "ping" || p == "mtr" || p == "traceroute"
  }

  /** The whole way of a job of any number of steps: in the end step row j shows what the network answered to
      step j, or that the protocol is not supported; the region row and the ProbeResult show the first step. */
  lemma RowsShowTheNetwork(network: Network, run: nat, job: Job, p: Payload, api: Renaming, status: JobStatus,
                           t0: Tables, n: nat, acts: seq<Action>, s: State)
    requires Reports(p, network, run, job) && |t0.steps| == |job.steps| && |t0.results| <= 1
    requires status != Completed && status != Cancelled && n > 0
    requires Runs(Env(p.steps, api), Init(status, t0, n), acts, s)
    requires forall q :: 0 <= q < |s.procs| ==> s.procs[q].Refused? || Finished(Env(p.steps, api), s.procs[q])
    ensures |s.tables.steps| == |job.steps|
    ensures forall j :: 0 <= j < |job.steps| ==>
      && s.tables.steps[j].protocol == t0.steps[j].protocol
      && (Supported(job.steps[j].protocol) ==> Shows(s.tables.steps[j], network(run, job.steps[j])))
      && (!Supported(job.steps[j].protocol) ==>
            s.tables.steps[j].status == "failed" && s.tables.steps[j].errorCode == "unsupported_protocol")
    ensures job.steps != [] ==> FirstStepShown(s.tables, t0, api)
  {
    DeliveredOnce(Env(p.steps, api), status, t0, n, acts, s);
    hide Runs, ToLower;
    assert s.tables == ApplyOnce(t0, p.steps, api);
    forall j | 0 <= j < |job.steps|
      ensures RunStep(network, run, job.steps[j]) == p.steps[j].outcome
      ensures Supported(job.steps[j].protocol) ==> p.steps[j].outcome == network(run, job.steps[j])
      ensures !Supported(job.steps[j].protocol) ==> !p.steps[j].outcome.success && p.steps[j].outcome.errorCode == "unsupported_protocol"
    {
      assert p.steps[j] == StepResult(job.steps[j].stepId, RunStep(network, run, job.steps[j]));
    }
    if job.steps != [] {
      RowsAgree(t0, p.steps, api);
      RegionLatency(t0, p.steps, api);
    }
    hide AppliedResults, RunStep, RegionApplied;
  }

  /** The region row and the only ProbeResult tell what the first step row tells; a step without a latency leaves
      the region row's. The region row names no resolved target. */
  predicate FirstStepShown(t: Tables, t0: Tables, api: Renaming)
    requires t.steps != []
  {
    var first := t.steps[0];
    && t.region.status == first.status && (t.region.success <==> first.status == "success")
    && t.region.errorCode == first.errorCode && t.region.errorMessage == first.errorMessage
    && t.region.latency == (if first.latency.Some? then first.latency else t0.region.latency)
    && t.region.resolved == "" && t.region.rawPayload == "{}"
    && t.results == [ProbeResult(first.protocol, api(first.protocol, first.detail))]
  }

  lemma RegionLatency(t: Tables, steps: seq<StepResult>, api: Renaming)
    requires steps != [] && t.steps != []
    ensures var u := ApplyOnce(t, steps, api);
      && u.region.latency == (if u.steps[0].latency.Some? then u.steps[0].latency else t.region.latency)
      && u.region.resolved == "" && u.region.rawPayload == "{}"
  {
    hide AppliedResults;
  }
}
