/** The agent's job subscription and executeJob of cmd/agent/main.go: what reaches the agent more than once
    is executed once. */
module ProbeAgent {
  import opened Text
  import opened Wrappers

  /** What an executor returns. `detail` is the JSON text of its detail object and `detailTarget` the text
      that object holds under "resolvedTarget", empty when it holds none. */
  datatype Outcome = Outcome(success: bool, detail: string, detailTarget: string, latency: Option<int>,
                             errorCode: string, errorMessage: string)

  datatype Step = Step(stepId: nat, protocol: string, target: string, options: string)

  datatype Job = Job(id: nat, steps: seq<Step>)

  datatype StepResult = StepResult(stepId: nat, outcome: Outcome)

  datatype Payload = Payload(jobId: nat, status: string, steps: seq<StepResult>)

  const PROTOCOLS := {"dns", "http", "ping", "mtr", "traceroute"}

  /** The network as an arbitrary function of the run and the step. */
  type Network = (nat, Step) -> Outcome

  function RunStep(network: Network, run: nat, step: Step): Outcome {
    if ToLower(step.protocol) in PROTOCOLS then network(run, step)
    else Outcome(false, "{}", "", None, "unsupported_protocol", "unsupported protocol: " + step.protocol)
  }

  /** The payload of one run: a result per step, in order, and "success" exactly when every step succeeded. */
  ghost predicate Reports(p: Payload, network: Network, run: nat, job: Job) {
    && p.jobId == job.id
    && |p.steps| == |job.steps|
    && (forall i :: 0 <= i < |p.steps| ==>
          p.steps[i] == StepResult(job.steps[i].stepId, RunStep(network, run, job.steps[i])))
    && p.status == (if forall i :: 0 <= i < |p.steps| ==> p.steps[i].outcome.success then "success" else "failed")
  }

  method ExecuteJob(network: Network, run: nat, job: Job) returns (p: Payload)
    ensures Reports(p, network, run, job)
  {
    var steps: seq<StepResult> := [];
    var status := "success";
    for k := 0 to |job.steps|
      invariant |steps| == k
      invariant forall i :: 0 <= i < k ==>
        steps[i] == StepResult(job.steps[i].stepId, RunStep(network, run, job.steps[i]))
      invariant status == if forall i :: 0 <= i < k ==> steps[i].outcome.success then "success" else "failed"
    {
      var outcome := RunStep(network, run, job.steps[k]);
      if !outcome.success { status := "failed"; }
      steps := steps + [StepResult(job.steps[k].stepId, outcome)];
    }
    p := Payload(job.id, status, steps);
  }

  /** Two payloads of the same run are the same payload. */
  lemma ReportIsUnique(p: Payload, q: Payload, network: Network, run: nat, job: Job)
    requires Reports(p, network, run, job) && Reports(q, network, run, job)
    ensures p == q
  {
    assert p.steps == q.steps;
  }

  // ---------- deduplication ----------

  /** The deliveries that start a run: the first of every job id. */
  function Started(delivered: seq<Job>): seq<Job> {
    if delivered == [] then []
    else
      var before, last := delivered[..|delivered| - 1], delivered[|delivered| - 1];
      if exists i :: 0 <= i < |before| && before[i].id == last.id then Started(before)
      else Started(before) + [last]
  }

  ghost predicate FirstOfItsId(delivered: seq<Job>, i: nat)
    requires i < |delivered|
  {
    forall j :: 0 <= j < i ==> delivered[j].id != delivered[i].id
  }

  lemma {:induction false} StartedHasId(delivered: seq<Job>, id: nat)
    ensures (exists i :: 0 <= i < |delivered| && delivered[i].id == id)
        <==> exists a :: 0 <= a < |Started(delivered)| && Started(delivered)[a].id == id
    decreases |delivered|
  {
    if delivered != [] {
      var n := |delivered| - 1;
      StartedHasId(delivered[..n], id);
      StartedHasId(delivered[..n], delivered[n].id);
      var here := Started(delivered[..n]);
      if i :| 0 <= i < |delivered| && delivered[i].id == id {
        assert i < n ==> delivered[..n][i].id == id;
        if a :| 0 <= a < |here| && here[a].id == id {
          assert Started(delivered)[a].id == id;
        } else {
          assert Started(delivered)[|here|].id == id;
        }
      }
      if a :| 0 <= a < |Started(delivered)| && Started(delivered)[a].id == id {
        assert a < |here| ==> here[a].id == id;
        if i :| 0 <= i < n && delivered[..n][i].id == id { assert delivered[i].id == id; }
      }
    }
  }

  /** A job id is executed at most once, and exactly when it was delivered; the job executed is the first
      delivery of that id. */
  lemma {:induction false} StartedRight(delivered: seq<Job>)
    ensures forall a, b :: 0 <= a < b < |Started(delivered)| ==> Started(delivered)[a].id != Started(delivered)[b].id
    ensures forall job :: job in Started(delivered) <==>
      exists i :: 0 <= i < |delivered| && delivered[i] == job && FirstOfItsId(delivered, i)
    decreases |delivered|
  {
    if delivered != [] {
      var n := |delivered| - 1;
      var before, last := delivered[..n], delivered[n];
      StartedRight(before);
      StartedHasId(before, last.id);
      assert forall i :: 0 <= i < n ==> (FirstOfItsId(before, i) <==> FirstOfItsId(delivered, i));
      assert FirstOfItsId(delivered, n) <==> forall i :: 0 <= i < n ==> before[i].id != last.id;
      forall job ensures job in Started(delivered) <==>
          exists i :: 0 <= i < |delivered| && delivered[i] == job && FirstOfItsId(delivered, i)
      {
        if i :| 0 <= i < |delivered| && delivered[i] == job && FirstOfItsId(delivered, i) {
          assert i < n ==> before[i] == job && FirstOfItsId(before, i);
        }
        if job in Started(before) {
          var i :| 0 <= i < |before| && before[i] == job && FirstOfItsId(before, i);
          assert delivered[i] == job;
        }
      }
    }
  }

  /** The subscription's state: `runs` are the started executions, in the order in which they were started. */
  class Agent {
    var seenJobs: set<nat>
    var runs: seq<Job>
    ghost var delivered: seq<Job>

    ghost predicate Valid()
      reads this
    {
      && seenJobs == (set i | 0 <= i < |delivered| :: delivered[i].id)
      && runs == Started(delivered)
    }

    constructor ()
      ensures Valid() && delivered == []
    {
      seenJobs, runs, delivered := {}, [], [];
    }

    /** One message; None when its payload cannot be read. */
    method OnJob(message: Option<Job>)
      requires Valid()
      modifies this
      ensures Valid()
      ensures delivered == old(delivered) + if message.Some? then [message.value] else []
    {
      if message.None? { return; }
      var job := message.value;
      delivered := delivered + [job];
      assert delivered[..|delivered| - 1] == old(delivered);
      assert forall i :: 0 <= i < |old(delivered)| ==> delivered[i] == old(delivered)[i];
      assert delivered[|delivered| - 1] == job;
      assert (set i | 0 <= i < |delivered| :: delivered[i].id) == old(seenJobs) + {job.id};
      if job.id in seenJobs {
        assert exists i :: 0 <= i < |old(delivered)| && old(delivered)[i].id == job.id;
        return;
      }
      seenJobs := seenJobs + {job.id};
      runs := runs + [job];
    }
  }

  /** However often and in whatever order jobs reach an agent process, the payloads it publishes for one job
      id are one and the same. */
  lemma OnePayloadPerJob(delivered: seq<Job>, network: Network, a: nat, b: nat, p: Payload, q: Payload)
    requires a < |Started(delivered)| && Reports(p, network, a, Started(delivered)[a])
    requires b < |Started(delivered)| && Reports(q, network, b, Started(delivered)[b])
    requires p.jobId == q.jobId
    ensures p == q
  {
    StartedRight(delivered);
    assert a == b;
    ReportIsUnique(p, q, network, a, Started(delivered)[a]);
  }
}
