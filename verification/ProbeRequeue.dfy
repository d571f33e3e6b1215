/** Publishing and republishing of probe jobs: dispatchSingleToAgent (internal/service/probe.go) and the
    requeue loops of any number of bridges (internal/bridge/bridge.go), one database statement or one MQTT
    publish a step, in any interleaving and with any number of jobs. */
module ProbeRequeue {
  import opened Sums

  const MAX_RETRIES := 3
  const SELECT_LIMIT := 50

  datatype Status = Queued | Published | Leased | Completed | Failed

  /** How far the dispatcher of a job has come. */
  datatype Dispatch = Created | Sent | Through

  /** `publishes` records how often the job was published with success. */
  datatype Job = Job(status: Status, leaseUntil: int, retryCount: nat, dispatch: Dispatch, publishes: nat)

  /** A selected row: the job and the retry count it had when it was selected. */
  datatype Stale = Stale(id: nat, retry: nat)

  /** A bridge between ticks, or on its way through the rows of one select; `sent` when the first of them has
      been published and not yet updated. */
  datatype Bridge = Idle | Working(todo: seq<Stale>, sent: bool)

  datatype State = State(now: int, lease: nat, jobs: map<nat, Job>, bridges: seq<Bridge>)

  function Init(k: nat, lease: nat): State {
    State(0, lease, map[], seq(k, i => Idle))
  }

  datatype Action =
    | Wait(d: nat)
    | Create(id: nat) | DispatchPublish(id: nat, ok: bool) | DispatchWrite(id: nat)
    | ResultWrite(id: nat)
    | Select(b: nat, picked: seq<nat>) | Expire(b: nat) | Republish(b: nat, ok: bool) | Write(b: nat) | Rest(b: nat)

  predicate IsStale(s: State, id: nat) {
    id in s.jobs && (s.jobs[id].status == Published || s.jobs[id].status == Leased) && s.jobs[id].leaseUntil < s.now
  }

  predicate AtRow(s: State, b: nat) {
    b < |s.bridges| && s.bridges[b].Working? && s.bridges[b].todo != [] && s.bridges[b].todo[0].id in s.jobs
  }

  /** The select returns rows of expired leases, each once, at most 50; which of them is left open. */
  predicate Enabled(s: State, a: Action) {
    match a
    case Wait(_) => true
    case Create(id) => id !in s.jobs
    case DispatchPublish(id, _) => id in s.jobs && s.jobs[id].dispatch == Created
    case DispatchWrite(id) => id in s.jobs && s.jobs[id].dispatch == Sent
    case ResultWrite(id) => id in s.jobs
    case Select(b, picked) =>
      && b < |s.bridges| && s.bridges[b] == Idle && |picked| <= SELECT_LIMIT
      && (forall i, j :: 0 <= i < j < |picked| ==> picked[i] != picked[j])
      && (forall i :: 0 <= i < |picked| ==> IsStale(s, picked[i]))
    case Expire(b) => AtRow(s, b) && !s.bridges[b].sent && s.bridges[b].todo[0].retry >= MAX_RETRIES
    case Republish(b, _) => AtRow(s, b) && !s.bridges[b].sent && s.bridges[b].todo[0].retry < MAX_RETRIES
    case Write(b) => AtRow(s, b) && s.bridges[b].sent
    case Rest(b) => b < |s.bridges| && s.bridges[b].Working? && s.bridges[b].todo == []
  }

  function SetJob(s: State, id: nat, job: Job): State { s.(jobs := s.jobs[id := job]) }

  function SetBridge(s: State, b: nat, bridge: Bridge): State
    requires b < |s.bridges|
  {
    s.(bridges := s.bridges[b := bridge])
  }

  function NextRow(s: State, b: nat): State
    requires AtRow(s, b)
  {
    SetBridge(s, b, Working(s.bridges[b].todo[1..], false))
  }

  function RetryOf(s: State, id: nat): nat { if id in s.jobs then s.jobs[id].retryCount else 0 }

  function Apply(s: State, a: Action): State
    requires Enabled(s, a)
  {
    match a
    case Wait(d) => s.(now := s.now + d)
    case Create(id) => SetJob(s, id, Job(Queued, s.now + s.lease, 0, Created, 0))
    case DispatchPublish(id, ok) =>
      var job := s.jobs[id];
      SetJob(s, id, if ok then job.(dispatch := Sent, publishes := job.publishes + 1) else job.(dispatch := Through))
    case DispatchWrite(id) => SetJob(s, id, s.jobs[id].(status := Published, dispatch := Through))
    case ResultWrite(id) => SetJob(s, id, s.jobs[id].(status := Completed))
    case Select(b, picked) =>
      SetBridge(s, b, Working(seq(|picked|, i requires 0 <= i < |picked| => Stale(picked[i], RetryOf(s, picked[i]))), false))
    case Expire(b) =>
      var id := s.bridges[b].todo[0].id;
      SetJob(NextRow(s, b), id, s.jobs[id].(status := Failed))
    case Republish(b, ok) =>
      var id := s.bridges[b].todo[0].id;
      if ok then
        SetJob(SetBridge(s, b, s.bridges[b].(sent := true)), id, s.jobs[id].(publishes := s.jobs[id].publishes + 1))
      else NextRow(s, b)
    case Write(b) =>
      var id := s.bridges[b].todo[0].id;
      SetJob(NextRow(s, b), id,
             s.jobs[id].(retryCount := s.jobs[id].retryCount + 1, status := Published, leaseUntil := s.now + s.lease))
    case Rest(b) => SetBridge(s, b, Idle)
  }

  ghost predicate Runs(s: State, acts: seq<Action>, t: State)
    decreases |acts|
  {
    if acts == [] then s == t
    else Enabled(s, acts[0]) && Runs(Apply(s, acts[0]), acts[1..], t)
  }

  // ---------- what every state keeps ----------

  predicate Mentions(todo: seq<Stale>, id: nat) {
    exists i :: 0 <= i < |todo| && todo[i].id == id && todo[i].retry < MAX_RETRIES
  }

  /** 1 when the bridge may still raise the retry count of the job. */
  function Owes(id: nat): Bridge -> nat {
    (b: Bridge) => if b.Working? && Mentions(b.todo, id) then 1 else 0
  }

  /** 1 when the bridge has published the job and not yet raised its retry count. */
  function InFlight(id: nat): Bridge -> nat {
    (b: Bridge) => if b.Working? && b.sent && b.todo != [] && b.todo[0].id == id then 1 else 0
  }

  ghost predicate BridgeOk(s: State, b: Bridge) {
    b.Working? ==>
      && (forall i, j :: 0 <= i < j < |b.todo| ==> b.todo[i].id != b.todo[j].id)
      && (forall i :: 0 <= i < |b.todo| ==> b.todo[i].id in s.jobs)
      && (b.sent ==> b.todo != [] && b.todo[0].retry < MAX_RETRIES)
  }

  ghost predicate JobOk(s: State, id: nat)
    requires id in s.jobs
  {
    var job := s.jobs[id];
    && job.retryCount + Sum(s.bridges, Owes(id)) <= |s.bridges| + 2
    && job.publishes <= job.retryCount + Sum(s.bridges, InFlight(id)) + (if job.dispatch == Created then 0 else 1)
  }

  ghost predicate Inv(s: State) {
    && (forall b :: 0 <= b < |s.bridges| ==> BridgeOk(s, s.bridges[b]))
    && (forall id :: id in s.jobs ==> JobOk(s, id))
    && (forall id, b :: id !in s.jobs && 0 <= b < |s.bridges| ==> Owes(id)(s.bridges[b]) == 0 == InFlight(id)(s.bridges[b]))
  }

  // ---------- one bridge's step ----------

  lemma OwesAfterRow(todo: seq<Stale>, id: nat)
    requires todo != [] && forall i, j :: 0 <= i < j < |todo| ==> todo[i].id != todo[j].id
    ensures Mentions(todo[1..], id) <==> Mentions(todo, id) && todo[0].id != id
  {
    if Mentions(todo, id) && todo[0].id != id {
      var i :| 0 <= i < |todo| && todo[i].id == id && todo[i].retry < MAX_RETRIES;
      assert todo[1..][i - 1] == todo[i];
    }
    if Mentions(todo[1..], id) {
      var i :| 0 <= i < |todo[1..]| && todo[1..][i].id == id && todo[1..][i].retry < MAX_RETRIES;
      assert todo[i + 1].id == id;
    }
  }

  /** A bridge that goes on to its next row owes the row's job nothing any more, and every other job what it
      owed before. */
  lemma RowDone(s: State, b: nat, id: nat)
    requires Inv(s) && AtRow(s, b)
    ensures var now := NextRow(s, b).bridges; var here := s.bridges[b].todo[0].id == id;
      && Sum(now, Owes(id)) == Sum(s.bridges, Owes(id)) - (if here then Owes(id)(s.bridges[b]) else 0)
      && Sum(now, InFlight(id)) == Sum(s.bridges, InFlight(id)) - InFlight(id)(s.bridges[b])
  {
    var was, next := s.bridges[b], Working(s.bridges[b].todo[1..], false);
    assert BridgeOk(s, was);
    OwesAfterRow(was.todo, id);
    SumUpdate(s.bridges, b, next, Owes(id));
    SumUpdate(s.bridges, b, next, InFlight(id));
  }

  lemma NextRowKeeps(s: State, b: nat, job: Job)
    requires Inv(s) && AtRow(s, b)
    requires var id, sent := s.bridges[b].todo[0].id, InFlight(s.bridges[b].todo[0].id)(s.bridges[b]);
      && job.publishes == s.jobs[id].publishes && job.dispatch == s.jobs[id].dispatch
      && job.retryCount == s.jobs[id].retryCount + sent
    ensures Inv(SetJob(NextRow(s, b), s.bridges[b].todo[0].id, job))
  {
    var head := s.bridges[b].todo[0].id;
    var t := SetJob(NextRow(s, b), head, job);
    assert BridgeOk(s, s.bridges[b]);
    assert s.bridges[b].sent ==> Mentions(s.bridges[b].todo, head);
    forall id | id in t.jobs ensures JobOk(t, id) {
      assert JobOk(s, id);
      RowDone(s, b, id);
    }
    forall c | 0 <= c < |t.bridges| ensures BridgeOk(t, t.bridges[c]) {
      assert BridgeOk(s, s.bridges[c]);
    }
    forall id, c | id !in t.jobs && 0 <= c < |t.bridges|
      ensures Owes(id)(t.bridges[c]) == 0 == InFlight(id)(t.bridges[c])
    {
      assert Owes(id)(s.bridges[c]) == 0;
      OwesAfterRow(s.bridges[b].todo, id);
    }
  }

  /** Statements that leave the retry count and the bridges alone keep everything. */
  lemma JobUpdateKeeps(s: State, id: nat, job: Job)
    requires Inv(s) && id in s.jobs
    requires job.retryCount == s.jobs[id].retryCount
    requires job.publishes + (if s.jobs[id].dispatch == Created then 0 else 1)
      <= s.jobs[id].publishes + (if job.dispatch == Created then 0 else 1)
    ensures Inv(SetJob(s, id, job))
  {
    var t := SetJob(s, id, job);
    forall j | j in t.jobs ensures JobOk(t, j) {
      assert JobOk(s, j);
    }
    forall c | 0 <= c < |t.bridges| ensures BridgeOk(t, t.bridges[c]) {
      assert BridgeOk(s, s.bridges[c]);
    }
  }

  lemma CreateKeeps(s: State, id: nat)
    requires Inv(s) && id !in s.jobs
    ensures Inv(Apply(s, Create(id)))
  {
    var t := Apply(s, Create(id));
    SumZero(s.bridges, Owes(id));
    SumZero(s.bridges, InFlight(id));
    forall j | j in t.jobs ensures JobOk(t, j) {
      if j != id { assert JobOk(s, j); }
    }
    forall c | 0 <= c < |t.bridges| ensures BridgeOk(t, t.bridges[c]) {
      assert BridgeOk(s, s.bridges[c]);
    }
  }

  lemma SelectJobOk(s: State, b: nat, picked: seq<nat>, id: nat)
    requires Inv(s) && Enabled(s, Select(b, picked)) && id in s.jobs
    ensures JobOk(Apply(s, Select(b, picked)), id)
  {
    var t := Apply(s, Select(b, picked));
    assert JobOk(s, id);
    SumUpdate(s.bridges, b, t.bridges[b], Owes(id));
    SumUpdate(s.bridges, b, t.bridges[b], InFlight(id));
    SumOfOnes(t.bridges, Owes(id));
    hide Mentions, BridgeOk;
    if id in picked {
      var i :| 0 <= i < |picked| && picked[i] == id;
      assert IsStale(s, picked[i]);
    }
  }

  lemma SelectKeeps(s: State, b: nat, picked: seq<nat>)
    requires Inv(s) && Enabled(s, Select(b, picked))
    ensures Inv(Apply(s, Select(b, picked)))
  {
    var t := Apply(s, Select(b, picked));
    forall id | id in t.jobs ensures JobOk(t, id) {
      SelectJobOk(s, b, picked, id);
    }
    forall c | 0 <= c < |t.bridges| ensures BridgeOk(t, t.bridges[c]) {
      assert c != b ==> BridgeOk(s, s.bridges[c]);
    }
    forall id, c | id !in t.jobs && 0 <= c < |t.bridges|
      ensures Owes(id)(t.bridges[c]) == 0 == InFlight(id)(t.bridges[c])
    {
      assert c != b ==> Owes(id)(s.bridges[c]) == 0 == InFlight(id)(s.bridges[c]);
    }
  }

  lemma RepublishKeeps(s: State, b: nat)
    requires Inv(s) && Enabled(s, Republish(b, true))
    ensures Inv(Apply(s, Republish(b, true)))
  {
    var t, head := Apply(s, Republish(b, true)), s.bridges[b].todo[0].id;
    forall id | id in t.jobs ensures JobOk(t, id) {
      assert JobOk(s, id);
      SumUpdate(s.bridges, b, t.bridges[b], Owes(id));
      SumUpdate(s.bridges, b, t.bridges[b], InFlight(id));
    }
    forall c | 0 <= c < |t.bridges| ensures BridgeOk(t, t.bridges[c]) {
      assert BridgeOk(s, s.bridges[c]);
    }
    forall id, c | id !in t.jobs && 0 <= c < |t.bridges|
      ensures Owes(id)(t.bridges[c]) == 0 == InFlight(id)(t.bridges[c])
    {
      assert Owes(id)(s.bridges[c]) == 0 == InFlight(id)(s.bridges[c]);
    }
  }

  lemma RestKeeps(s: State, b: nat)
    requires Inv(s) && Enabled(s, Rest(b))
    ensures Inv(Apply(s, Rest(b)))
  {
    var t := Apply(s, Rest(b));
    forall id | id in t.jobs ensures JobOk(t, id) {
      assert JobOk(s, id);
      SumUpdate(s.bridges, b, Idle, Owes(id));
      SumUpdate(s.bridges, b, Idle, InFlight(id));
    }
    forall c | 0 <= c < |t.bridges| ensures BridgeOk(t, t.bridges[c]) {
      assert BridgeOk(s, s.bridges[c]);
    }
    forall id, c | id !in t.jobs && 0 <= c < |t.bridges|
      ensures Owes(id)(t.bridges[c]) == 0 == InFlight(id)(t.bridges[c])
    {
      assert Owes(id)(s.bridges[c]) == 0 == InFlight(id)(s.bridges[c]);
    }
  }

  lemma StepKeeps(s: State, a: Action)
    requires Inv(s) && Enabled(s, a)
    ensures Inv(Apply(s, a)) && |Apply(s, a).bridges| == |s.bridges|
  {
    match a
    case Wait(d) =>
      var t := Apply(s, a);
      forall id | id in t.jobs ensures JobOk(t, id) { assert JobOk(s, id); }
      forall c | 0 <= c < |t.bridges| ensures BridgeOk(t, t.bridges[c]) { assert BridgeOk(s, s.bridges[c]); }
    case Create(id) => CreateKeeps(s, id);
    case DispatchPublish(id, _) => JobUpdateKeeps(s, id, Apply(s, a).jobs[id]);
    case DispatchWrite(id) => JobUpdateKeeps(s, id, Apply(s, a).jobs[id]);
    case ResultWrite(id) => JobUpdateKeeps(s, id, Apply(s, a).jobs[id]);
    case Select(b, picked) => SelectKeeps(s, b, picked);
    case Expire(b) => NextRowKeeps(s, b, Apply(s, a).jobs[s.bridges[b].todo[0].id]);
    case Republish(b, ok) =>
      if ok {
        RepublishKeeps(s, b);
      } else {
        var id := s.bridges[b].todo[0].id;
        NextRowKeeps(s, b, s.jobs[id]);
        assert SetJob(NextRow(s, b), id, s.jobs[id]) == Apply(s, a);
      }
    case Write(b) => NextRowKeeps(s, b, Apply(s, a).jobs[s.bridges[b].todo[0].id]);
    case Rest(b) => RestKeeps(s, b);
  }

  lemma {:induction false} RunKeeps(s: State, acts: seq<Action>, t: State)
    requires Inv(s) && Runs(s, acts, t)
    ensures Inv(t) && |t.bridges| == |s.bridges|
    decreases |acts|
  {
    hide Inv;
    if acts != [] {
      StepKeeps(s, acts[0]);
      RunKeeps(Apply(s, acts[0]), acts[1..], t);
    }
  }

  /** With k bridges, in every interleaving, no job's retry count passes k + 2 and no job is published with
      success more than k + 3 times. */
  lemma RetriesBounded(k: nat, lease: nat, acts: seq<Action>, s: State, id: nat)
    requires Runs(Init(k, lease), acts, s) && id in s.jobs
    ensures s.jobs[id].retryCount <= k + 2
    ensures s.jobs[id].publishes <= k + 3
  {
    assert Inv(Init(k, lease));
    RunKeeps(Init(k, lease), acts, s);
    assert JobOk(s, id);
    SentIsOwed(s, id);
  }

  lemma SentIsOwed(s: State, id: nat)
    requires Inv(s)
    ensures Sum(s.bridges, InFlight(id)) <= Sum(s.bridges, Owes(id))
  {
    forall b | 0 <= b < |s.bridges| ensures InFlight(id)(s.bridges[b]) <= Owes(id)(s.bridges[b]) {
      assert BridgeOk(s, s.bridges[b]);
    }
    SumBounds(s.bridges, InFlight(id), Owes(id));
  }

  // ---------- leases ----------

  /** No lease runs longer than from now. */
  ghost predicate LeasesOk(s: State) {
    forall id :: id in s.jobs ==> s.jobs[id].leaseUntil <= s.now + s.lease
  }

  /** Time and leases only go forward. */
  ghost predicate Forward(s: State, t: State) {
    && s.now <= t.now && s.lease == t.lease
    && forall id :: id in s.jobs ==> id in t.jobs && s.jobs[id].leaseUntil <= t.jobs[id].leaseUntil
  }

  lemma StepForward(s: State, a: Action)
    requires LeasesOk(s) && Enabled(s, a)
    ensures LeasesOk(Apply(s, a)) && Forward(s, Apply(s, a))
  {
  }

  lemma {:induction false} RunForward(s: State, acts: seq<Action>, t: State)
    requires LeasesOk(s) && Runs(s, acts, t)
    ensures LeasesOk(t) && Forward(s, t)
    decreases |acts|
  {
    if acts != [] {
      StepForward(s, acts[0]);
      hide Enabled, Apply, LeasesOk;
      RunForward(Apply(s, acts[0]), acts[1..], t);
    }
  }

  /** The job that bridge b has just published again. */
  predicate Writes(s: State, b: nat, id: nat) {
    Enabled(s, Write(b)) && s.bridges[b].todo[0].id == id
  }

  /** Whatever happens after a republish, no bridge selects the job again before a whole lease has passed. */
  lemma LeaseHolds(k: nat, lease: nat, before: seq<Action>, s: State, b: nat, id: nat, after: seq<Action>, t: State,
                   c: nat, picked: seq<nat>)
    requires Runs(Init(k, lease), before, s) && Writes(s, b, id) && Runs(Apply(s, Write(b)), after, t)
    requires Enabled(t, Select(c, picked)) && id in picked
    ensures t.now > s.now + lease
  {
    RunForward(Init(k, lease), before, s);
    StepForward(s, Write(b));
    RunForward(Apply(s, Write(b)), after, t);
    hide Runs, LeasesOk;
    assert IsStale(t, id);
  }

  /** The same from the moment a job is created. */
  lemma FirstLeaseHolds(k: nat, lease: nat, before: seq<Action>, s: State, id: nat, after: seq<Action>, t: State,
                        c: nat, picked: seq<nat>)
    requires Runs(Init(k, lease), before, s) && Enabled(s, Create(id)) && Runs(Apply(s, Create(id)), after, t)
    requires Enabled(t, Select(c, picked)) && id in picked
    ensures t.now > s.now + lease
  {
    RunForward(Init(k, lease), before, s);
    StepForward(s, Create(id));
    RunForward(Apply(s, Create(id)), after, t);
    hide Runs, LeasesOk;
    assert IsStale(t, id);
  }

  /** And when nothing else happens it can be selected from the first moment after the lease on, not before. */
  lemma LeaseRunsOut(k: nat, lease: nat, before: seq<Action>, s: State, b: nat, id: nat, d: nat)
    requires Runs(Init(k, lease), before, s) && Writes(s, b, id)
    ensures var t := Apply(Apply(s, Write(b)), Wait(d)); IsStale(t, id) <==> d > lease
  {
    RunForward(Init(k, lease), before, s);
  }

  /** A publish that fails leaves every job as it was, so the next tick finds it again without waiting. */
  lemma FailedPublishKeeps(s: State, b: nat)
    requires Enabled(s, Republish(b, false))
    ensures var t := Apply(s, Republish(b, false));
      t.jobs == s.jobs && t.now == s.now && forall id :: IsStale(t, id) <==> IsStale(s, id)
  {
  }

  predicate OnList(bridge: Bridge, id: nat) {
    bridge.Working? && exists i :: 0 <= i < |bridge.todo| && bridge.todo[i].id == id
  }

  /** Before time x the bridge has the job no longer on its list, and cannot get it there. */
  ghost predicate HandsOff(s: State, b: nat, id: nat, x: int) {
    && b < |s.bridges| && id in s.jobs && s.jobs[id].leaseUntil >= x
    && (OnList(s.bridges[b], id) ==> s.now > x)
  }

  lemma OnRest(bridge: Bridge, id: nat)
    requires bridge.Working? && bridge.todo != []
    ensures OnList(bridge, id) <==> bridge.todo[0].id == id || OnList(Working(bridge.todo[1..], false), id)
  {
    var rest := bridge.todo[1..];
    assert forall i :: 0 <= i < |rest| ==> rest[i] == bridge.todo[i + 1];
    if OnList(bridge, id) && bridge.todo[0].id != id {
      var i :| 0 <= i < |bridge.todo| && bridge.todo[i].id == id;
      assert rest[i - 1].id == id;
    }
  }

  /** A job gets on a bridge's list only by a select, and only when its lease has run out. */
  lemma StepLists(s: State, a: Action, b: nat, id: nat)
    requires Enabled(s, a) && b < |s.bridges|
    ensures |Apply(s, a).bridges| == |s.bridges|
    ensures OnList(Apply(s, a).bridges[b], id) ==> OnList(s.bridges[b], id) || IsStale(s, id)
  {
    if a.Select? && a.b == b {
      if OnList(Apply(s, a).bridges[b], id) {
        var i :| 0 <= i < |a.picked| && a.picked[i] == id;
        assert IsStale(s, a.picked[i]);
      }
    } else if (a.Expire? || a.Republish? || a.Write?) && a.b == b {
      OnRest(s.bridges[b], id);
    }
  }

  lemma StepHandsOff(s: State, a: Action, b: nat, id: nat, x: int)
    requires LeasesOk(s) && HandsOff(s, b, id, x) && Enabled(s, a)
    ensures HandsOff(Apply(s, a), b, id, x)
  {
    StepForward(s, a);
    StepLists(s, a, b, id);
    hide Apply, Enabled, OnList, LeasesOk;
  }

  lemma {:induction false} RunHandsOff(s: State, acts: seq<Action>, t: State, b: nat, id: nat, x: int)
    requires LeasesOk(s) && HandsOff(s, b, id, x) && Runs(s, acts, t)
    ensures HandsOff(t, b, id, x)
    decreases |acts|
  {
    if acts != [] {
      StepForward(s, acts[0]);
      StepHandsOff(s, acts[0], b, id, x);
      hide Enabled, Apply, LeasesOk, HandsOff;
      RunHandsOff(Apply(s, acts[0]), acts[1..], t, b, id, x);
    }
  }

  /** Two republishes of a job by one bridge are more than a lease apart; with one bridge that is any two. */
  lemma RepublishesApart(k: nat, lease: nat, before: seq<Action>, s: State, b: nat, id: nat, after: seq<Action>, t: State,
                         ok: bool)
    requires Runs(Init(k, lease), before, s) && Writes(s, b, id) && Runs(Apply(s, Write(b)), after, t)
    requires Enabled(t, Republish(b, ok)) && t.bridges[b].todo[0].id == id
    ensures t.now > s.now + lease
  {
    RunForward(Init(k, lease), before, s);
    assert Inv(Init(k, lease));
    RunKeeps(Init(k, lease), before, s);
    assert BridgeOk(s, s.bridges[b]);
    StepForward(s, Write(b));
    var u := Apply(s, Write(b));
    assert forall i :: 0 <= i < |u.bridges[b].todo| ==> u.bridges[b].todo[i] == s.bridges[b].todo[i + 1];
    assert !OnList(u.bridges[b], id);
    hide Inv, Runs, LeasesOk, BridgeOk;
    RunHandsOff(u, after, t, b, id, s.now + lease);
    assert OnList(t.bridges[b], id);
  }

  // ---------- the end of a job ----------

  /** Retry counts only grow, so what a bridge has read is at most what is stored; and failed jobs have used up
      their retries. */
  ghost predicate RetriesRead(s: State) {
    && (forall b, i :: 0 <= b < |s.bridges| && s.bridges[b].Working? && 0 <= i < |s.bridges[b].todo| ==>
          var r := s.bridges[b].todo[i]; r.id in s.jobs && r.retry <= s.jobs[r.id].retryCount)
    && (forall id :: id in s.jobs && s.jobs[id].status == Failed ==> s.jobs[id].retryCount >= MAX_RETRIES)
  }

  lemma StepReads(s: State, a: Action)
    requires RetriesRead(s) && Enabled(s, a)
    ensures RetriesRead(Apply(s, a))
  {
    var t := Apply(s, a);
    forall b, i | 0 <= b < |t.bridges| && t.bridges[b].Working? && 0 <= i < |t.bridges[b].todo|
      ensures var r := t.bridges[b].todo[i]; r.id in t.jobs && r.retry <= t.jobs[r.id].retryCount
    {
      if a.Select? && a.b == b {
        assert IsStale(s, a.picked[i]);
      } else if (a.Expire? || a.Republish? || a.Write?) && a.b == b && |t.bridges[b].todo| < |s.bridges[b].todo| {
        assert t.bridges[b].todo[i] == s.bridges[b].todo[i + 1];
      } else {
        assert t.bridges[b].todo[i] == s.bridges[b].todo[i];
      }
    }
    if a.Expire? { assert s.bridges[a.b].todo[0].retry <= s.jobs[s.bridges[a.b].todo[0].id].retryCount; }
  }

  lemma {:induction false} RunReads(s: State, acts: seq<Action>, t: State)
    requires RetriesRead(s) && Runs(s, acts, t)
    ensures RetriesRead(t)
    decreases |acts|
  {
    if acts != [] {
      StepReads(s, acts[0]);
      hide Enabled, Apply, RetriesRead;
      RunReads(Apply(s, acts[0]), acts[1..], t);
    }
  }

  /** A job is given up only after three retries, and with one bridge after exactly three. */
  lemma FailsAfterRetries(k: nat, lease: nat, acts: seq<Action>, s: State, id: nat)
    requires Runs(Init(k, lease), acts, s) && id in s.jobs && s.jobs[id].status == Failed
    ensures s.jobs[id].retryCount >= 3 && (k == 1 ==> s.jobs[id].retryCount == 3)
  {
    RunReads(Init(k, lease), acts, s);
    RetriesBounded(k, lease, acts, s, id);
  }

  /** Every retry that was counted, or is about to be, was published. */
  ghost predicate RetriesPublished(s: State) {
    forall id :: id in s.jobs ==> s.jobs[id].retryCount + Sum(s.bridges, InFlight(id)) <= s.jobs[id].publishes
  }

  lemma StepPublishes(s: State, a: Action)
    requires Inv(s) && RetriesPublished(s) && Enabled(s, a)
    ensures RetriesPublished(Apply(s, a))
  {
    var t := Apply(s, a);
    hide JobOk, BridgeOk, Mentions;
    forall id | id in t.jobs
      ensures t.jobs[id].retryCount + Sum(t.bridges, InFlight(id)) <= t.jobs[id].publishes
    {
      match a
      case Create(_) => SumZero(s.bridges, InFlight(id));
      case Select(b, _) => SumUpdate(s.bridges, b, t.bridges[b], InFlight(id));
      case Expire(b) => SumUpdate(s.bridges, b, t.bridges[b], InFlight(id));
      case Republish(b, _) => SumUpdate(s.bridges, b, t.bridges[b], InFlight(id));
      case Write(b) => SumUpdate(s.bridges, b, t.bridges[b], InFlight(id));
      case Rest(b) => SumUpdate(s.bridges, b, t.bridges[b], InFlight(id));
      case _ =>
    }
  }

  lemma {:induction false} RunPublishes(s: State, acts: seq<Action>, t: State)
    requires Inv(s) && RetriesPublished(s) && Runs(s, acts, t)
    ensures RetriesPublished(t)
    decreases |acts|
  {
    hide Inv, Enabled, Apply, RetriesPublished;
    if acts != [] {
      StepPublishes(s, acts[0]);
      StepKeeps(s, acts[0]);
      RunPublishes(Apply(s, acts[0]), acts[1..], t);
    }
  }

  /** A failed publish costs no retry: a retry is counted only for a publish that succeeded. */
  lemma RetriesArePublishes(k: nat, lease: nat, acts: seq<Action>, s: State, id: nat)
    requires Runs(Init(k, lease), acts, s) && id in s.jobs
    ensures s.jobs[id].retryCount <= s.jobs[id].publishes
  {
    assert Inv(Init(k, lease));
    RunPublishes(Init(k, lease), acts, s);
  }

  /** A job that is through: its dispatcher is, and no bridge has it on its list. */
  ghost predicate Settled(s: State, id: nat) {
    && id in s.jobs && s.jobs[id].status == Completed && s.jobs[id].dispatch == Through
    && forall b :: 0 <= b < |s.bridges| ==> !OnList(s.bridges[b], id)
  }

  lemma StepSettled(s: State, a: Action, id: nat)
    requires Settled(s, id) && Enabled(s, a)
    ensures Settled(Apply(s, a), id) && Apply(s, a).jobs[id] == s.jobs[id]
  {
    var t := Apply(s, a);
    forall b | 0 <= b < |t.bridges| ensures !OnList(t.bridges[b], id) {
      assert !OnList(s.bridges[b], id);
      StepLists(s, a, b, id);
    }
    if a.Expire? || a.Republish? || a.Write? {
      OnRest(s.bridges[a.b], id);
      assert !OnList(s.bridges[a.b], id);
    }
  }

  /** Once the result is stored, the dispatcher through and no bridge in the middle of the job, the job stays
      completed and is never published again. */
  lemma {:induction false} CompletedStays(s: State, acts: seq<Action>, t: State, id: nat)
    requires Settled(s, id) && Runs(s, acts, t)
    ensures Settled(t, id) && t.jobs[id] == s.jobs[id]
    decreases |acts|
  {
    if acts != [] {
      StepSettled(s, acts[0], id);
      hide Enabled, Apply, Settled;
      CompletedStays(Apply(s, acts[0]), acts[1..], t, id);
    }
  }

  // ---------- the bound is reached ----------

  lemma {:induction false} RunThen(s: State, acts: seq<Action>, t: State, a: Action)
    requires Runs(s, acts, t) && Enabled(t, a)
    ensures Runs(s, acts + [a], Apply(t, a))
    decreases |acts|
  {
    hide Apply, Enabled;
    if acts == [] {
      assert [a][1..] == [];
      assert acts + [a] == [a];
    } else {
      RunThen(Apply(s, acts[0]), acts[1..], t, a);
      assert (acts + [a])[0] == acts[0] && (acts + [a])[1..] == acts[1..] + [a];
    }
  }

  lemma Do(first: State, acts: seq<Action>, s: State, a: Action) returns (more: seq<Action>, t: State)
    requires Runs(first, acts, s) && Enabled(s, a)
    ensures Runs(first, more, t) && t == Apply(s, a)
  {
    more, t := acts + [a], Apply(s, a);
    RunThen(first, acts, s, a);
  }

  /** Only job 0 exists; it has been published and its dispatcher is through. */
  predicate OneJob(s: State, lease: nat, retry: nat) {
    && s.lease == lease && s.jobs.Keys == {0}
    && s.jobs[0].status == Published && s.jobs[0].dispatch == Through
    && s.jobs[0].retryCount == retry && s.jobs[0].publishes == retry + 1
    && s.jobs[0].leaseUntil <= s.now + lease
  }

  lemma Dispatched(k: nat, lease: nat) returns (acts: seq<Action>, s: State)
    ensures Runs(Init(k, lease), acts, s) && s.bridges == Init(k, lease).bridges && OneJob(s, lease, 0)
  {
    hide Runs;
    var first := Init(k, lease);
    acts, s := [], first;
    assert Runs(first, acts, s) by { RunsNothing(first); }
    acts, s := Do(first, acts, s, Create(0));
    acts, s := Do(first, acts, s, DispatchPublish(0, true));
    acts, s := Do(first, acts, s, DispatchWrite(0));
  }

  lemma RunsNothing(s: State)
    ensures Runs(s, [], s)
  {
  }

  /** One bridge alone takes the job once around the loop after its lease ran out. */
  lemma Round(first: State, before: seq<Action>, from: State, lease: nat, retry: nat)
    returns (acts: seq<Action>, s: State)
    requires Runs(first, before, from) && OneJob(from, lease, retry) && retry < MAX_RETRIES
    requires from.bridges != [] && from.bridges[0] == Idle
    ensures Runs(first, acts, s) && s.bridges == from.bridges && OneJob(s, lease, retry + 1)
  {
    hide Runs;
    acts, s := Do(first, before, from, Wait(lease + 1));
    acts, s := Do(first, acts, s, Select(0, [0]));
    acts, s := Do(first, acts, s, Republish(0, true));
    acts, s := Do(first, acts, s, Write(0));
    acts, s := Do(first, acts, s, Rest(0));
    assert s.bridges == from.bridges;
  }

  /** All bridges select the job before any of them has raised its retry count. */
  lemma {:induction false} AllSelect(first: State, before: seq<Action>, from: State, lease: nat, n: nat)
    returns (acts: seq<Action>, s: State)
    requires Runs(first, before, from) && OneJob(from, lease, 2) && from.jobs[0].leaseUntil < from.now
    requires n <= |from.bridges| && forall b :: 0 <= b < |from.bridges| ==> from.bridges[b] == Idle
    ensures Runs(first, acts, s) && OneJob(s, lease, 2) && |s.bridges| == |from.bridges|
    ensures s.jobs[0].leaseUntil < s.now
    ensures forall b :: 0 <= b < n ==> s.bridges[b] == Working([Stale(0, 2)], false)
    ensures forall b :: n <= b < |s.bridges| ==> s.bridges[b] == Idle
  {
    hide Runs;
    acts, s := before, from;
    if n > 0 {
      acts, s := AllSelect(first, before, from, lease, n - 1);
      acts, s := Do(first, acts, s, Select(n - 1, [0]));
      assert s.bridges[n - 1].todo == [Stale(0, 2)];
    }
  }

  lemma {:induction false} AllRepublish(first: State, before: seq<Action>, from: State, lease: nat, n: nat)
    returns (acts: seq<Action>, s: State)
    requires Runs(first, before, from) && OneJob(from, lease, 2) && n <= |from.bridges|
    requires forall b :: 0 <= b < |from.bridges| ==> from.bridges[b] == Working([Stale(0, 2)], false)
    ensures Runs(first, acts, s) && OneJob(s, lease, 2 + n) && |s.bridges| == |from.bridges|
    ensures forall b :: n <= b < |s.bridges| ==> s.bridges[b] == Working([Stale(0, 2)], false)
  {
    hide Runs;
    acts, s := before, from;
    if n > 0 {
      acts, s := AllRepublish(first, before, from, lease, n - 1);
      acts, s := Do(first, acts, s, Republish(n - 1, true));
      acts, s := Do(first, acts, s, Write(n - 1));
    }
  }

  /** No smaller bound would do: with k bridges, k >= 1, some interleaving brings the retry count of a job to
      k + 2 and its publishes to k + 3. */
  lemma BoundIsReached(k: nat, lease: nat) returns (acts: seq<Action>, s: State)
    requires k > 0
    ensures Runs(Init(k, lease), acts, s)
    ensures 0 in s.jobs && s.jobs[0].retryCount == k + 2 && s.jobs[0].publishes == k + 3
  {
    hide Runs;
    var first := Init(k, lease);
    acts, s := Dispatched(k, lease);
    acts, s := Round(first, acts, s, lease, 0);
    acts, s := Round(first, acts, s, lease, 1);
    acts, s := Do(first, acts, s, Wait(lease + 1));
    acts, s := AllSelect(first, acts, s, lease, k);
    acts, s := AllRepublish(first, acts, s, lease, k);
  }

  /** A silent agent: one bridge alone publishes the job four times in all and then gives it up. */
  lemma SilentAgentFails(k: nat, lease: nat) returns (acts: seq<Action>, s: State)
    requires k > 0
    ensures Runs(Init(k, lease), acts, s)
    ensures 0 in s.jobs && s.jobs[0].status == Failed && s.jobs[0].retryCount == 3 && s.jobs[0].publishes == 4
  {
    hide Runs;
    var first := Init(k, lease);
    acts, s := Dispatched(k, lease);
    acts, s := Round(first, acts, s, lease, 0);
    acts, s := Round(first, acts, s, lease, 1);
    acts, s := Round(first, acts, s, lease, 2);
    acts, s := Do(first, acts, s, Wait(lease + 1));
    acts, s := Do(first, acts, s, Select(0, [0]));
    acts, s := Do(first, acts, s, Expire(0));
  }
}
