/** The workflow scheduler: repeated passes over a job list, running every job whose
    needs are done, against a backend that may answer anything. */
module Scheduler {
  import opened Wrappers
  import opened Digraph

  datatype State = Pending | Running | Success | Failure | Cancelled

  datatype Job = Job(id: string, needs: seq<string>)

  datatype JobInstance = JobInstance(jobId: string, defId: string, state: State, result: string)

  /** A backend answer: a result string and an optional error. */
  datatype Reply = Reply(res: string, err: Option<string>) {
    predicate IsOk() {
      err.None? && res == "ok"
    }

    function Describe(): string {
      if err.Some? then err.value else res
    }
  }

  datatype WalkResult = Finished | JobFailed(id: string, result: string) | Unresolved

  /** The execution backend: an arbitrary answer for each call, and the record of the
      jobs it was asked to run. */
  class Backend {
    const behave: (nat, string) -> Reply
    var calls: seq<string>

    constructor (behave: (nat, string) -> Reply)
      ensures this.behave == behave && calls == []
    {
      this.behave := behave;
      calls := [];
    }

    method Execute(job: Job) returns (reply: Reply)
      modifies this
      ensures reply == behave(|old(calls)|, job.id)
      ensures calls == old(calls) + [job.id]
    {
      reply := behave(|calls|, job.id);
      calls := calls + [job.id];
    }
  }

  // ----- runs -----

  function Updated(inst: JobInstance, s: State, result: string): JobInstance {
    inst.(state := s, result := if result != "" then result else inst.result)
  }

  /** Only the first instance of the definition is updated. */
  function UpdateFirst(jobs: seq<JobInstance>, defId: string, s: State, result: string): (r: seq<JobInstance>)
    ensures |r| == |jobs|
    ensures forall k :: 0 <= k < |jobs| ==> r[k].defId == jobs[k].defId && r[k].jobId == jobs[k].jobId
  {
    if jobs == [] then []
    else if jobs[0].defId == defId then [Updated(jobs[0], s, result)] + jobs[1..]
    else [jobs[0]] + UpdateFirst(jobs[1..], defId, s, result)
  }

  /** With distinct definitions, exactly the instances of the definition change. */
  lemma {:induction false} UpdateFirstAmongDistinct(jobs: seq<JobInstance>, defId: string, s: State, result: string)
    requires forall i, k :: 0 <= i < k < |jobs| ==> jobs[i].defId != jobs[k].defId
    ensures forall k :: 0 <= k < |jobs| ==>
      UpdateFirst(jobs, defId, s, result)[k]
        == if jobs[k].defId == defId then Updated(jobs[k], s, result) else jobs[k]
  {
    if jobs != [] && jobs[0].defId != defId {
      UpdateFirstAmongDistinct(jobs[1..], defId, s, result);
    }
  }

  lemma {:induction false} UpdateFirstAt(jobs: seq<JobInstance>, at: nat, defId: string, s: State, result: string)
    requires at <= |jobs| && forall m :: 0 <= m < at ==> jobs[m].defId != defId
    requires at < |jobs| ==> jobs[at].defId == defId
    ensures UpdateFirst(jobs, defId, s, result)
         == if at < |jobs| then jobs[at := Updated(jobs[at], s, result)] else jobs
  {
    if at > 0 {
      var rest := jobs[1..];
      UpdateFirstAt(rest, at - 1, defId, s, result);
      assert jobs == [jobs[0]] + rest;
      if at < |jobs| {
        assert jobs[at := Updated(jobs[at], s, result)] == [jobs[0]] + rest[at - 1 := Updated(rest[at - 1], s, result)];
      }
    } else if jobs != [] {
      assert jobs[0 := Updated(jobs[0], s, result)] == [Updated(jobs[0], s, result)] + jobs[1..];
    }
  }

  /** The first instance of the definition gets the state, and the result if there is one;
      without such an instance nothing changes. */
  lemma UpdateFirstMeans(jobs: seq<JobInstance>, at: nat, defId: string, s: State, result: string)
    requires at <= |jobs| && forall m :: 0 <= m < at ==> jobs[m].defId != defId
    requires at < |jobs| ==> jobs[at].defId == defId
    ensures at == |jobs| ==> UpdateFirst(jobs, defId, s, result) == jobs
    ensures at < |jobs| ==> UpdateFirst(jobs, defId, s, result) == jobs[at :=
      JobInstance(jobs[at].jobId, jobs[at].defId, s, if result == "" then jobs[at].result else result)]
  {
    UpdateFirstAt(jobs, at, defId, s, result);
  }

  class Run {
    var state: State
    var jobs: seq<JobInstance>

    /** One pending instance per job; instance ids are whatever the id source gives. */
    constructor (wf: seq<Job>, newIds: seq<string>)
      requires |newIds| == |wf|
      ensures state == Pending && Materialized(wf)
      ensures |jobs| == |wf|
      ensures forall k :: 0 <= k < |wf| ==> jobs[k] == JobInstance(newIds[k], wf[k].id, Pending, "")
    {
      state := Pending;
      jobs := seq(|wf|, i requires 0 <= i < |wf| => JobInstance(newIds[i], wf[i].id, Pending, ""));
    }

    ghost predicate Materialized(wf: seq<Job>)
      reads this
    {
      SameDefs(jobs, wf) && forall k :: 0 <= k < |jobs| ==> jobs[k].state == Pending
    }

    method SetState(s: State)
      modifies this`state
      ensures state == s
    {
      state := s;
    }

    method SetJobState(defId: string, s: State, result: string)
      modifies this`jobs
      ensures jobs == UpdateFirst(old(jobs), defId, s, result)
    {
      for i := 0 to |jobs|
        invariant jobs == old(jobs)
        invariant forall m :: 0 <= m < i ==> jobs[m].defId != defId
      {
        if jobs[i].defId == defId {
          UpdateFirstAt(jobs, i, defId, s, result);
          jobs := jobs[i := Updated(jobs[i], s, result)];
          return;
        }
      }
      UpdateFirstAt(jobs, |jobs|, defId, s, result);
    }
  }

  // ----- the needs relation -----

  function JobIds(wf: seq<Job>): seq<string> {
    seq(|wf|, i requires 0 <= i < |wf| => wf[i].id)
  }

  /** A later definition of the same id replaces an earlier one. */
  function ByDef(wf: seq<Job>): (m: map<string, Job>)
    ensures forall id :: id in m <==> id in JobIds(wf)
    ensures forall id :: id in m ==> m[id].id == id
  {
    if wf == [] then map[]
    else
      var last := wf[|wf| - 1];
      var m := ByDef(wf[..|wf| - 1]);
      assert JobIds(wf) == JobIds(wf[..|wf| - 1]) + [last.id];
      m[last.id := last]
  }

  function Needs(byDef: map<string, Job>): Graph {
    map id | id in byDef :: set n | n in byDef[id].needs
  }

  /** Entry `k` is the definition of its id that counts. */
  ghost predicate InForce(wf: seq<Job>, k: int) {
    0 <= k < |wf| && forall j :: k < j < |wf| ==> wf[j].id != wf[k].id
  }

  lemma {:induction false} ByDefHoldsTheLast(wf: seq<Job>, k: nat)
    requires InForce(wf, k)
    ensures wf[k].id in ByDef(wf) && ByDef(wf)[wf[k].id] == wf[k]
  {
    var n := |wf| - 1;
    if k < n {
      assert wf[n].id != wf[k].id;
      ByDefHoldsTheLast(wf[..n], k);
    }
  }

  lemma {:induction false} SomeInForce(wf: seq<Job>, id: string) returns (k: nat)
    requires id in ByDef(wf)
    ensures InForce(wf, k) && wf[k].id == id
  {
    var n := |wf| - 1;
    if wf[n].id == id {
      k := n;
    } else {
      k := SomeInForce(wf[..n], id);
      assert forall j :: k < j < n ==> wf[..n][j] == wf[j];
    }
  }

  ghost predicate NeedsJob(wf: seq<Job>, x: string, y: string) {
    exists k :: InForce(wf, k) && wf[k].id == x && y in wf[k].needs
  }

  /** The edges of the graph are the needs of the jobs. */
  lemma EdgesAreNeeds(wf: seq<Job>)
    ensures forall x, y :: Edge(Needs(ByDef(wf)), x, y) <==> NeedsJob(wf, x, y)
  {
    hide ByDef;
    forall x, y
      ensures Edge(Needs(ByDef(wf)), x, y) <==> NeedsJob(wf, x, y)
    {
      if Edge(Needs(ByDef(wf)), x, y) {
        var k := SomeInForce(wf, x);
        ByDefHoldsTheLast(wf, k);
      }
      if NeedsJob(wf, x, y) {
        var k :| InForce(wf, k) && wf[k].id == x && y in wf[k].needs;
        ByDefHoldsTheLast(wf, k);
      }
    }
  }

  ghost predicate Declared(g: Graph) {
    forall x, y :: Edge(g, x, y) ==> y in g
  }

  ghost predicate Ready(g: Graph, id: string, s: set<string>) {
    id in g && g[id] <= s
  }

  /** `s` takes in every declared job all of whose needs it holds. */
  ghost predicate ClosedUnderNeeds(g: Graph, s: set<string>) {
    forall id :: Ready(g, id, s) ==> id in s
  }

  ghost predicate LeastClosed(g: Graph, s: set<string>) {
    ClosedUnderNeeds(g, s) && forall t :: ClosedUnderNeeds(g, t) ==> s <= t
  }

  /** A legal execution: no job twice, every job declared and after all its needs. */
  ghost predicate NeedsFirst(g: Graph, executed: seq<string>) {
    && Distinct(executed)
    && forall i :: 0 <= i < |executed| ==> executed[i] in g && g[executed[i]] <= Elems(executed[..i])
  }

  ghost predicate SameDefs(jobs: seq<JobInstance>, wf: seq<Job>) {
    |jobs| == |wf| && forall k :: 0 <= k < |jobs| ==> jobs[k].defId == wf[k].id
  }

  /** The instance states once the jobs of `done` succeeded and `failed`, if any, failed. */
  ghost predicate StatesAre(jobs: seq<JobInstance>, done: set<string>, failed: set<string>) {
    forall k :: 0 <= k < |jobs| ==>
      jobs[k].state == if jobs[k].defId in done then Success
                       else if jobs[k].defId in failed then Failure else Pending
  }

  ghost predicate AllOk(back: Backend) {
    forall i: nat, id :: back.behave(i, id) == Reply("ok", None)
  }

  lemma {:induction false} ExecutionStaysInClosedSets(g: Graph, executed: seq<string>, t: set<string>)
    requires NeedsFirst(g, executed) && ClosedUnderNeeds(g, t)
    ensures Elems(executed) <= t
  {
    if executed != [] {
      var last := |executed| - 1;
      var init := executed[..last];
      assert forall i :: 0 <= i < last ==> init[..i] == executed[..i];
      ExecutionStaysInClosedSets(g, init, t);
      assert forall x :: x in executed <==> x in init || x == executed[last];
    }
  }

  lemma NeedsFirstExtends(g: Graph, executed: seq<string>, id: string)
    requires NeedsFirst(g, executed) && id !in executed
    requires id in g && g[id] <= Elems(executed)
    ensures NeedsFirst(g, executed + [id])
    ensures Elems(executed + [id]) == Elems(executed) + {id}
  {
    var longer := executed + [id];
    assert forall i :: 0 <= i < |executed| ==> longer[..i] == executed[..i];
    assert longer[..|executed|] == executed;
  }

  /** Running everything certifies the workflow. */
  lemma CompleteExecutionCertifies(g: Graph, executed: seq<string>)
    requires NeedsFirst(g, executed) && Elems(executed) == g.Keys
    ensures Declared(g) && Acyclic(g)
  {
    forall x, y | Edge(g, x, y)
      ensures x in executed && y in executed && y in g
    {
      assert x in Elems(executed);
      var i :| 0 <= i < |executed| && executed[i] == x;
      assert y in Elems(executed[..i]);
    }
    forall i, j | 0 <= i < |executed| && 0 <= j < |executed| && Edge(g, executed[i], executed[j])
      ensures j < i
    {
      assert executed[j] in Elems(executed[..i]);
      var k :| 0 <= k < i && executed[..i][k] == executed[j];
      assert executed[k] == executed[j];
    }
    assert OrderedBy(g, executed);
    OrderedIsAcyclic(g, executed);
  }

  /** Getting stuck short of the end, with every need declared, exhibits a cycle. */
  lemma StuckMeansCycle(g: Graph, done: set<string>)
    requires ClosedUnderNeeds(g, done) && done <= g.Keys && done != g.Keys
    ensures !(Declared(g) && Acyclic(g))
  {
    if Declared(g) {
      var stuck := g.Keys - done;
      var left :| left in g.Keys && left !in done;
      assert left in stuck;
      forall x | x in stuck
        ensures CanStep(g, stuck, x)
      {
        var y :| y in g[x] && y !in done;
        assert Edge(g, x, y);
      }
      StuckSetHasCycle(g, stuck);
    }
  }

  // ----- the walk -----

  method AllDone(needs: seq<string>, done: set<string>) returns (all: bool)
    ensures all <==> (set n | n in needs) <= done
  {
    for i := 0 to |needs|
      invariant forall m :: 0 <= m < i ==> needs[m] in done
    {
      if needs[i] !in done {
        assert needs[i] in (set n | n in needs);
        return false;
      }
    }
    return true;
  }

  method IndexJobs(wf: seq<Job>) returns (byDef: map<string, Job>)
    ensures byDef == ByDef(wf)
  {
    byDef := map[];
    for i := 0 to |wf|
      invariant byDef == ByDef(wf[..i])
    {
      assert wf[..i + 1][..i] == wf[..i];
      byDef := byDef[wf[i].id := wf[i]];
    }
    assert wf[..|wf|] == wf;
  }

  /** What a walk that executed `executed`, starting as call number `base`, may report. */
  ghost predicate Reported(g: Graph, wf: seq<Job>, behave: (nat, string) -> Reply, base: nat,
      executed: seq<string>, out: WalkResult)
  {
    && NeedsFirst(g, executed)
    && (forall i :: 0 <= i < |executed| && !(out.JobFailed? && i == |executed| - 1) ==>
          behave(base + i, executed[i]).IsOk())
    && (out.JobFailed? ==>
          && executed != [] && out.id == executed[|executed| - 1]
          && !behave(base + |executed| - 1, out.id).IsOk()
          && out.result == behave(base + |executed| - 1, out.id).Describe())
    && (out.Finished? ==> Elems(executed) == g.Keys && Distinct(JobIds(wf)))
    && (out.Unresolved? ==> LeastClosed(g, Elems(executed)) && |Elems(executed)| < |wf|)
  }

  ghost function Succeeded(executed: seq<string>, out: WalkResult): set<string> {
    if out.JobFailed? && executed != [] then Elems(executed[..|executed| - 1]) else Elems(executed)
  }

  ghost function Failed(out: WalkResult): set<string> {
    if out.JobFailed? then {out.id} else {}
  }

  /** A failed job's instance carries the backend's words, when it had any. */
  ghost predicate FailureRecorded(jobs: seq<JobInstance>, out: WalkResult) {
    out.JobFailed? && out.result != "" ==>
      forall k :: 0 <= k < |jobs| && jobs[k].defId == out.id ==> jobs[k].result == out.result
  }

  /** One job that is ready: marked running, executed, and marked by its answer. */
  method RunJob(j: Job, run: Run, back: Backend, ghost wf: seq<Job>, ghost done: set<string>) returns (reply: Reply)
    requires SameDefs(run.jobs, wf) && j.id !in done
    modifies run`jobs, back
    ensures reply == back.behave(|old(back.calls)|, j.id) && back.calls == old(back.calls) + [j.id]
    ensures SameDefs(run.jobs, wf)
    ensures Distinct(JobIds(wf)) && StatesAre(old(run.jobs), done, {}) ==>
      if reply.IsOk() then StatesAre(run.jobs, done + {j.id}, {}) else StatesAre(run.jobs, done, {j.id})
    ensures Distinct(JobIds(wf)) && !reply.IsOk() ==> FailureRecorded(run.jobs, JobFailed(j.id, reply.Describe()))
  {
    ghost var j0 := run.jobs;
    run.SetJobState(j.id, Running, "");
    ghost var j1 := run.jobs;
    reply := back.Execute(j);
    if !reply.IsOk() {
      run.SetJobState(j.id, Failure, reply.Describe());
    } else {
      run.SetJobState(j.id, Success, "");
    }
    if Distinct(JobIds(wf)) {
      DistinctDefs(j0, wf);
      DistinctDefs(j1, wf);
      UpdateFirstAmongDistinct(j0, j.id, Running, "");
      if reply.IsOk() {
        UpdateFirstAmongDistinct(j1, j.id, Success, "");
      } else {
        UpdateFirstAmongDistinct(j1, j.id, Failure, reply.Describe());
      }
    }
  }

  lemma DistinctDefs(jobs: seq<JobInstance>, wf: seq<Job>)
    requires SameDefs(jobs, wf) && Distinct(JobIds(wf))
    ensures forall i, k :: 0 <= i < k < |jobs| ==> jobs[i].defId != jobs[k].defId
  {
    assert forall k :: 0 <= k < |wf| ==> JobIds(wf)[k] == wf[k].id;
  }

  /** How far a walk has come without a failure. */
  ghost predicate Going(g: Graph, wf: seq<Job>, behave: (nat, string) -> Reply, base: nat,
      executed: seq<string>, done: set<string>, jobs: seq<JobInstance>)
  {
    && NeedsFirst(g, executed) && done == Elems(executed)
    && (forall i :: 0 <= i < |executed| ==> behave(base + i, executed[i]).IsOk())
    && SameDefs(jobs, wf)
    && (Distinct(JobIds(wf)) ==> StatesAre(jobs, done, {}))
  }

  lemma GoingStarts(g: Graph, wf: seq<Job>, behave: (nat, string) -> Reply, base: nat, jobs: seq<JobInstance>)
    requires SameDefs(jobs, wf) && forall k :: 0 <= k < |jobs| ==> jobs[k].state == Pending
    ensures Going(g, wf, behave, base, [], {}, jobs)
  {
  }

  lemma GoingStates(g: Graph, wf: seq<Job>, behave: (nat, string) -> Reply, base: nat,
      executed: seq<string>, done: set<string>, jobs: seq<JobInstance>)
    requires Going(g, wf, behave, base, executed, done, jobs)
    ensures SameDefs(jobs, wf) && (Distinct(JobIds(wf)) ==> StatesAre(jobs, done, {}))
  {
  }

  lemma GoingOn(g: Graph, wf: seq<Job>, behave: (nat, string) -> Reply, base: nat,
      executed: seq<string>, done: set<string>, jobs: seq<JobInstance>, id: string, after: seq<JobInstance>)
    requires Going(g, wf, behave, base, executed, done, jobs)
    requires id !in done && Ready(g, id, done) && behave(base + |executed|, id).IsOk()
    requires SameDefs(after, wf) && (Distinct(JobIds(wf)) ==> StatesAre(after, done + {id}, {}))
    ensures Going(g, wf, behave, base, executed + [id], done + {id}, after)
  {
    NeedsFirstExtends(g, executed, id);
  }

  /** A walk stopped by a failed job. */
  ghost predicate Stopped(g: Graph, wf: seq<Job>, behave: (nat, string) -> Reply, base: nat,
      executed: seq<string>, out: WalkResult, jobs: seq<JobInstance>)
  {
    && out.JobFailed? && Reported(g, wf, behave, base, executed, out) && SameDefs(jobs, wf)
    && (Distinct(JobIds(wf)) ==>
          StatesAre(jobs, Succeeded(executed, out), Failed(out)) && FailureRecorded(jobs, out))
  }

  lemma GoingWrong(g: Graph, wf: seq<Job>, behave: (nat, string) -> Reply, base: nat,
      executed: seq<string>, done: set<string>, jobs: seq<JobInstance>, id: string, after: seq<JobInstance>)
    requires Going(g, wf, behave, base, executed, done, jobs)
    requires id !in done && Ready(g, id, done) && !behave(base + |executed|, id).IsOk()
    requires SameDefs(after, wf)
    requires var out := JobFailed(id, behave(base + |executed|, id).Describe());
      Distinct(JobIds(wf)) ==> StatesAre(after, done, {id}) && FailureRecorded(after, out)
    ensures Stopped(g, wf, behave, base, executed + [id],
      JobFailed(id, behave(base + |executed|, id).Describe()), after)
  {
    NeedsFirstExtends(g, executed, id);
    assert (executed + [id])[..|executed|] == executed;
  }

  lemma StoppedMeans(g: Graph, wf: seq<Job>, behave: (nat, string) -> Reply, base: nat,
      executed: seq<string>, out: WalkResult, jobs: seq<JobInstance>)
    requires Stopped(g, wf, behave, base, executed, out, jobs)
    ensures Reported(g, wf, behave, base, executed, out) && SameDefs(jobs, wf)
    ensures Distinct(JobIds(wf)) ==> StatesAre(jobs, Succeeded(executed, out), Failed(out))
    ensures Distinct(JobIds(wf)) ==> FailureRecorded(jobs, out)
  {
  }

  lemma GoingNowhere(g: Graph, wf: seq<Job>, behave: (nat, string) -> Reply, base: nat,
      executed: seq<string>, done: set<string>, jobs: seq<JobInstance>)
    requires g == Needs(ByDef(wf)) && Going(g, wf, behave, base, executed, done, jobs) && |done| < |wf|
    requires forall k :: 0 <= k < |wf| && Ready(g, wf[k].id, done) ==> wf[k].id in done
    ensures Reported(g, wf, behave, base, executed, Unresolved)
    ensures SameDefs(jobs, wf)
    ensures Distinct(JobIds(wf)) ==> StatesAre(jobs, Succeeded(executed, Unresolved), Failed(Unresolved))
  {
    StuckIsLeastClosed(g, wf, executed);
  }

  lemma GoneThrough(g: Graph, wf: seq<Job>, behave: (nat, string) -> Reply, base: nat,
      executed: seq<string>, done: set<string>, jobs: seq<JobInstance>)
    requires g == Needs(ByDef(wf)) && Going(g, wf, behave, base, executed, done, jobs) && |done| >= |wf|
    ensures Reported(g, wf, behave, base, executed, Finished)
    ensures SameDefs(jobs, wf)
    ensures Distinct(JobIds(wf)) ==> StatesAre(jobs, Succeeded(executed, Finished), Failed(Finished))
  {
    FullCount(wf, executed, g);
  }

  /** Runs one job whose needs are done: the execution goes on, or stops with it. */
  method RunNext(j: Job, run: Run, back: Backend, ghost g: Graph, ghost wf: seq<Job>, ghost base: nat,
      ghost executed: seq<string>, ghost done: set<string>)
    returns (failed: Option<WalkResult>)
    requires Going(g, wf, back.behave, base, executed, done, run.jobs) && |back.calls| == base + |executed|
    requires j.id !in done && Ready(g, j.id, done)
    modifies run`jobs, back
    ensures back.calls == old(back.calls) + [j.id]
    ensures failed.None? ==> Going(g, wf, back.behave, base, executed + [j.id], done + {j.id}, run.jobs)
    ensures failed.Some? ==> Stopped(g, wf, back.behave, base, executed + [j.id], failed.value, run.jobs)
  {
    hide Going, Reported, StatesAre, SameDefs, FailureRecorded, Stopped, Ready;
    ghost var jobs := run.jobs;
    GoingStates(g, wf, back.behave, base, executed, done, jobs);
    var reply := RunJob(j, run, back, wf, done);
    if !reply.IsOk() {
      GoingWrong(g, wf, back.behave, base, executed, done, jobs, j.id, run.jobs);
      return Some(JobFailed(j.id, reply.Describe()));
    }
    GoingOn(g, wf, back.behave, base, executed, done, jobs, j.id, run.jobs);
    failed := None;
  }

  /** Runs one job if it has not run and its needs are done. */
  method RunIfReady(j: Job, run: Run, back: Backend, done: set<string>, ghost wf: seq<Job>, ghost base: nat,
      ghost executed: seq<string>)
    returns (ran: bool, failed: Option<WalkResult>)
    requires j.id in ByDef(wf) && j == ByDef(wf)[j.id] && |back.calls| == base + |executed|
    requires Going(Needs(ByDef(wf)), wf, back.behave, base, executed, done, run.jobs)
    modifies run`jobs, back
    ensures ran <==> j.id !in done && Ready(Needs(ByDef(wf)), j.id, done)
    ensures !ran ==> failed.None? && back.calls == old(back.calls) && run.jobs == old(run.jobs)
    ensures ran ==> back.calls == old(back.calls) + [j.id]
    ensures ran && failed.None? ==>
      Going(Needs(ByDef(wf)), wf, back.behave, base, executed + [j.id], done + {j.id}, run.jobs)
    ensures failed.Some? ==>
      ran && Stopped(Needs(ByDef(wf)), wf, back.behave, base, executed + [j.id], failed.value, run.jobs)
  {
    hide ByDef, Going, Stopped;
    ran, failed := false, None;
    if j.id in done {
      return;
    }
    var ready := AllDone(j.needs, done);
    if !ready {
      return;
    }
    failed := RunNext(j, run, back, Needs(ByDef(wf)), wf, base, executed, done);
    ran := true;
  }

  /** One pass over the job list; `failed` is the first bad answer met. */
  method Pass(wf: seq<Job>, byDef: map<string, Job>, run: Run, back: Backend, done: set<string>,
      ghost base: nat, ghost executed: seq<string>)
    returns (now: set<string>, progress: bool, failed: Option<WalkResult>, ghost ran: seq<string>)
    requires byDef == ByDef(wf) && |back.calls| == base + |executed|
    requires Going(Needs(byDef), wf, back.behave, base, executed, done, run.jobs)
    modifies run`jobs, back
    ensures back.calls == old(back.calls) + ran
    ensures failed.None? ==>
      && Going(Needs(byDef), wf, back.behave, base, executed + ran, now, run.jobs)
      && done <= now && (progress <==> done != now)
      && (!progress ==> forall k :: 0 <= k < |wf| && Ready(Needs(byDef), wf[k].id, now) ==> wf[k].id in now)
    ensures failed.Some? ==>
      Stopped(Needs(byDef), wf, back.behave, base, executed + ran, failed.value, run.jobs)
    ensures Obeys(wf, executed + ran)
  {
    hide ByDef, Needs, Ready, Obeys, Going, Stopped;
    ghost var g := Needs(byDef);
    now, progress, failed, ran := done, false, None, [];
    assert executed + ran == executed;
    for m := 0 to |wf|
      invariant failed.None? && back.calls == old(back.calls) + ran
      invariant Going(g, wf, back.behave, base, executed + ran, now, run.jobs)
      invariant done <= now && (progress <==> done != now)
      invariant !progress ==> forall k :: 0 <= k < m && Ready(g, wf[k].id, now) ==> wf[k].id in now
    {
      assert JobIds(wf)[m] == wf[m].id;
      var j := byDef[wf[m].id];
      var runs;
      runs, failed := RunIfReady(j, run, back, now, wf, base, executed + ran);
      if !runs {
        continue;
      }
      assert executed + (ran + [j.id]) == executed + ran + [j.id];
      ran := ran + [j.id];
      if failed.Some? {
        PassObeys(wf, back.behave, base, executed + ran, now, run.jobs, failed);
        return;
      }
      now := now + {j.id};
      progress := true;
    }
    PassObeys(wf, back.behave, base, executed + ran, now, run.jobs, failed);
  }

  lemma PassObeys(wf: seq<Job>, behave: (nat, string) -> Reply, base: nat, executed: seq<string>,
      done: set<string>, jobs: seq<JobInstance>, failed: Option<WalkResult>)
    requires match failed
      case None => Going(Needs(ByDef(wf)), wf, behave, base, executed, done, jobs)
      case Some(out) => Stopped(Needs(ByDef(wf)), wf, behave, base, executed, out, jobs)
    ensures Obeys(wf, executed)
  {
    hide ByDef, Obeys;
    LegalExecutionObeys(wf, executed);
  }

  method Walk(wf: seq<Job>, run: Run, back: Backend) returns (out: WalkResult, ghost executed: seq<string>)
    requires run.Materialized(wf)
    modifies run`jobs, back
    ensures back.calls == old(back.calls) + executed
    ensures Reported(Needs(ByDef(wf)), wf, back.behave, |old(back.calls)|, executed, out)
    ensures Says(wf, back.behave, |old(back.calls)|, executed, out)
    ensures SameDefs(run.jobs, wf)
    ensures Distinct(JobIds(wf)) ==> StatesAre(run.jobs, Succeeded(executed, out), Failed(out))
    ensures Distinct(JobIds(wf)) ==> FailureRecorded(run.jobs, out)
  {
    hide Going, Reported, Says, StatesAre, SameDefs, FailureRecorded, Stopped;
    var byDef := IndexJobs(wf);
    ghost var g := Needs(byDef);
    ghost var base := |back.calls|;
    var done: set<string> := {};
    executed := [];
    GoingStarts(g, wf, back.behave, base, run.jobs);
    while |done| < |wf|
      invariant back.calls == old(back.calls) + executed
      invariant Going(g, wf, back.behave, base, executed, done, run.jobs)
      decreases |wf| - |done|
    {
      var now, progress, failed, ran := Pass(wf, byDef, run, back, done, base, executed);
      executed := executed + ran;
      if failed.Some? {
        StoppedMeans(g, wf, back.behave, base, executed, failed.value, run.jobs);
        ReportSays(wf, back.behave, base, executed, failed.value);
        return failed.value, executed;
      }
      if !progress {
        GoingNowhere(g, wf, back.behave, base, executed, now, run.jobs);
        OnlyFailuresAreRecorded(run.jobs, Unresolved);
        ReportSays(wf, back.behave, base, executed, Unresolved);
        return Unresolved, executed;
      }
      GrownSetIsLarger(done, now);
      done := now;
    }
    GoneThrough(g, wf, back.behave, base, executed, done, run.jobs);
    out := Finished;
    OnlyFailuresAreRecorded(run.jobs, out);
    ReportSays(wf, back.behave, base, executed, out);
  }

  lemma OnlyFailuresAreRecorded(jobs: seq<JobInstance>, out: WalkResult)
    requires !out.JobFailed?
    ensures FailureRecorded(jobs, out)
  {
  }

  lemma GrownSetIsLarger(small: set<string>, large: set<string>)
    requires small <= large && small != large
    ensures |small| < |large|
  {
    assert large == small + (large - small);
    assert large - small != {};
  }

  lemma StuckIsLeastClosed(g: Graph, wf: seq<Job>, executed: seq<string>)
    requires g == Needs(ByDef(wf)) && NeedsFirst(g, executed)
    requires forall k :: 0 <= k < |wf| && Ready(g, wf[k].id, Elems(executed)) ==> wf[k].id in Elems(executed)
    ensures LeastClosed(g, Elems(executed))
  {
    var s := Elems(executed);
    forall id | Ready(g, id, s)
      ensures id in s
    {
      assert id in JobIds(wf);
      var k :| 0 <= k < |wf| && JobIds(wf)[k] == id;
      assert wf[k].id == id;
    }
    forall t | ClosedUnderNeeds(g, t)
      ensures s <= t
    {
      ExecutionStaysInClosedSets(g, executed, t);
    }
  }

  lemma DeclaredIds(wf: seq<Job>)
    ensures Needs(ByDef(wf)).Keys == set x | x in JobIds(wf)
    ensures |Needs(ByDef(wf)).Keys| <= |wf|
    ensures Distinct(JobIds(wf)) <==> |Needs(ByDef(wf)).Keys| == |wf|
  {
    DistinctCount(JobIds(wf));
    assert Needs(ByDef(wf)).Keys == set x | x in JobIds(wf);
  }

  lemma FullCount(wf: seq<Job>, executed: seq<string>, g: Graph)
    requires g == Needs(ByDef(wf)) && NeedsFirst(g, executed) && |Elems(executed)| >= |wf|
    ensures Elems(executed) == g.Keys && Distinct(JobIds(wf))
  {
    DeclaredIds(wf);
    assert Elems(executed) <= g.Keys;
    if Elems(executed) != g.Keys {
      GrownSetIsLarger(Elems(executed), g.Keys);
    }
  }

  // ----- what a walk means -----

  const OK := Reply("ok", None)

  ghost predicate HasJob(wf: seq<Job>, id: string) {
    exists k :: InForce(wf, k) && wf[k].id == id
  }

  /** Everything the job's definition needs is in the list. */
  ghost predicate NeedsMet(wf: seq<Job>, id: string, before: seq<string>) {
    forall k, n :: InForce(wf, k) && wf[k].id == id && n in wf[k].needs ==> n in before
  }

  /** No job twice, only listed jobs, and each after everything its definition needs. */
  ghost predicate Obeys(wf: seq<Job>, executed: seq<string>) {
    Distinct(executed) &&
    forall i :: 0 <= i < |executed| ==> HasJob(wf, executed[i]) && NeedsMet(wf, executed[i], executed[..i])
  }

  /** What a walk reports, in terms of the job list and the backend's answers. */
  ghost predicate Says(wf: seq<Job>, behave: (nat, string) -> Reply, base: nat, executed: seq<string>,
      out: WalkResult)
  {
    && Obeys(wf, executed)
    && (forall i :: 0 <= i < |executed| && !(out.JobFailed? && i == |executed| - 1) ==>
          behave(base + i, executed[i]) == OK)
    && (out.JobFailed? ==>
          && executed != [] && out.id == executed[|executed| - 1]
          && var reply := behave(base + |executed| - 1, out.id);
             reply != OK && out.result == match reply.err case Some(e) => e case None => reply.res)
    && (out.Finished? ==> Distinct(JobIds(wf)) && forall k :: 0 <= k < |wf| ==> wf[k].id in executed)
    && (out.Unresolved? ==>
          && (forall k :: InForce(wf, k) && wf[k].id !in executed ==> exists n :: n in wf[k].needs && n !in executed)
          && !(Distinct(JobIds(wf)) && forall k :: 0 <= k < |wf| ==> wf[k].id in executed))
  }

  /** Every id once, every need listed, and no chain of needs back to its start. */
  ghost predicate GoodWorkflow(wf: seq<Job>) {
    && Distinct(JobIds(wf))
    && (forall k, n :: 0 <= k < |wf| && n in wf[k].needs ==> n in JobIds(wf))
    && forall p: seq<string> :: |p| >= 2 && (forall i :: 0 <= i < |p| - 1 ==> NeedsJob(wf, p[i], p[i + 1])) ==>
         p[0] != p[|p| - 1]
  }

  lemma LegalExecutionObeys(wf: seq<Job>, executed: seq<string>)
    requires NeedsFirst(Needs(ByDef(wf)), executed)
    ensures Obeys(wf, executed)
  {
    hide ByDef, HasJob, NeedsMet, Needs;
    forall i | 0 <= i < |executed|
      ensures HasJob(wf, executed[i]) && NeedsMet(wf, executed[i], executed[..i])
    {
      NeedsAreMet(wf, executed[i], executed[..i]);
    }
  }

  lemma NeedsAreMet(wf: seq<Job>, id: string, before: seq<string>)
    requires id in Needs(ByDef(wf)) && Needs(ByDef(wf))[id] <= Elems(before)
    ensures HasJob(wf, id) && NeedsMet(wf, id, before)
  {
    hide ByDef;
    var at := SomeInForce(wf, id);
    forall k, n | InForce(wf, k) && wf[k].id == id && n in wf[k].needs
      ensures n in before
    {
      ByDefHoldsTheLast(wf, k);
      assert n in Elems(before);
    }
  }

  lemma FailureSays(reply: Reply)
    ensures reply.IsOk() <==> reply == OK
    ensures reply.Describe() == match reply.err case Some(e) => e case None => reply.res
  {
  }

  lemma ReportSays(wf: seq<Job>, behave: (nat, string) -> Reply, base: nat, executed: seq<string>, out: WalkResult)
    requires Reported(Needs(ByDef(wf)), wf, behave, base, executed, out)
    ensures Says(wf, behave, base, executed, out)
  {
    hide ByDef, Obeys, NeedsFirst, LeastClosed, Distinct, Needs;
    LegalExecutionObeys(wf, executed);
    if out.Unresolved? {
      UnresolvedSays(wf, executed);
    }
    if out.Finished? {
      FinishedSays(wf, executed);
    }
    if out.JobFailed? {
      FailureSays(behave(base + |executed| - 1, out.id));
    }
  }

  lemma FinishedSays(wf: seq<Job>, executed: seq<string>)
    requires Elems(executed) == Needs(ByDef(wf)).Keys
    ensures forall k :: 0 <= k < |wf| ==> wf[k].id in executed
  {
    hide ByDef;
    assert forall k :: 0 <= k < |wf| ==> JobIds(wf)[k] == wf[k].id;
    assert forall k :: 0 <= k < |wf| ==> wf[k].id in Elems(executed);
  }

  lemma UnresolvedSays(wf: seq<Job>, executed: seq<string>)
    requires LeastClosed(Needs(ByDef(wf)), Elems(executed)) && |Elems(executed)| < |wf|
    ensures forall k :: InForce(wf, k) && wf[k].id !in executed ==> exists n :: n in wf[k].needs && n !in executed
    ensures !(Distinct(JobIds(wf)) && forall k :: 0 <= k < |wf| ==> wf[k].id in executed)
  {
    hide ByDef;
    var g := Needs(ByDef(wf));
    forall k | InForce(wf, k) && wf[k].id !in executed
      ensures exists n :: n in wf[k].needs && n !in executed
    {
      ByDefHoldsTheLast(wf, k);
      assert !Ready(g, wf[k].id, Elems(executed));
    }
    if Distinct(JobIds(wf)) && forall k :: 0 <= k < |wf| ==> wf[k].id in executed {
      DistinctFits(JobIds(wf), Elems(executed));
      assert false;
    }
  }

  lemma GoodMeansAcyclic(wf: seq<Job>)
    ensures GoodWorkflow(wf) <==>
      Distinct(JobIds(wf)) && Declared(Needs(ByDef(wf))) && Acyclic(Needs(ByDef(wf)))
  {
    hide ByDef, NeedsJob;
    var g := Needs(ByDef(wf));
    EdgesAreNeeds(wf);
    if Distinct(JobIds(wf)) {
      NeedsAreDeclared(wf);
      assert forall p: seq<string> :: |p| >= 2 ==>
        (IsPath(g, p) <==> forall i :: 0 <= i < |p| - 1 ==> NeedsJob(wf, p[i], p[i + 1]));
    }
  }

  lemma NeedsAreDeclared(wf: seq<Job>)
    requires Distinct(JobIds(wf))
    ensures Declared(Needs(ByDef(wf))) <==> forall k, n :: 0 <= k < |wf| && n in wf[k].needs ==> n in JobIds(wf)
  {
    hide ByDef;
    EdgesAreNeeds(wf);
    assert forall k :: 0 <= k < |wf| ==> JobIds(wf)[k] == wf[k].id;
    forall k | 0 <= k < |wf|
      ensures InForce(wf, k)
    {
    }
    if Declared(Needs(ByDef(wf))) {
      forall k, n | 0 <= k < |wf| && n in wf[k].needs
        ensures n in JobIds(wf)
      {
        assert NeedsJob(wf, wf[k].id, n);
      }
    }
  }

  /** With a backend that always answers ok, the walk succeeds exactly for workflows
      with pairwise distinct ids, declared needs and no needs cycle. */
  lemma FinishesExactlyOnGoodWorkflows(g: Graph, wf: seq<Job>, behave: (nat, string) -> Reply, base: nat,
      executed: seq<string>, out: WalkResult)
    requires g == Needs(ByDef(wf)) && Reported(g, wf, behave, base, executed, out)
    requires forall i: nat, id :: behave(i, id).IsOk()
    ensures out.Finished? <==> Distinct(JobIds(wf)) && Declared(g) && Acyclic(g)
  {
    if out.Finished? {
      CompleteExecutionCertifies(g, executed);
    } else {
      assert out.Unresolved?;
      var done := Elems(executed);
      DeclaredIds(wf);
      if Distinct(JobIds(wf)) {
        assert done <= g.Keys && done != g.Keys;
        StuckMeansCycle(g, done);
      }
    }
  }

  ghost function CountIn(jobs: seq<JobInstance>, s: State): nat {
    if jobs == [] then 0
    else CountIn(jobs[1..], s) + if jobs[0].state == s then 1 else 0
  }

  lemma {:induction false} CountNone(jobs: seq<JobInstance>, s: State)
    requires forall k :: 0 <= k < |jobs| ==> jobs[k].state != s
    ensures CountIn(jobs, s) == 0
  {
    if jobs != [] {
      CountNone(jobs[1..], s);
    }
  }

  lemma {:induction false} CountOne(jobs: seq<JobInstance>, s: State, at: nat)
    requires at < |jobs| && jobs[at].state == s
    requires forall k :: 0 <= k < |jobs| && k != at ==> jobs[k].state != s
    ensures CountIn(jobs, s) == 1
  {
    if at == 0 {
      CountNone(jobs[1..], s);
    } else {
      CountOne(jobs[1..], s, at - 1);
    }
  }

  /** The instances a walk leaves behind: none is running, a failed job is the only
      failure, and everything succeeded exactly when the walk did. */
  lemma FinalInstances(g: Graph, wf: seq<Job>, behave: (nat, string) -> Reply, base: nat,
      executed: seq<string>, out: WalkResult, jobs: seq<JobInstance>)
    requires g == Needs(ByDef(wf)) && Distinct(JobIds(wf))
    requires Reported(g, wf, behave, base, executed, out)
    requires SameDefs(jobs, wf) && StatesAre(jobs, Succeeded(executed, out), Failed(out))
    ensures CountIn(jobs, Running) == 0
    ensures CountIn(jobs, Failure) == if out.JobFailed? then 1 else 0
    ensures forall k :: 0 <= k < |jobs| ==> jobs[k].state in {Success, Failure, Pending}
    ensures out.Finished? <==> forall k :: 0 <= k < |jobs| ==> jobs[k].state == Success
  {
    hide LeastClosed, NeedsFirst, Distinct, Needs, JobIds;
    CountNone(jobs, Running);
    if out.JobFailed? {
      FailureIsAlone(g, wf, executed, out, jobs);
    } else {
      CountNone(jobs, Failure);
      if out.Unresolved? {
        var at := SomeJobIsLeft(wf, executed, g);
        assert jobs[at].state == Pending;
      } else {
        InstancesAreDeclared(wf, jobs);
      }
    }
  }

  lemma InstancesAreDeclared(wf: seq<Job>, jobs: seq<JobInstance>)
    requires SameDefs(jobs, wf)
    ensures forall k :: 0 <= k < |jobs| ==> jobs[k].defId in Needs(ByDef(wf))
  {
    assert forall k :: 0 <= k < |jobs| ==> JobIds(wf)[k] == jobs[k].defId;
  }

  lemma FailureIsAlone(g: Graph, wf: seq<Job>, executed: seq<string>, out: WalkResult, jobs: seq<JobInstance>)
    requires g == Needs(ByDef(wf)) && Distinct(JobIds(wf)) && NeedsFirst(g, executed)
    requires out.JobFailed? && executed != [] && out.id == executed[|executed| - 1]
    requires SameDefs(jobs, wf) && StatesAre(jobs, Elems(executed[..|executed| - 1]), {out.id})
    ensures CountIn(jobs, Failure) == 1
    ensures exists k :: 0 <= k < |jobs| && jobs[k].state == Failure
  {
    FailedJobIsListed(g, wf, executed, out.id);
    var at :| 0 <= at < |wf| && JobIds(wf)[at] == out.id;
    DistinctDefs(jobs, wf);
    CountOne(jobs, Failure, at);
  }

  lemma FailedJobIsListed(g: Graph, wf: seq<Job>, executed: seq<string>, id: string)
    requires g == Needs(ByDef(wf)) && NeedsFirst(g, executed)
    requires executed != [] && id == executed[|executed| - 1]
    ensures id in JobIds(wf) && id !in Elems(executed[..|executed| - 1])
  {
  }

  lemma SomeJobIsLeft(wf: seq<Job>, executed: seq<string>, g: Graph) returns (at: nat)
    requires g == Needs(ByDef(wf)) && Distinct(JobIds(wf)) && |Elems(executed)| < |wf|
    requires NeedsFirst(g, executed)
    ensures at < |wf| && wf[at].id !in Elems(executed)
  {
    DeclaredIds(wf);
    assert Elems(executed) <= g.Keys;
    var id := LeftOver(Elems(executed), g.Keys);
    assert id in JobIds(wf);
    at :| 0 <= at < |wf| && JobIds(wf)[at] == id;
  }

  lemma LeftOver(small: set<string>, large: set<string>) returns (x: string)
    requires small <= large && |small| < |large|
    ensures x in large && x !in small
  {
    assert small != large;
    x :| x in large && x !in small;
  }

  /** A materialized run to completion: the walk, then its verdict on the run. */
  method RunWorkflow(wf: seq<Job>, run: Run, back: Backend) returns (out: WalkResult, ghost executed: seq<string>)
    requires run.Materialized(wf)
    modifies run, back
    ensures run.state == if out.Finished? then Success else Failure
    ensures back.calls == old(back.calls) + executed
    ensures Reported(Needs(ByDef(wf)), wf, back.behave, |old(back.calls)|, executed, out)
    ensures Says(wf, back.behave, |old(back.calls)|, executed, out)
    ensures Distinct(JobIds(wf)) ==>
      && StatesAre(run.jobs, Succeeded(executed, out), Failed(out))
      && CountIn(run.jobs, Running) == 0 && FailureRecorded(run.jobs, out)
      && CountIn(run.jobs, Failure) == (if out.JobFailed? then 1 else 0)
      && (run.state == Success <==> forall k :: 0 <= k < |run.jobs| ==> run.jobs[k].state == Success)
    ensures AllOk(back) ==> (run.state == Success <==> GoodWorkflow(wf))
  {
    run.SetState(Running);
    out, executed := Walk(wf, run, back);
    if !out.Finished? {
      run.SetState(Failure);
    } else {
      run.SetState(Success);
    }
    if Distinct(JobIds(wf)) {
      FinalInstances(Needs(ByDef(wf)), wf, back.behave, |old(back.calls)|, executed, out, run.jobs);
    }
    if AllOk(back) {
      GoodMeansAcyclic(wf);
      FinishesExactlyOnGoodWorkflows(Needs(ByDef(wf)), wf, back.behave, |old(back.calls)|, executed, out);
    }
  }
}
