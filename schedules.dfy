/** Problem instances (models/job_scheduling_problem.py) and schedules: the
    values both the genetic algorithm and the evaluator work on. */
module Schedules {
  import opened Builtins
  import opened Models

  /** An instance: the jobs and the resources they may be placed on. */
  datatype Problem = Problem(jobs: seq<Job>, resources: seq<Resource>)

  /** One `(job, resource)` pair of a schedule. */
  datatype Assignment = Assignment(job: Job, resource: Resource)

  /** A schedule is walked left to right: its order is the execution order. */
  type Schedule = seq<Assignment>

  function JobsOf(s: Schedule): (js: seq<Job>)
    ensures |js| == |s|
    ensures forall i :: 0 <= i < |s| ==> js[i] == s[i].job
  {
    seq(|s|, i requires 0 <= i < |s| => s[i].job)
  }

  function ResourceIds(rs: seq<Resource>): set<int>
  {
    set r | r in rs :: r.resourceId
  }

  function JobIds(js: seq<Job>): set<int>
  {
    set j | j in js :: j.jobId
  }

  /** Every assignment names a resource id the problem knows (the occupancy
      tables are keyed by the problem's resource ids). */
  predicate UsesProblemResources(p: Problem, s: Schedule)
  {
    forall i :: 0 <= i < |s| ==> s[i].resource.resourceId in ResourceIds(p.resources)
  }

  /** The shape every individual of the genetic algorithm has: the problem's jobs,
      each once and in problem order, each on one of the problem's resources. */
  predicate Conforms(p: Problem, s: Schedule)
  {
    && JobsOf(s) == p.jobs
    && forall i :: 0 <= i < |s| ==> s[i].resource in p.resources
  }

  lemma ConformsUsesProblemResources(p: Problem, s: Schedule)
    requires Conforms(p, s)
    ensures UsesProblemResources(p, s)
  {
    forall i | 0 <= i < |s| ensures s[i].resource.resourceId in ResourceIds(p.resources) {
      assert s[i].resource in p.resources;
    }
  }

  // ---------------------------------------------------------------------------
  // Dependency chains. A dependency is looked up as the first job with that id;
  // following dependencies from there either stops or comes back to a job
  // already visited, in which case the original recursion never ends.

  /** Position of the first job with identifier `id`. */
  function FirstWithId(js: seq<Job>, id: int): (r: Option<nat>)
    ensures r.Some? ==> r.value < |js| && js[r.value].jobId == id
    ensures r.Some? ==> forall k :: 0 <= k < r.value ==> js[k].jobId != id
    ensures r.None? ==> forall k :: 0 <= k < |js| ==> js[k].jobId != id
  {
    if |js| == 0 then None
    else if js[0].jobId == id then Some(0)
    else match FirstWithId(js[1..], id)
      case None => None
      case Some(k) => Some(k + 1)
  }

  /** Following dependencies from job `id` stops within `n` steps. */
  predicate ChainEnds(js: seq<Job>, id: int, n: nat)
    decreases n
  {
    match FirstWithId(js, id)
    case None => true
    case Some(i) =>
      js[i].dependency.None? || (n > 0 && ChainEnds(js, js[i].dependency.value, n - 1))
  }

  /** No dependency chain among `js` runs into a cycle. A chain that does not stop
      within |js| steps has visited some position twice, so this is exactly
      acyclicity of the first-match dependency relation. */
  predicate Acyclic(js: seq<Job>)
  {
    forall i :: 0 <= i < |js| && js[i].dependency.Some? ==> ChainEnds(js, js[i].dependency.value, |js|)
  }

  /** The self-dependent job of the source's tests (`Job(1, 5, 1)`) makes an
      instance cyclic: its end-time recursion never stops. */
  lemma SelfDependencyIsCyclic(js: seq<Job>, i: nat)
    requires i < |js| && js[i].dependency == Some(js[i].jobId)
    requires FirstWithId(js, js[i].jobId) == Some(i)
    ensures !Acyclic(js)
  {
    SelfChainNeverEnds(js, i, |js|);
  }

  lemma {:induction false} SelfChainNeverEnds(js: seq<Job>, i: nat, n: nat)
    requires i < |js| && js[i].dependency == Some(js[i].jobId)
    requires FirstWithId(js, js[i].jobId) == Some(i)
    ensures !ChainEnds(js, js[i].jobId, n)
    decreases n
  {
    if n > 0 {
      SelfChainNeverEnds(js, i, n - 1);
    }
  }
}
