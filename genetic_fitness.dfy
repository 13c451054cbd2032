/** How the genetic algorithm (algorithms/genetic_algorithm.py) judges one
    schedule: the validity check, the timing simulation that yields the makespan,
    and the fitness built from the two. */
module GeneticFitness {
  import opened Builtins
  import opened Models
  import opened Schedules

  // ---------------------------------------------------------------------------
  // Validity: `is_valid_schedule`

  /** Sum of the processing times placed on resource `rid` by the schedule. */
  function Load(s: Schedule, rid: int): int
  {
    if |s| == 0 then 0
    else
      var last := s[|s| - 1];
      Load(s[..|s| - 1], rid) + (if last.resource.resourceId == rid then last.job.processingTime else 0)
  }

  /** Walking one more assignment adds its processing time to its own resource id only. */
  lemma LoadStep(s: Schedule, i: nat, rid: int)
    requires i < |s|
    ensures Load(s[..i + 1], rid)
      == Load(s[..i], rid) + (if s[i].resource.resourceId == rid then s[i].job.processingTime else 0)
  {
    assert s[..i + 1][..i] == s[..i];
  }

  /** The job at position `i` does not push its resource id's running sum of
      processing times past the capacity of the resource it is assigned to. */
  predicate FitsAt(s: Schedule, i: nat)
    requires i < |s|
  {
    Load(s[..i], s[i].resource.resourceId) + s[i].job.processingTime <= s[i].resource.capacity
  }

  /** The dependency of the job at position `i`, if any, is somewhere in the
      schedule, before or after it. */
  predicate DependencyPresentAt(s: Schedule, i: nat)
    requires i < |s|
  {
    s[i].job.dependency.Some? ==> exists j :: 0 <= j < |s| && s[j].job.jobId == s[i].job.dependency.value
  }

  predicate WithinCapacity(s: Schedule)
  {
    forall i :: 0 <= i < |s| ==> FitsAt(s, i)
  }

  predicate DependenciesPresent(s: Schedule)
  {
    forall i :: 0 <= i < |s| ==> DependencyPresentAt(s, i)
  }

  predicate ValidSchedule(s: Schedule)
  {
    WithinCapacity(s) && DependenciesPresent(s)
  }

  function InitialOccupancy(p: Problem): (occ: map<int, int>)
    ensures occ.Keys == ResourceIds(p.resources)
    ensures forall rid :: rid in occ ==> occ[rid] == 0
  {
    map rid | rid in ResourceIds(p.resources) :: 0
  }

  /** The inner loop of `is_valid_schedule`: is a job with this id anywhere in the schedule? */
  method IsScheduled(s: Schedule, id: int) returns (scheduled: bool)
    ensures scheduled <==> exists k :: 0 <= k < |s| && s[k].job.jobId == id
  {
    scheduled := false;
    var j := 0;
    while j < |s|
      invariant 0 <= j <= |s|
      invariant forall k :: 0 <= k < j ==> s[k].job.jobId != id
    {
      if s[j].job.jobId == id {
        scheduled := true;
        return;
      }
      j := j + 1;
    }
  }

  /** The occupancy table holds, for each of the problem's resource ids, the load
      the first `i` assignments put on it. */
  predicate TracksLoad(p: Problem, s: Schedule, i: nat, occupancy: map<int, int>)
    requires i <= |s|
  {
    occupancy.Keys == ResourceIds(p.resources)
    && forall rid :: rid in occupancy ==> occupancy[rid] == Load(s[..i], rid)
  }

  lemma TracksLoadStep(p: Problem, s: Schedule, i: nat, occupancy: map<int, int>)
    requires i < |s| && TracksLoad(p, s, i, occupancy) && s[i].resource.resourceId in occupancy
    ensures var rid := s[i].resource.resourceId;
      TracksLoad(p, s, i + 1, occupancy[rid := occupancy[rid] + s[i].job.processingTime])
  {
    forall rid | rid in occupancy { LoadStep(s, i, rid); }
  }

  /** The first `i` assignments pass both checks of `is_valid_schedule`. */
  predicate ValidUpTo(s: Schedule, i: nat)
    requires i <= |s|
  {
    forall k :: 0 <= k < i ==> FitsAt(s, k) && DependencyPresentAt(s, k)
  }

  /** `is_valid_schedule`: one walk with a running occupancy per resource id,
      stopping at the first violation. */
  method IsValidSchedule(p: Problem, s: Schedule) returns (ok: bool)
    requires UsesProblemResources(p, s)
    ensures ok == ValidSchedule(s)
  {
    var occupancy := InitialOccupancy(p);
    var i := 0;
    while i < |s|
      invariant 0 <= i <= |s|
      invariant TracksLoad(p, s, i, occupancy)
      invariant ValidUpTo(s, i)
    {
      var job, resource := s[i].job, s[i].resource;
      if occupancy[resource.resourceId] + job.processingTime > resource.capacity {
        assert !FitsAt(s, i);
        return false;
      }
      if job.dependency.Some? {
        var scheduled := IsScheduled(s, job.dependency.value);
        if !scheduled {
          assert !DependencyPresentAt(s, i);
          return false;
        }
      }
      TracksLoadStep(p, s, i, occupancy);
      occupancy := occupancy[resource.resourceId := occupancy[resource.resourceId] + job.processingTime];
      i := i + 1;
    }
    return true;
  }

  // ---------------------------------------------------------------------------
  // Timing: `get_job_end_time` and `calculate_makespan`

  function Lookup(occupancy: map<int, int>, rid: int): int
  {
    if rid in occupancy then occupancy[rid] else 0
  }

  /** Total processing time along the dependency chain starting at job `id`. */
  function ChainWork(js: seq<Job>, id: int, n: nat): int
    requires ChainEnds(js, id, n)
    decreases n
  {
    match FirstWithId(js, id)
    case None => 0
    case Some(i) =>
      js[i].processingTime
        + (if js[i].dependency.None? then 0 else ChainWork(js, js[i].dependency.value, n - 1))
  }

  /** `get_job_end_time(job_id, schedule, resource_occupancy)`: the end of the first
      assignment of job `id`, recomputed from the CURRENT occupancy of its resource,
      so a dependency already walked is counted a second time. `n` bounds the
      recursion; it never runs out on an acyclic chain and does not change the value. */
  function GetJobEndTime(id: int, s: Schedule, occupancy: map<int, int>, n: nat): (end: int)
    requires ChainEnds(JobsOf(s), id, n)
    ensures FirstWithId(JobsOf(s), id).None? ==> end == 0
    ensures FirstWithId(JobsOf(s), id).Some? ==>
      var a := s[FirstWithId(JobsOf(s), id).value];
      end >= Lookup(occupancy, a.resource.resourceId) + a.job.processingTime
    ensures end >= ChainWork(JobsOf(s), id, n)
    decreases n
  {
    match FirstWithId(JobsOf(s), id)
    case None => 0
    case Some(i) =>
      var a := s[i];
      var dependencyEnd :=
        if a.job.dependency.None? then 0 else GetJobEndTime(a.job.dependency.value, s, occupancy, n - 1);
      Max(Lookup(occupancy, a.resource.resourceId), dependencyEnd) + a.job.processingTime
  }

  /** What the simulation needs of a schedule: known resource ids and no cycle. */
  predicate Simulable(p: Problem, s: Schedule)
  {
    UsesProblemResources(p, s) && Acyclic(JobsOf(s))
  }

  /** The end time `calculate_makespan` gives the assignment at position `i`. */
  function StepEnd(s: Schedule, i: nat, occupancy: map<int, int>): int
    requires i < |s| && Acyclic(JobsOf(s)) && s[i].resource.resourceId in occupancy
  {
    var a := s[i];
    var dependencyEnd :=
      if a.job.dependency.None? then 0
      else (assert JobsOf(s)[i] == a.job; GetJobEndTime(a.job.dependency.value, s, occupancy, |s|));
    Max(occupancy[a.resource.resourceId], dependencyEnd) + a.job.processingTime
  }

  /** The occupancy table after the first `k` assignments have been walked. */
  function OccupancyAfter(p: Problem, s: Schedule, k: nat): (occupancy: map<int, int>)
    requires k <= |s| && Simulable(p, s)
    ensures occupancy.Keys == ResourceIds(p.resources)
  {
    if k == 0 then InitialOccupancy(p)
    else
      var before := OccupancyAfter(p, s, k - 1);
      before[s[k - 1].resource.resourceId := StepEnd(s, k - 1, before)]
  }

  /** `max(resource_occupancy.values())`, taken over the problem's resources. */
  function MaxOccupancy(rs: seq<Resource>, occupancy: map<int, int>): int
    requires |rs| > 0 && forall i :: 0 <= i < |rs| ==> rs[i].resourceId in occupancy
  {
    if |rs| == 1 then occupancy[rs[0].resourceId]
    else
      assert forall i :: 0 <= i < |rs| - 1 ==> rs[..|rs| - 1][i] == rs[i];
      Max(MaxOccupancy(rs[..|rs| - 1], occupancy), occupancy[rs[|rs| - 1].resourceId])
  }

  /** The maximum is one of the entries of the listed resources and no entry
      exceeds it. */
  lemma {:induction false} MaxOccupancyIsMax(rs: seq<Resource>, occupancy: map<int, int>)
    requires |rs| > 0 && forall i :: 0 <= i < |rs| ==> rs[i].resourceId in occupancy
    ensures exists i :: 0 <= i < |rs| && MaxOccupancy(rs, occupancy) == occupancy[rs[i].resourceId]
    ensures forall i :: 0 <= i < |rs| ==> occupancy[rs[i].resourceId] <= MaxOccupancy(rs, occupancy)
  {
    if |rs| > 1 {
      var init := rs[..|rs| - 1];
      assert forall i :: 0 <= i < |rs| - 1 ==> init[i] == rs[i];
      MaxOccupancyIsMax(init, occupancy);
      var j :| 0 <= j < |init| && MaxOccupancy(init, occupancy) == occupancy[init[j].resourceId];
      if MaxOccupancy(rs, occupancy) == MaxOccupancy(init, occupancy) {
        assert MaxOccupancy(rs, occupancy) == occupancy[rs[j].resourceId];
      } else {
        assert MaxOccupancy(rs, occupancy) == occupancy[rs[|rs| - 1].resourceId];
      }
    } else {
      assert MaxOccupancy(rs, occupancy) == occupancy[rs[0].resourceId];
    }
  }

  lemma ProblemResourcesInOccupancy(p: Problem, occupancy: map<int, int>)
    requires occupancy.Keys == ResourceIds(p.resources)
    ensures forall i :: 0 <= i < |p.resources| ==> p.resources[i].resourceId in occupancy
  {
    forall i | 0 <= i < |p.resources| ensures p.resources[i].resourceId in occupancy {
      assert p.resources[i] in p.resources;
    }
  }

  /** The makespan as `calculate_makespan` computes it. */
  function Makespan(p: Problem, s: Schedule): int
    requires Simulable(p, s) && |p.resources| > 0
  {
    var occupancy := OccupancyAfter(p, s, |s|);
    ProblemResourcesInOccupancy(p, occupancy);
    MaxOccupancy(p.resources, occupancy)
  }

  /** `calculate_makespan`: one walk updating the occupancy table in place, then
      the largest entry. */
  method CalculateMakespan(p: Problem, s: Schedule) returns (span: int)
    requires Simulable(p, s) && |p.resources| > 0
    ensures span == Makespan(p, s)
  {
    var occupancy := InitialOccupancy(p);
    var i := 0;
    while i < |s|
      invariant 0 <= i <= |s|
      invariant occupancy == OccupancyAfter(p, s, i)
    {
      var job, resource := s[i].job, s[i].resource;
      assert JobsOf(s)[i] == job;
      var dependencyStart := if job.dependency.None? then 0 else GetJobEndTime(job.dependency.value, s, occupancy, |s|);
      var startTime := Max(occupancy[resource.resourceId], dependencyStart);
      assert startTime + job.processingTime == StepEnd(s, i, occupancy);
      occupancy := occupancy[resource.resourceId := startTime + job.processingTime];
      i := i + 1;
    }
    ProblemResourcesInOccupancy(p, occupancy);
    span := MaxOccupancy(p.resources, occupancy);
  }

  // ---------------------------------------------------------------------------
  // What the timing rule guarantees

  predicate NonNegativeTimes(s: Schedule)
  {
    forall i :: 0 <= i < |s| ==> s[i].job.processingTime >= 0
  }

  /** A step raises its resource's occupancy by at least the job's processing time
      and leaves every other resource alone. */
  lemma OccupancyStep(p: Problem, s: Schedule, k: nat)
    requires k < |s| && Simulable(p, s)
    ensures var before, after := OccupancyAfter(p, s, k), OccupancyAfter(p, s, k + 1);
      forall rid :: rid in after ==>
        if rid == s[k].resource.resourceId then after[rid] >= before[rid] + s[k].job.processingTime
        else after[rid] == before[rid]
  {
  }

  /** Occupancy never decreases along the walk when processing times are not negative. */
  lemma {:induction false} OccupancyNeverDecreases(p: Problem, s: Schedule, j: nat, k: nat)
    requires j <= k <= |s| && Simulable(p, s) && NonNegativeTimes(s)
    ensures forall rid :: rid in ResourceIds(p.resources) ==>
      OccupancyAfter(p, s, j)[rid] <= OccupancyAfter(p, s, k)[rid]
    decreases k - j
  {
    if j < k {
      OccupancyNeverDecreases(p, s, j, k - 1);
      OccupancyStep(p, s, k - 1);
      var first, before, after := OccupancyAfter(p, s, j), OccupancyAfter(p, s, k - 1), OccupancyAfter(p, s, k);
      assert s[k - 1].job.processingTime >= 0;
      forall rid | rid in ResourceIds(p.resources) ensures first[rid] <= after[rid] {
        assert rid in after && first[rid] <= before[rid];
      }
    }
  }

  /** Each resource's occupancy is at least the sum of processing times walked onto it. */
  lemma {:induction false} OccupancyCoversLoad(p: Problem, s: Schedule, k: nat)
    requires k <= |s| && Simulable(p, s)
    ensures forall rid :: rid in ResourceIds(p.resources) ==> OccupancyAfter(p, s, k)[rid] >= Load(s[..k], rid)
  {
    if k > 0 {
      OccupancyCoversLoad(p, s, k - 1);
      OccupancyStep(p, s, k - 1);
      assert s[..k][..k - 1] == s[..k - 1];
    }
  }

  /** The makespan is never negative (for non-negative processing times) and is at
      least the total processing time put on any one resource. */
  lemma MakespanBounds(p: Problem, s: Schedule)
    requires Simulable(p, s) && |p.resources| > 0
    ensures forall r :: r in p.resources ==> Makespan(p, s) >= Load(s, r.resourceId)
    ensures NonNegativeTimes(s) ==> Makespan(p, s) >= 0
  {
    var occupancy := OccupancyAfter(p, s, |s|);
    ProblemResourcesInOccupancy(p, occupancy);
    MaxOccupancyIsMax(p.resources, occupancy);
    OccupancyCoversLoad(p, s, |s|);
    assert s[..|s|] == s;
    forall r | r in p.resources ensures Makespan(p, s) >= Load(s, r.resourceId) {
      var i :| 0 <= i < |p.resources| && p.resources[i] == r;
    }
    if NonNegativeTimes(s) {
      OccupancyNeverDecreases(p, s, 0, |s|);
      assert p.resources[0] in p.resources;
    }
  }

  // ---------------------------------------------------------------------------
  // Fitness

  /** A fitness value: a makespan, or `float('inf')` for an invalid schedule. */
  datatype Fitness = Finite(value: int) | Infinite

  /** Python's `<=` between fitness values. */
  predicate FitnessLe(a: Fitness, b: Fitness)
  {
    b.Infinite? || (a.Finite? && a.value <= b.value)
  }

  /** Python's `<` between fitness values (`inf < inf` is false). */
  predicate FitnessLt(a: Fitness, b: Fitness)
  {
    !FitnessLe(b, a)
  }

  /** What `fitness` needs to return at all: every resource id is a key of the
      occupancy table, and the makespan (computed for valid schedules only) needs
      an end to the end-time recursion and a non-empty table to take the maximum of. */
  predicate ScheduleOk(p: Problem, s: Schedule)
  {
    UsesProblemResources(p, s) && (ValidSchedule(s) ==> Acyclic(JobsOf(s)) && |p.resources| > 0)
  }

  /** `fitness`: infinite exactly for invalid schedules, the makespan otherwise. */
  function ScheduleFitness(p: Problem, s: Schedule): (f: Fitness)
    requires ScheduleOk(p, s)
    ensures f.Infinite? <==> !ValidSchedule(s)
    ensures f.Finite? ==> f.value == Makespan(p, s)
  {
    if !ValidSchedule(s) then Infinite else Finite(Makespan(p, s))
  }

  /** Any valid schedule ranks strictly before any invalid one, and a valid
      schedule's fitness is bounded below by every resource's load. */
  lemma FitnessRanksValidFirst(p: Problem, s: Schedule, t: Schedule)
    requires ScheduleOk(p, s) && ScheduleOk(p, t)
    requires ValidSchedule(s)
    ensures !ValidSchedule(t) ==> FitnessLt(ScheduleFitness(p, s), ScheduleFitness(p, t))
    ensures NonNegativeTimes(s) ==> ScheduleFitness(p, s).value >= 0
    ensures forall r :: r in p.resources ==> ScheduleFitness(p, s).value >= Load(s, r.resourceId)
  {
    MakespanBounds(p, s);
  }

  /** `fitness`: the validity walk, then the makespan walk for a valid schedule. */
  method EvaluateFitness(p: Problem, s: Schedule) returns (f: Fitness)
    requires ScheduleOk(p, s)
    ensures f == ScheduleFitness(p, s)
  {
    var valid := IsValidSchedule(p, s);
    if !valid {
      return Infinite;
    }
    var span := CalculateMakespan(p, s);
    return Finite(span);
  }

  lemma FitnessLeIsTotalPreorder(a: Fitness, b: Fitness, c: Fitness)
    ensures FitnessLe(a, a)
    ensures FitnessLe(a, b) || FitnessLe(b, a)
    ensures FitnessLe(a, b) && FitnessLe(b, c) ==> FitnessLe(a, c)
  {
  }

  // ---------------------------------------------------------------------------
  // Examples from the source's tests and instances

  /** J1 (3) on R1, then J2 (1, depends on J1) on R1: J1 ends at 3, but J2's
      dependency end is recomputed from R1's current occupancy as 3 + 3 = 6, so J2
      runs from 6 to 7 and the makespan is 7. */
  lemma MakespanDoubleCounts()
    ensures var r1 := Resource(1, 6);
      var s := [Assignment(Job(1, 3, None), r1), Assignment(Job(2, 1, Some(1)), r1)];
      var p := Problem([Job(1, 3, None), Job(2, 1, Some(1))], [r1]);
      Simulable(p, s) && Makespan(p, s) == 7
  {
    var r1 := Resource(1, 6);
    var j1, j2 := Job(1, 3, None), Job(2, 1, Some(1));
    var s := [Assignment(j1, r1), Assignment(j2, r1)];
    var p := Problem([j1, j2], [r1]);
    assert JobsOf(s) == [j1, j2];
    assert FirstWithId([j1, j2], 1) == Some(0);
    assert ResourceIds(p.resources) == {1} by { assert r1 in p.resources; }
    assert ChainEnds([j1, j2], 1, 2);
    assert Simulable(p, s);
    assert InitialOccupancy(p) == map[1 := 0];
    assert OccupancyAfter(p, s, 0) == map[1 := 0];
    assert StepEnd(s, 0, map[1 := 0]) == 3;
    var o1 := OccupancyAfter(p, s, 1);
    assert o1 == map[1 := 0][1 := 3];
    assert o1 == map[1 := 3];
    assert GetJobEndTime(1, s, o1, 2) == 6;
    assert OccupancyAfter(p, s, 2) == map[1 := 7];
  }

  /** The test's lone dependent job is invalid: its dependency is nowhere in the schedule. */
  lemma LoneDependentJobIsInvalid()
    ensures !ValidSchedule([Assignment(Job(2, 2, Some(1)), Resource(1, 15))])
  {
    var s := [Assignment(Job(2, 2, Some(1)), Resource(1, 15))];
    assert s[0].job.dependency == Some(1);
    assert forall j :: 0 <= j < |s| ==> s[j].job.jobId != 1;
    assert !DependencyPresentAt(s, 0);
  }
}
