/** The two record types of the scheduler: a job (models/job.py) and a resource
    (models/resource.py), with their constructors and printed forms. */
module Models {
  import opened Builtins

  /** A job: an identifier, a processing time and at most one job it depends on. */
  datatype Job = Job(jobId: int, processingTime: int, dependency: Option<int>)

  /** A resource: an identifier and the total processing time it can take. */
  datatype Resource = Resource(resourceId: int, capacity: int)

  const CapacityError: string := "Resource capacity must be positive"

  /** `Job(job_id, processing_time, dependency=None)`: the constructor stores its
      arguments and checks nothing, so zero or negative processing times and a job
      depending on itself are accepted. */
  function NewJob(jobId: int, processingTime: int, dependency: Option<int> := None): (j: Job)
    ensures j.jobId == jobId && j.processingTime == processingTime && j.dependency == dependency
  {
    Job(jobId, processingTime, dependency)
  }

  /** `Resource(resource_id, capacity)`: a non-positive capacity raises ValueError;
      otherwise both arguments are stored, whatever the identifier. */
  function NewResource(resourceId: int, capacity: int): (r: Result<Resource>)
    ensures r.Ok? <==> capacity > 0
    ensures r.Ok? ==> r.value.resourceId == resourceId && r.value.capacity == capacity
    ensures r.Raised? ==> r.message == CapacityError
  {
    if capacity <= 0 then Raised(CapacityError) else Ok(Resource(resourceId, capacity))
  }

  /** Python's `{dependency}` for an optional job id: `None` or the number. */
  function DependencyText(dependency: Option<int>): string
  {
    match dependency
    case None => "None"
    case Some(d) => IntToString(d)
  }

  /** `Job.__str__`. */
  function JobToString(j: Job): (s: string)
    ensures |s| > 4 && s[..4] == "Job " && s[|s| - 1] == ')'
  {
    "Job " + (IntToString(j.jobId) + (" (Processing Time: " + (IntToString(j.processingTime)
      + (", Dependency: " + (DependencyText(j.dependency) + ")")))))
  }

  /** `Resource.__str__`. */
  function ResourceToString(r: Resource): (s: string)
    ensures |s| > 9 && s[..9] == "Resource " && s[|s| - 1] == ')'
  {
    "Resource " + (IntToString(r.resourceId) + (" (Capacity: " + (IntToString(r.capacity) + ")")))
  }

  /** `Resource.__repr__`. */
  function ResourceRepr(r: Resource): (s: string)
    ensures |s| > 21 && s[..21] == "Resource(resource_id=" && s[|s| - 1] == ')'
  {
    "Resource(resource_id=" + (IntToString(r.resourceId) + (", capacity=" + (IntToString(r.capacity) + ")")))
  }

  // ---------------------------------------------------------------------------
  // Reading the printed forms back: each printed form determines its record.

  /** `s` without the closing parenthesis it must end with. */
  function DropClosing(s: string): Option<string>
  {
    if |s| > 0 && s[|s| - 1] == ')' then Some(s[..|s| - 1]) else None
  }

  function ParseDependency(s: string): Option<Option<int>>
  {
    if s == "None" then Some(None)
    else match ParseInt(s)
      case None => None
      case Some(d) => Some(Some(d))
  }

  /** Reads a line printed by `Job.__str__`. */
  function ParseJob(s: string): Option<Job>
  {
    if |s| < 4 || s[..4] != "Job " then None
    else
      var idAndRest := Split(s[4..], " (Processing Time: ");
      if |idAndRest| != 2 then None
      else
        var timeAndRest := Split(idAndRest[1], ", Dependency: ");
        if |timeAndRest| != 2 then None
        else match (ParseInt(idAndRest[0]), ParseInt(timeAndRest[0]), DropClosing(timeAndRest[1]))
          case (Some(id), Some(pt), Some(depText)) =>
            (match ParseDependency(depText)
             case Some(dep) => Some(Job(id, pt, dep))
             case None => None)
          case _ => None
  }

  /** Reads a line printed by `Resource.__str__`. */
  function ParseResource(s: string): Option<Resource>
  {
    if |s| < 9 || s[..9] != "Resource " then None
    else
      var parts := Split(s[9..], " (Capacity: ");
      if |parts| != 2 then None
      else match (ParseInt(parts[0]), DropClosing(parts[1]))
        case (Some(id), Some(capText)) =>
          (match ParseInt(capText) case Some(cap) => Some(Resource(id, cap)) case None => None)
        case _ => None
  }

  /** Reads a line printed by `Resource.__repr__`. */
  function ParseResourceRepr(s: string): Option<Resource>
  {
    if |s| < 21 || s[..21] != "Resource(resource_id=" then None
    else
      var parts := Split(s[21..], ", capacity=");
      if |parts| != 2 then None
      else match (ParseInt(parts[0]), DropClosing(parts[1]))
        case (Some(id), Some(capText)) =>
          (match ParseInt(capText) case Some(cap) => Some(Resource(id, cap)) case None => None)
        case _ => None
  }

  /** The printed dependency holds no character outside `None`, digits and `-`. */
  lemma DependencyTextLacks(dependency: Option<int>, c: char)
    requires !IsDigit(c) && c != '-' && c !in "None"
    ensures c !in DependencyText(dependency)
  {
    if dependency.Some? { IntToStringLacks(dependency.value, c); }
  }

  lemma ParseDependencyText(dependency: Option<int>)
    ensures ParseDependency(DependencyText(dependency)) == Some(dependency)
  {
    if dependency.Some? {
      ParseIntToString(dependency.value);
      IntToStringLacks(dependency.value, 'N');
      assert 'N' in "None";
    }
  }

  /** `a + b` cut back into `a` and `b`. */
  lemma CutConcat(a: string, b: string)
    ensures (a + b)[..|a|] == a && (a + b)[|a|..] == b
  {
  }

  /** The first split `ParseJob` makes separates the id from the rest. */
  lemma JobStringFirstSplit(j: Job)
    ensures var rest := IntToString(j.processingTime) + (", Dependency: " + (DependencyText(j.dependency) + ")"));
      Split(JobToString(j)[4..], " (Processing Time: ") == [IntToString(j.jobId), rest]
  {
    var id, pt, dep := IntToString(j.jobId), IntToString(j.processingTime), DependencyText(j.dependency);
    var rest := pt + (", Dependency: " + (dep + ")"));
    var sep := " (Processing Time: ";
    assert JobToString(j) == "Job " + (id + (sep + rest));
    CutConcat("Job ", id + (sep + rest));
    assert sep[0] == ' ' && sep[1] == '(';
    IntToStringLacks(j.jobId, ' ');
    IntToStringLacks(j.processingTime, '(');
    DependencyTextLacks(j.dependency, '(');
    assert '(' !in ", Dependency: " && '(' !in ")";
    assert '(' !in dep + ")";
    assert '(' !in ", Dependency: " + (dep + ")");
    SplitInTwo(id, sep, rest, 1);
  }

  /** The second split `ParseJob` makes separates the processing time from the dependency. */
  lemma JobStringSecondSplit(j: Job)
    ensures var pt, dep := IntToString(j.processingTime), DependencyText(j.dependency);
      Split(pt + (", Dependency: " + (dep + ")")), ", Dependency: ") == [pt, dep + ")"]
  {
    var pt, dep := IntToString(j.processingTime), DependencyText(j.dependency);
    assert ',' !in pt by { IntToStringLacks(j.processingTime, ','); }
    assert ',' !in dep + ")" by { DependencyTextLacks(j.dependency, ','); }
    SplitInTwo(pt, ", Dependency: ", dep + ")", 0);
  }

  /** `str(job)` loses nothing: the job can be read back from it. */
  lemma JobToStringRoundTrip(j: Job)
    ensures ParseJob(JobToString(j)) == Some(j)
  {
    var id, pt, dep := IntToString(j.jobId), IntToString(j.processingTime), DependencyText(j.dependency);
    CutConcat("Job ", id + (" (Processing Time: " + (pt + (", Dependency: " + (dep + ")")))));
    JobStringFirstSplit(j);
    JobStringSecondSplit(j);
    CutConcat(dep, ")");
    ParseIntToString(j.jobId);
    ParseIntToString(j.processingTime);
    ParseDependencyText(j.dependency);
  }

  /** `str(resource)` loses nothing: the resource can be read back from it. */
  lemma ResourceToStringRoundTrip(r: Resource)
    ensures ParseResource(ResourceToString(r)) == Some(r)
  {
    var id, cap := IntToString(r.resourceId), IntToString(r.capacity);
    var s := ResourceToString(r);
    CutConcat("Resource ", id + (" (Capacity: " + (cap + ")")));
    assert ' ' !in id by { IntToStringLacks(r.resourceId, ' '); }
    assert ' ' !in cap + ")" by { IntToStringLacks(r.capacity, ' '); }
    SplitInTwo(id, " (Capacity: ", cap + ")", 0);
    var parts := Split(s[9..], " (Capacity: ");
    assert parts == [id, cap + ")"];
    CutConcat(cap, ")");
    assert DropClosing(parts[1]) == Some(cap);
    ParseIntToString(r.resourceId);
    ParseIntToString(r.capacity);
  }

  /** `repr(resource)` loses nothing: the resource can be read back from it. */
  lemma ResourceReprRoundTrip(r: Resource)
    ensures ParseResourceRepr(ResourceRepr(r)) == Some(r)
  {
    var id, cap := IntToString(r.resourceId), IntToString(r.capacity);
    var s := ResourceRepr(r);
    CutConcat("Resource(resource_id=", id + (", capacity=" + (cap + ")")));
    assert ',' !in id by { IntToStringLacks(r.resourceId, ','); }
    assert ',' !in cap + ")" by { IntToStringLacks(r.capacity, ','); }
    SplitInTwo(id, ", capacity=", cap + ")", 0);
    var parts := Split(s[21..], ", capacity=");
    assert parts == [id, cap + ")"];
    CutConcat(cap, ")");
    assert DropClosing(parts[1]) == Some(cap);
    ParseIntToString(r.resourceId);
    ParseIntToString(r.capacity);
  }
}
