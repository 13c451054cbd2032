/** The evaluator (utils/scheduler_evaluator.py): the printed timeline
    of a schedule, the total time span read back from that text, and the
    per-run verdicts that compare the two algorithms' schedules. */
module Evaluator {
  import opened Builtins
  import opened Models
  import opened Schedules
  import opened GeneticFitness
  import opened GeneticSearch

  // ---------------------------------------------------------------------------
  // The timeline `get_schedule_representation` walks

  /** One printed line: a job, its resource and its start and end times. */
  datatype Line = Line(jobId: int, resourceId: int, start: int, finish: int)

  /** End of the last line on resource `rid`; 0 before any (the initial occupancy). */
  function LastEnd(lines: seq<Line>, rid: int): int
  {
    if |lines| == 0 then 0
    else
      var last := lines[|lines| - 1];
      if last.resourceId == rid then last.finish else LastEnd(lines[..|lines| - 1], rid)
  }

  /** End of the last line of job `jid`; 0 before any (the initial start-time table). */
  function LastFinish(lines: seq<Line>, jid: int): int
  {
    if |lines| == 0 then 0
    else
      var last := lines[|lines| - 1];
      if last.jobId == jid then last.finish else LastFinish(lines[..|lines| - 1], jid)
  }

  /** The time the assignment's dependency lets it start: 0 without a dependency. */
  function DependencyStart(lines: seq<Line>, a: Assignment): int
  {
    if a.job.dependency.None? then 0 else LastFinish(lines, a.job.dependency.value)
  }

  /** The line an assignment gets after `lines`: it starts as soon as both its
      resource and its dependency allow, and runs for its processing time. */
  function NextLine(lines: seq<Line>, a: Assignment): (l: Line)
    ensures l.jobId == a.job.jobId && l.resourceId == a.resource.resourceId
    ensures l.finish == l.start + a.job.processingTime
    ensures l.start >= LastEnd(lines, a.resource.resourceId) && l.start >= DependencyStart(lines, a)
    ensures l.start == LastEnd(lines, a.resource.resourceId) || l.start == DependencyStart(lines, a)
  {
    var start := Max(LastEnd(lines, a.resource.resourceId), DependencyStart(lines, a));
    Line(a.job.jobId, a.resource.resourceId, start, start + a.job.processingTime)
  }

  /** The lines of the whole schedule, walked in order. */
  function Timeline(s: Schedule): (lines: seq<Line>)
    ensures |lines| == |s|
  {
    if |s| == 0 then []
    else
      var before := Timeline(s[..|s| - 1]);
      before + [NextLine(before, s[|s| - 1])]
  }

  lemma TimelineStep(s: Schedule, i: nat)
    requires i < |s|
    ensures Timeline(s[..i + 1]) == Timeline(s[..i]) + [NextLine(Timeline(s[..i]), s[i])]
  {
    assert s[..i + 1][..i] == s[..i];
  }

  /** The check of `get_schedule_representation` at position `k`: the resource's
      current end time plus the job's processing time stays within capacity. */
  predicate EvaluatorFitsAt(s: Schedule, k: nat)
    requires k < |s|
  {
    LastEnd(Timeline(s[..k]), s[k].resource.resourceId) + s[k].job.processingTime <= s[k].resource.capacity
  }

  predicate CapacityUpTo(s: Schedule, i: nat)
    requires i <= |s|
  {
    forall k :: 0 <= k < i ==> EvaluatorFitsAt(s, k)
  }

  predicate CapacityRespected(s: Schedule)
  {
    CapacityUpTo(s, |s|)
  }

  /** The table lookups at position `k` find their keys: the resource is one of the
      problem's, and a dependency is a job of the problem or one walked before. */
  predicate KeysPresentAt(p: Problem, s: Schedule, k: nat)
    requires k < |s|
  {
    && s[k].resource.resourceId in ResourceIds(p.resources)
    && (s[k].job.dependency.Some? ==>
          s[k].job.dependency.value in JobIds(p.jobs)
          || exists j :: 0 <= j < k && s[j].job.jobId == s[k].job.dependency.value)
  }

  /** No lookup raises KeyError: every position the walk reaches finds its keys. */
  predicate Renderable(p: Problem, s: Schedule)
  {
    forall k :: 0 <= k < |s| && CapacityUpTo(s, k) ==> KeysPresentAt(p, s, k)
  }

  // ---------------------------------------------------------------------------
  // The text

  const NoScheduleText := "No valid schedule found."

  /** A line without its newline, up to the end time's label. */
  function LinePrefix(l: Line): string
  {
    "Job " + (IntToString(l.jobId) + (" scheduled on Resource " + (IntToString(l.resourceId)
      + (" Start Time: " + (IntToString(l.start) + ", ")))))
  }

  /** One line of the representation, without its newline. Its end time reads
      back: splitting at the label leaves the finish time's digits. */
  function LineBody(l: Line): (body: string)
    ensures Split(body, "End Time: ") == [LinePrefix(l), IntToString(l.finish)]
  {
    var prefix, digits := LinePrefix(l), IntToString(l.finish);
    LinePrefixLacks(l, 'E');
    IntToStringLacks(l.finish, 'E');
    SplitInTwo(prefix, "End Time: ", digits, 0);
    prefix + ("End Time: " + digits)
  }

  /** The lines, each followed by a newline: the text is empty exactly when there
      are no lines, and otherwise ends with a newline. */
  function Render(lines: seq<Line>): (text: string)
    ensures |text| == 0 <==> |lines| == 0
    ensures |lines| > 0 ==> text[|text| - 1] == '\n'
  {
    if |lines| == 0 then "" else
      var body, rest := LineBody(lines[0]), Render(lines[1..]);
      assert (body + ("\n" + rest))[|body|] == '\n';
      body + ("\n" + rest)
  }

  lemma ConcatRegroup(body: string, rest: string, tail: string)
    ensures body + ("\n" + (rest + tail)) == (body + ("\n" + rest)) + tail
  {
  }

  /** Appending a line appends its text. */
  lemma {:induction false} RenderSnoc(lines: seq<Line>, l: Line)
    ensures Render(lines + [l]) == Render(lines) + (LineBody(l) + "\n")
  {
    if |lines| == 0 {
      assert Render([l][1..]) == "";
    } else {
      assert (lines + [l])[1..] == lines[1..] + [l];
      RenderSnoc(lines[1..], l);
      ConcatRegroup(LineBody(lines[0]), Render(lines[1..]), LineBody(l) + "\n");
    }
  }

  /** What `get_schedule_representation` returns. */
  function Representation(s: Schedule): (text: string)
    ensures text == NoScheduleText <==> !CapacityRespected(s)
  {
    assert NoScheduleText[|NoScheduleText| - 1] == '.';
    if CapacityRespected(s) then Render(Timeline(s)) else NoScheduleText
  }

  /** The occupancy table holds every problem resource's last end time. */
  predicate OccupancyMatches(p: Problem, occupancy: map<int, int>, lines: seq<Line>)
  {
    occupancy.Keys == ResourceIds(p.resources)
    && forall rid :: rid in occupancy ==> occupancy[rid] == LastEnd(lines, rid)
  }

  /** The start-time table has the problem's jobs and every job walked so far, each
      with its last end time. */
  predicate JobEndsMatch(p: Problem, s: Schedule, i: nat, jobEnds: map<int, int>, lines: seq<Line>)
    requires i <= |s|
  {
    && JobIds(p.jobs) <= jobEnds.Keys
    && (forall j :: 0 <= j < i ==> s[j].job.jobId in jobEnds)
    && forall jid :: jid in jobEnds ==> jobEnds[jid] == LastFinish(lines, jid)
  }

  lemma TablesStep(p: Problem, s: Schedule, i: nat, occupancy: map<int, int>, jobEnds: map<int, int>,
    lines: seq<Line>, l: Line)
    requires i < |s| && OccupancyMatches(p, occupancy, lines) && JobEndsMatch(p, s, i, jobEnds, lines)
    requires l.resourceId == s[i].resource.resourceId && l.jobId == s[i].job.jobId
    requires l.resourceId in occupancy
    ensures OccupancyMatches(p, occupancy[l.resourceId := l.finish], lines + [l])
    ensures JobEndsMatch(p, s, i + 1, jobEnds[l.jobId := l.finish], lines + [l])
  {
    forall rid ensures LastEnd(lines + [l], rid) == if l.resourceId == rid then l.finish else LastEnd(lines, rid) {
      LastEndSnoc(lines, l, rid);
    }
    forall jid ensures LastFinish(lines + [l], jid) == if l.jobId == jid then l.finish else LastFinish(lines, jid) {
      LastFinishSnoc(lines, l, jid);
    }
  }

  /** The state of the walk after `i` assignments have passed the check: the
      timeline so far, the two tables that mirror it, and its text. */
  predicate Walked(p: Problem, s: Schedule, i: nat, occupancy: map<int, int>, jobEnds: map<int, int>,
    lines: seq<Line>, text: string)
    requires i <= |s|
  {
    && lines == Timeline(s[..i])
    && OccupancyMatches(p, occupancy, lines)
    && JobEndsMatch(p, s, i, jobEnds, lines)
    && CapacityUpTo(s, i)
    && text == Render(lines)
  }

  lemma KeysAt(p: Problem, s: Schedule, i: nat)
    requires i < |s| && Renderable(p, s) && CapacityUpTo(s, i)
    ensures KeysPresentAt(p, s, i)
  {
  }

  /** A failed check anywhere means the evaluator rejects the schedule. */
  lemma RejectedAt(s: Schedule, i: nat)
    requires i < |s| && !EvaluatorFitsAt(s, i)
    ensures Representation(s) == NoScheduleText
  {
  }

  lemma CapacityStep(s: Schedule, i: nat)
    requires i < |s| && CapacityUpTo(s, i) && EvaluatorFitsAt(s, i)
    ensures CapacityUpTo(s, i + 1)
  {
  }

  /** The table entry a dependency is looked up in; 0 without a dependency. */
  function DependencyEntry(jobEnds: map<int, int>, a: Assignment): int
    requires a.job.dependency.Some? ==> a.job.dependency.value in jobEnds
  {
    if a.job.dependency.Some? then jobEnds[a.job.dependency.value] else 0
  }

  /** The lookups of step `i` find their keys, and a failed capacity check means
      the evaluator rejects the schedule. */
  lemma Lookups(p: Problem, s: Schedule, i: nat, occupancy: map<int, int>, jobEnds: map<int, int>,
    lines: seq<Line>, text: string)
    requires i < |s| && Renderable(p, s) && Walked(p, s, i, occupancy, jobEnds, lines, text)
    ensures s[i].resource.resourceId in occupancy
    ensures s[i].job.dependency.Some? ==> s[i].job.dependency.value in jobEnds
    ensures occupancy[s[i].resource.resourceId] + s[i].job.processingTime > s[i].resource.capacity ==>
      Representation(s) == NoScheduleText
  {
    KeysAt(p, s, i);
    if !EvaluatorFitsAt(s, i) {
      RejectedAt(s, i);
    }
  }

  /** A step that passes the check extends the timeline by the line read off the
      tables, and the tables and the text with it. */
  lemma Advance(p: Problem, s: Schedule, i: nat, occupancy: map<int, int>, jobEnds: map<int, int>,
    lines: seq<Line>, text: string, line: Line)
    requires i < |s| && Renderable(p, s) && Walked(p, s, i, occupancy, jobEnds, lines, text)
    requires s[i].resource.resourceId in occupancy
    requires s[i].job.dependency.Some? ==> s[i].job.dependency.value in jobEnds
    requires occupancy[s[i].resource.resourceId] + s[i].job.processingTime <= s[i].resource.capacity
    requires line.jobId == s[i].job.jobId && line.resourceId == s[i].resource.resourceId
    requires line.start == Max(occupancy[line.resourceId], DependencyEntry(jobEnds, s[i]))
    requires line.finish == line.start + s[i].job.processingTime
    ensures Walked(p, s, i + 1, occupancy[line.resourceId := line.finish], jobEnds[line.jobId := line.finish],
      lines + [line], text + (LineBody(line) + "\n"))
  {
    KeysAt(p, s, i);
    assert line == NextLine(lines, s[i]);
    CapacityStep(s, i);
    TimelineStep(s, i);
    TablesStep(p, s, i, occupancy, jobEnds, lines, line);
    RenderSnoc(lines, line);
  }

  /** The walk starts with every resource and every job of the problem at time 0. */
  lemma WalkStart(p: Problem, s: Schedule, occupancy: map<int, int>, jobEnds: map<int, int>)
    requires occupancy == map rid | rid in ResourceIds(p.resources) :: 0
    requires jobEnds == map jid | jid in JobIds(p.jobs) :: 0
    ensures Walked(p, s, 0, occupancy, jobEnds, [], "")
  {
    assert s[..0] == [];
  }

  /** A walk that passed every check has rendered the whole timeline. */
  lemma AcceptedAll(p: Problem, s: Schedule, occupancy: map<int, int>, jobEnds: map<int, int>,
    lines: seq<Line>, text: string)
    requires Walked(p, s, |s|, occupancy, jobEnds, lines, text)
    ensures Representation(s) == text
  {
    assert s[..|s|] == s;
  }

  /** `get_schedule_representation`: one walk with an occupancy table per resource
      and an end-time table per job, appending a line per assignment and giving up
      at the first assignment that fails the check. The check's second clause, a
      dependency ending after the job's own start, can never hold: the start is
      taken no earlier than that end. */
  method GetScheduleRepresentation(p: Problem, s: Schedule) returns (text: string)
    requires Renderable(p, s)
    ensures text == Representation(s)
  {
    text := "";
    var occupancy := map rid | rid in ResourceIds(p.resources) :: 0;
    var jobEnds := map jid | jid in JobIds(p.jobs) :: 0;
    var i := 0;
    ghost var lines: seq<Line> := [];
    WalkStart(p, s, occupancy, jobEnds);
    while i < |s|
      invariant 0 <= i <= |s| && Walked(p, s, i, occupancy, jobEnds, lines, text)
    {
      var job, resource := s[i].job, s[i].resource;
      Lookups(p, s, i, occupancy, jobEnds, lines, text);
      var dependencyStart := if job.dependency.Some? then jobEnds[job.dependency.value] else 0;
      var start := Max(occupancy[resource.resourceId], dependencyStart);
      var finish := start + job.processingTime;
      if occupancy[resource.resourceId] + job.processingTime > resource.capacity
        || (job.dependency.Some? && jobEnds[job.dependency.value] > start)
      {
        return NoScheduleText;
      }
      var line := Line(job.jobId, resource.resourceId, start, finish);
      Advance(p, s, i, occupancy, jobEnds, lines, text, line);
      text := text + (LineBody(line) + "\n");
      occupancy := occupancy[line.resourceId := line.finish];
      jobEnds := jobEnds[line.jobId := line.finish];
      lines := lines + [line];
      i := i + 1;
    }
    AcceptedAll(p, s, occupancy, jobEnds, lines, text);
  }

  // ---------------------------------------------------------------------------
  // What the timeline guarantees

  predicate DistinctJobIds(s: Schedule)
  {
    forall j, k :: 0 <= j < k < |s| ==> s[j].job.jobId != s[k].job.jobId
  }

  lemma {:induction false} TimelinePrefix(s: Schedule, k: nat)
    requires k <= |s|
    ensures Timeline(s[..k]) == Timeline(s)[..k]
    decreases |s| - k
  {
    if k < |s| {
      TimelinePrefix(s, k + 1);
      TimelineStep(s, k);
    } else {
      assert s[..k] == s;
    }
  }

  /** The line of position `k` is the one the first `k` lines lead to. */
  lemma TimelineAt(s: Schedule, k: nat)
    requires k < |s|
    ensures Timeline(s)[k] == NextLine(Timeline(s[..k]), s[k])
  {
    TimelinePrefix(s, k + 1);
    TimelineStep(s, k);
    assert Timeline(s)[k] == Timeline(s)[..k + 1][k];
  }

  /** Later positions do not change earlier lines. */
  lemma TimelineEarlier(s: Schedule, j: nat, k: nat)
    requires j < k <= |s|
    ensures Timeline(s)[j] == Timeline(s[..k])[j]
  {
    TimelinePrefix(s, k);
    assert Timeline(s)[j] == Timeline(s)[..k][j];
  }

  lemma LastEndSnoc(lines: seq<Line>, l: Line, rid: int)
    ensures LastEnd(lines + [l], rid) == if l.resourceId == rid then l.finish else LastEnd(lines, rid)
  {
    assert (lines + [l])[..|lines|] == lines;
  }

  lemma LastFinishSnoc(lines: seq<Line>, l: Line, jid: int)
    ensures LastFinish(lines + [l], jid) == if l.jobId == jid then l.finish else LastFinish(lines, jid)
  {
    assert (lines + [l])[..|lines|] == lines;
  }

  /** After `n` steps, resource `rid`'s last end time is no earlier than the end
      of any line on it so far (for non-negative processing times). */
  lemma {:induction false} LastEndIsLatest(s: Schedule, n: nat, rid: int, j: nat)
    requires j < n <= |s| && s[j].resource.resourceId == rid && NonNegativeTimes(s)
    ensures Timeline(s[..n])[j].finish <= LastEnd(Timeline(s[..n]), rid)
  {
    var before := Timeline(s[..n - 1]);
    var l := NextLine(before, s[n - 1]);
    TimelineStep(s, n - 1);
    LastEndSnoc(before, l, rid);
    if j < n - 1 {
      LastEndIsLatest(s, n - 1, rid, j);
      assert (before + [l])[j] == before[j];
    }
  }

  /** Jobs on one resource never overlap: each starts no earlier than every
      earlier job on that resource has ended. */
  lemma NoOverlapOnAResource(s: Schedule, j: nat, k: nat)
    requires j < k < |s| && s[j].resource.resourceId == s[k].resource.resourceId && NonNegativeTimes(s)
    ensures Timeline(s)[j].finish <= Timeline(s)[k].start
  {
    TimelineAt(s, k);
    TimelineEarlier(s, j, k);
    LastEndIsLatest(s, k, s[k].resource.resourceId, j);
  }

  /** With distinct job ids, the last line of a job is its only line. */
  lemma {:induction false} LastFinishIsTheJobsEnd(s: Schedule, n: nat, j: nat)
    requires j < n <= |s| && DistinctJobIds(s)
    ensures LastFinish(Timeline(s[..n]), s[j].job.jobId) == Timeline(s[..n])[j].finish
  {
    var before := Timeline(s[..n - 1]);
    var l := NextLine(before, s[n - 1]);
    TimelineStep(s, n - 1);
    LastFinishSnoc(before, l, s[j].job.jobId);
    if j < n - 1 {
      LastFinishIsTheJobsEnd(s, n - 1, j);
      assert (before + [l])[j] == before[j];
    }
  }

  /** With distinct job ids, a job starts no earlier than its dependency, walked
      before it, has ended. */
  lemma StartsAfterDependency(s: Schedule, j: nat, k: nat)
    requires j < k < |s| && DistinctJobIds(s)
    requires s[k].job.dependency == Some(s[j].job.jobId)
    ensures Timeline(s)[j].finish <= Timeline(s)[k].start
  {
    TimelineAt(s, k);
    TimelineEarlier(s, j, k);
    LastFinishIsTheJobsEnd(s, k, j);
  }

  /** A resource's end time is never below the work put on it so far. */
  lemma {:induction false} LastEndCoversLoad(s: Schedule, n: nat, rid: int)
    requires n <= |s| && NonNegativeTimes(s)
    ensures LastEnd(Timeline(s[..n]), rid) >= Load(s[..n], rid)
  {
    if n > 0 {
      var before := Timeline(s[..n - 1]);
      var l := NextLine(before, s[n - 1]);
      TimelineStep(s, n - 1);
      LastEndSnoc(before, l, rid);
      LoadStep(s, n - 1, rid);
      LastEndCoversLoad(s, n - 1, rid);
    }
  }

  /** The evaluator's capacity check is at least as strict as the genetic
      algorithm's. */
  lemma EvaluatorCheckIsStricter(s: Schedule)
    requires NonNegativeTimes(s) && CapacityRespected(s)
    ensures WithinCapacity(s)
  {
    forall i | 0 <= i < |s| ensures FitsAt(s, i) {
      assert EvaluatorFitsAt(s, i);
      LastEndCoversLoad(s, i, s[i].resource.resourceId);
    }
  }

  /** The converse fails: waiting for a dependency counts against the evaluator's
      capacity but not against the genetic algorithm's. J1 (3) on R1, J2 (1, after
      J1) and J3 (2) on R2 of capacity 5: R2 carries 3 units of work, but J3 would
      end at 6. */
  lemma EvaluatorRejectsWhatFitnessAccepts()
    ensures var r1, r2 := Resource(1, 10), Resource(2, 5);
      var s := [Assignment(Job(1, 3, None), r1), Assignment(Job(2, 1, Some(1)), r2), Assignment(Job(3, 2, None), r2)];
      ValidSchedule(s) && !CapacityRespected(s)
  {
    var r1, r2 := Resource(1, 10), Resource(2, 5);
    var s := [Assignment(Job(1, 3, None), r1), Assignment(Job(2, 1, Some(1)), r2), Assignment(Job(3, 2, None), r2)];
    assert s[..0] == [];
    TimelineStep(s, 0);
    var t1 := [Line(1, 1, 0, 3)];
    assert Timeline(s[..1]) == t1;
    TimelineStep(s, 1);
    assert LastFinish(t1, 1) == 3;
    var t2 := t1 + [Line(2, 2, 3, 4)];
    assert Timeline(s[..2]) == t2;
    LastEndSnoc(t1, Line(2, 2, 3, 4), 2);
    assert !EvaluatorFitsAt(s, 2);
    LoadStep(s, 0, 2);
    LoadStep(s, 1, 2);
    assert FitsAt(s, 0) && FitsAt(s, 1) && FitsAt(s, 2);
    assert DependencyPresentAt(s, 1) by { assert s[0].job.jobId == 1; }
  }

  // ---------------------------------------------------------------------------
  // `extract_total_time_span`

  /** What `extract_total_time_span` returns: the largest end time, or the
      "No valid schedule found." string when the text has no end time in it. */
  datatype TimeSpan = Span(value: int) | NoValidSchedule

  const IndexErrorText := "list index out of range"
  const ValueErrorText := "invalid literal for int() with base 10"

  /** The list comprehension: for every line containing "End Time", the integer
      after "End Time: "; the first line that raises decides the exception. */
  function EndTimes(lines: seq<string>): (r: Result<seq<int>>)
    ensures r.Ok? ==> |r.value| <= |lines|
  {
    if |lines| == 0 then Ok([])
    else if !Contains(lines[0], "End Time") then EndTimes(lines[1..])
    else
      var parts := Split(lines[0], "End Time: ");
      if |parts| < 2 then Raised(IndexErrorText)
      else match ParseInt(parts[1])
        case None => Raised(ValueErrorText)
        case Some(v) =>
          match EndTimes(lines[1..])
          case Raised(m) => Raised(m)
          case Ok(vs) => Ok([v] + vs)
  }

  function ExtractTotalTimeSpan(text: string): (r: Result<TimeSpan>)
    ensures r.Ok? && r.value.Span? ==> exists line :: line in Split(text, "\n") && Contains(line, "End Time")
  {
    var lines := Split(text, "\n");
    match EndTimes(lines)
    case Raised(m) => Raised(m)
    case Ok(times) =>
      if |times| == 0 then Ok(NoValidSchedule)
      else (EndTimesComeFromLines(lines); Ok(Span(MaxOf(times))))
  }

  lemma {:induction false} EndTimesComeFromLines(lines: seq<string>)
    requires EndTimes(lines).Ok? && |EndTimes(lines).value| > 0
    ensures exists line :: line in lines && Contains(line, "End Time")
  {
    if !Contains(lines[0], "End Time") {
      EndTimesComeFromLines(lines[1..]);
      var line :| line in lines[1..] && Contains(line, "End Time");
      assert line in lines;
    } else {
      assert lines[0] in lines;
    }
  }

  function Bodies(lines: seq<Line>): (r: seq<string>)
    ensures |r| == |lines|
  {
    if |lines| == 0 then [] else [LineBody(lines[0])] + Bodies(lines[1..])
  }

  function Finishes(lines: seq<Line>): (r: seq<int>)
    ensures |r| == |lines| && forall i :: 0 <= i < |lines| ==> r[i] == lines[i].finish
  {
    if |lines| == 0 then [] else [lines[0].finish] + Finishes(lines[1..])
  }

  lemma LinePrefixLacks(l: Line, c: char)
    requires c == 'E' || c == '\n'
    ensures c !in LinePrefix(l)
  {
    var id, rid, start := IntToString(l.jobId), IntToString(l.resourceId), IntToString(l.start);
    IntToStringLacks(l.jobId, c);
    IntToStringLacks(l.resourceId, c);
    IntToStringLacks(l.start, c);
    LabelsLack(c);
    NotInConcat(start, ", ", c);
    NotInConcat(" Start Time: ", start + ", ", c);
    NotInConcat(rid, " Start Time: " + (start + ", "), c);
    NotInConcat(" scheduled on Resource ", rid + (" Start Time: " + (start + ", ")), c);
    NotInConcat(id, " scheduled on Resource " + (rid + (" Start Time: " + (start + ", "))), c);
    NotInConcat("Job ", id + (" scheduled on Resource " + (rid + (" Start Time: " + (start + ", ")))), c);
  }

  lemma NotInConcat(a: string, b: string, c: char)
    requires c !in a && c !in b
    ensures c !in a + b
  {
  }

  /** The fixed words of a line hold neither a capital E nor a newline. */
  lemma LabelsLack(c: char)
    requires c == 'E' || c == '\n'
    ensures c !in "Job " && c !in " scheduled on Resource " && c !in " Start Time: " && c !in ", "
  {
  }

  lemma LineBodyMentionsEndTime(l: Line)
    ensures Contains(LineBody(l), "End Time")
  {
    var prefix, digits := LinePrefix(l), IntToString(l.finish);
    LinePrefixLacks(l, 'E');
    assert LineBody(l) == prefix + ("End Time" + (": " + digits));
    IndexOfAfter(prefix, "End Time", ": " + digits);
  }

  lemma LineBodyLacksNewline(l: Line)
    ensures '\n' !in LineBody(l)
  {
    LinePrefixLacks(l, '\n');
    IntToStringLacks(l.finish, '\n');
  }

  /** Splitting rendered text on newlines gives the line bodies and a final
      empty string. */
  lemma {:induction false} SplitRender(lines: seq<Line>)
    ensures Split(Render(lines), "\n") == Bodies(lines) + [""]
  {
    if |lines| == 0 {
      assert Split("", "\n") == [""];
    } else {
      var body, rest := LineBody(lines[0]), Render(lines[1..]);
      assert Render(lines) == body + ("\n" + rest);
      LineBodyLacksNewline(lines[0]);
      SplitAfter(body, "\n", rest);
      SplitRender(lines[1..]);
      assert [body] + (Bodies(lines[1..]) + [""]) == ([body] + Bodies(lines[1..])) + [""];
    }
  }

  /** One line carrying an end time puts that time in front of the rest. */
  lemma EndTimesCons(body: string, rest: seq<string>, pre: string, v: int, vs: seq<int>)
    requires Contains(body, "End Time") && Split(body, "End Time: ") == [pre, IntToString(v)]
    requires EndTimes(rest) == Ok(vs)
    ensures EndTimes([body] + rest) == Ok([v] + vs)
  {
    ParseIntToString(v);
    assert ([body] + rest)[0] == body && ([body] + rest)[1..] == rest;
  }

  lemma {:induction false} EndTimesOfBodies(lines: seq<Line>)
    ensures EndTimes(Bodies(lines) + [""]) == Ok(Finishes(lines))
  {
    if |lines| == 0 {
      assert Bodies(lines) + [""] == [""];
      ExtractWithoutEndTime("");
    } else {
      var rest := Bodies(lines[1..]) + [""];
      assert Bodies(lines) + [""] == [LineBody(lines[0])] + rest;
      EndTimesOfBodies(lines[1..]);
      LineBodyMentionsEndTime(lines[0]);
      EndTimesCons(LineBody(lines[0]), rest, LinePrefix(lines[0]), lines[0].finish, Finishes(lines[1..]));
    }
  }

  /** Reading back a rendered timeline gives its latest end time. */
  lemma ExtractRendered(lines: seq<Line>)
    requires |lines| > 0
    ensures ExtractTotalTimeSpan(Render(lines)) == Ok(Span(MaxOf(Finishes(lines))))
  {
    SplitRender(lines);
    EndTimesOfBodies(lines);
  }

  /** Text with no end time in it, such as an empty timeline or the failure
      message, reads back as no valid schedule. */
  lemma ExtractWithoutEndTime(text: string)
    requires '\n' !in text && 'E' !in text
    ensures ExtractTotalTimeSpan(text) == Ok(NoValidSchedule)
  {
    assert "\n"[0] == '\n' && "End Time"[0] == 'E';
    SplitAbsent(text, "\n", 0);
    IndexOfAbsent(text, "End Time", 0);
    assert !Contains(text, "End Time");
    assert EndTimes([text]) == EndTimes([text][1..]);
    assert [text][1..] == [];
  }

  lemma ExtractWithoutSchedule()
    ensures ExtractTotalTimeSpan("") == Ok(NoValidSchedule)
    ensures ExtractTotalTimeSpan(NoScheduleText) == Ok(NoValidSchedule)
  {
    ExtractWithoutEndTime("");
    ExtractWithoutEndTime(NoScheduleText);
  }

  /** The time span of a schedule's representation: the latest end time of its
      timeline when the evaluator accepts it, no valid schedule otherwise. */
  lemma SpanOfRepresentation(s: Schedule)
    ensures ExtractTotalTimeSpan(Representation(s)) == Ok(SpanOf(s))
  {
    ExtractWithoutSchedule();
    if CapacityRespected(s) && |s| > 0 {
      ExtractRendered(Timeline(s));
    }
  }

  /** The evaluator and the genetic algorithm time the same schedule differently:
      J1 (3) then J2 (1, after J1) on R1 spans 4 here and 7 as a makespan. */
  lemma SpanDisagreesWithMakespan()
    ensures var r1 := Resource(1, 6);
      var s := [Assignment(Job(1, 3, None), r1), Assignment(Job(2, 1, Some(1)), r1)];
      var p := Problem([Job(1, 3, None), Job(2, 1, Some(1))], [r1]);
      && SpanOf(s) == Span(4)
      && Simulable(p, s) && Makespan(p, s) == 7
  {
    var r1 := Resource(1, 6);
    var s := [Assignment(Job(1, 3, None), r1), Assignment(Job(2, 1, Some(1)), r1)];
    assert s[..0] == [];
    TimelineStep(s, 0);
    var t1 := Timeline(s[..1]);
    assert t1 == [Line(1, 1, 0, 3)];
    TimelineStep(s, 1);
    assert s[..2] == s;
    assert Timeline(s) == t1 + [Line(2, 1, 3, 4)];
    assert EvaluatorFitsAt(s, 0) && EvaluatorFitsAt(s, 1);
    assert Finishes(Timeline(s)) == [3, 4];
    assert [3, 4][..1] == [3];
    MakespanDoubleCounts();
  }

  // ---------------------------------------------------------------------------
  // `evaluate_performance`

  /** `x` is the better span: a span where the other has none, or a shorter one. */
  predicate Beats(x: TimeSpan, y: TimeSpan)
  {
    x.Span? && (y.NoValidSchedule? || x.value < y.value)
  }

  /** The verdict for two time spans: 0 when backtracking's is better, 1 when the
      genetic algorithm's is, 2 for a tie (both absent or equal). */
  function CompareSpans(backtracking: TimeSpan, genetic: TimeSpan): (code: int)
    ensures code == 0 <==> Beats(backtracking, genetic)
    ensures code == 1 <==> Beats(genetic, backtracking)
    ensures code == 2 <==> !Beats(backtracking, genetic) && !Beats(genetic, backtracking)
  {
    if backtracking.NoValidSchedule? && genetic.Span? then 1
    else if backtracking.Span? && genetic.NoValidSchedule? then 0
    else if backtracking.Span? && genetic.Span? && backtracking.value < genetic.value then 0
    else if backtracking.Span? && genetic.Span? && backtracking.value > genetic.value then 1
    else 2
  }

  /** Swapping the two algorithms swaps verdicts 0 and 1. */
  lemma CompareSpansIsAntisymmetric(x: TimeSpan, y: TimeSpan)
    ensures CompareSpans(x, y) == 0 <==> CompareSpans(y, x) == 1
    ensures CompareSpans(x, y) == 2 <==> CompareSpans(y, x) == 2
  {
  }

  /** The time span of a schedule: the latest end time of its timeline when the
      evaluator accepts it, no valid schedule otherwise. */
  function SpanOf(s: Schedule): (span: TimeSpan)
  {
    if CapacityRespected(s) && |s| > 0 then Span(MaxOf(Finishes(Timeline(s)))) else NoValidSchedule
  }

  /** The verdict for one run: a missing schedule loses to a present one; two
      missing schedules tie; two present ones are compared by time span. */
  function Classify(backtracking: Option<Schedule>, genetic: Option<Schedule>): (code: int)
    ensures backtracking.None? && genetic.None? ==> code == 2
    ensures backtracking.None? && genetic.Some? ==> code == 1
    ensures backtracking.Some? && genetic.None? ==> code == 0
    ensures backtracking.Some? && genetic.Some? ==> code == CompareSpans(SpanOf(backtracking.value), SpanOf(genetic.value))
  {
    if backtracking.None? && genetic.Some? then 1
    else if backtracking.Some? && genetic.None? then 0
    else if backtracking.None? && genetic.None? then 2
    else CompareSpans(SpanOf(backtracking.value), SpanOf(genetic.value))
  }

  /** Swapping which algorithm produced which schedule swaps verdicts 0 and 1
      and keeps a tie a tie. */
  lemma ClassifyIsAntisymmetric(backtracking: Option<Schedule>, genetic: Option<Schedule>)
    ensures Classify(backtracking, genetic) == 0 <==> Classify(genetic, backtracking) == 1
    ensures Classify(backtracking, genetic) == 2 <==> Classify(genetic, backtracking) == 2
  {
    if backtracking.Some? && genetic.Some? {
      CompareSpansIsAntisymmetric(SpanOf(backtracking.value), SpanOf(genetic.value));
    }
  }

  /** A schedule the evaluator cannot accept never wins a comparison. */
  lemma RejectedScheduleNeverWins(backtracking: Schedule, genetic: Schedule)
    requires !CapacityRespected(genetic)
    ensures Classify(Some(backtracking), Some(genetic)) != 1
  {
  }

  /** Renders a schedule and reads its time span back off the text. */
  method TimeSpanOf(p: Problem, s: Schedule) returns (span: TimeSpan)
    requires Renderable(p, s)
    ensures span == SpanOf(s)
    ensures span.Span? <==> CapacityRespected(s) && |s| > 0
  {
    var text := GetScheduleRepresentation(p, s);
    SpanOfRepresentation(s);
    span := ExtractTotalTimeSpan(text).value;
  }

  /** The verdict for one run, computed as `evaluate_performance` does: by the
      presence of the two schedules, then by the spans read off their texts. */
  method ClassifyRun(p: Problem, backtracking: Option<Schedule>, genetic: Option<Schedule>) returns (code: int)
    requires RenderableRun(p, backtracking, genetic)
    ensures code == Classify(backtracking, genetic)
  {
    if backtracking.None? && genetic.Some? {
      code := 1;
    } else if backtracking.Some? && genetic.None? {
      code := 0;
    } else if backtracking.None? && genetic.None? {
      code := 2;
    } else {
      var backtrackingSpan := TimeSpanOf(p, backtracking.value);
      var geneticSpan := TimeSpanOf(p, genetic.value);
      code := CompareSpans(backtrackingSpan, geneticSpan);
    }
  }

  /** A run whose schedules are rendered: both exist, and then both must render. */
  predicate RenderableRun(p: Problem, backtracking: Option<Schedule>, genetic: Option<Schedule>)
  {
    backtracking.Some? && genetic.Some? ==> Renderable(p, backtracking.value) && Renderable(p, genetic.value)
  }

  class SchedulerEvaluator {
    const problem: Problem
    var backtrackingResults: seq<Option<Schedule>>
    var geneticResults: seq<Option<Schedule>>

    predicate Valid()
      reads this
    {
      |backtrackingResults| == |geneticResults|
    }

    constructor (problem: Problem)
      ensures this.problem == problem && Valid()
      ensures backtrackingResults == [] && geneticResults == []
    {
      this.problem := problem;
      backtrackingResults := [];
      geneticResults := [];
    }

    /** `run_algorithms`: records the backtracking solver's schedule (passed in)
        and the best schedule of a genetic algorithm with the default settings,
        whose population is filled twice (once by the call here, once by `evolve`). */
    method RunAlgorithms(backtracking: Option<Schedule>, choices: seq<seq<nat>>, moreChoices: seq<seq<nat>>,
      draws: seq<seq<PairDraw>>)
      requires Valid() && ProblemOk(problem)
      requires |choices| == 50 && forall k :: 0 <= k < |choices| ==> ChoicesFit(problem, choices[k])
      requires |moreChoices| == 50 && forall k :: 0 <= k < |moreChoices| ==> ChoicesFit(problem, moreChoices[k])
      requires |draws| == 100 && forall g :: 0 <= g < |draws| ==> DrawsFit(problem, 10, 40, draws[g])
      modifies this
      ensures Valid()
      ensures backtrackingResults == old(backtrackingResults) + [backtracking]
      ensures |geneticResults| == |old(geneticResults)| + 1
      ensures geneticResults[..|old(geneticResults)|] == old(geneticResults)
      ensures var best := geneticResults[|old(geneticResults)|]; best.Some? && Conforms(problem, best.value)
    {
      backtrackingResults := backtrackingResults + [backtracking];
      var genetic := new GeneticAlgorithm(problem);
      genetic.InitializePopulation(choices);
      var best, initial, history, bests := genetic.Evolve(moreChoices, draws);
      geneticResults := geneticResults + [genetic.bestSchedule];
    }

    /** The verdict list of `evaluate_performance`, one per recorded run. */
    method EvaluatePerformance() returns (comparisons: seq<int>)
      requires Valid() && |backtrackingResults| > 0
      requires forall i :: 0 <= i < |backtrackingResults| ==>
        RenderableRun(problem, backtrackingResults[i], geneticResults[i])
      ensures |comparisons| == |backtrackingResults|
      ensures forall i :: 0 <= i < |comparisons| ==>
        comparisons[i] == Classify(backtrackingResults[i], geneticResults[i])
    {
      comparisons := [];
      var i := 0;
      while i < |backtrackingResults|
        invariant 0 <= i <= |backtrackingResults| && |comparisons| == i
        invariant forall k :: 0 <= k < i ==> comparisons[k] == Classify(backtrackingResults[k], geneticResults[k])
      {
        var code := ClassifyRun(problem, backtrackingResults[i], geneticResults[i]);
        comparisons := comparisons + [code];
        i := i + 1;
      }
    }
  }
}
