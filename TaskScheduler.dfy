/**
 * A registry of named shell tasks with priorities, frequencies and
 * dependencies, the cycle check used when a dependency is added, the
 * next-run rules, the per-tick dispatch selection and the outcome of
 * executing one task.  The clock is an argument and the subprocess result an
 * input (`Outcome`).
 */
module TaskScheduler {
  import opened Wrappers
  import opened Json
  import opened Seqs

  /** Seconds on the wall clock. */
  type Time = int

  const Minute: int := 60
  const Day: int := 86400

  datatype Priority = Low | Medium | High

  /** The enum value stored in the record (`TaskPriority.LOW.value == 1`, ...). */
  function PriorityValue(p: Priority): int {
    match p
    case Low => 1
    case Medium => 2
    case High => 3
  }

  /** `TaskPriority(v)`, which raises for any other value. */
  function PriorityOf(v: int): (r: Option<Priority>)
    ensures r.Some? ==> PriorityValue(r.value) == v
    ensures (1 <= v <= 3) == r.Some?
  {
    if v == 1 then Some(Low) else if v == 2 then Some(Medium) else if v == 3 then Some(High) else None
  }

  lemma PriorityRoundTrip(p: Priority)
    ensures PriorityOf(PriorityValue(p)) == Some(p)
  {
  }

  datatype Status = Pending | Running | Completed | Failed | Blocked

  function StatusValue(s: Status): string {
    match s
    case Pending => "pending"
    case Running => "running"
    case Completed => "completed"
    case Failed => "failed"
    case Blocked => "blocked"
  }

  function StatusOf(v: string): (r: Option<Status>)
    ensures r.Some? ==> StatusValue(r.value) == v
  {
    if v == "pending" then Some(Pending)
    else if v == "running" then Some(Running)
    else if v == "completed" then Some(Completed)
    else if v == "failed" then Some(Failed)
    else if v == "blocked" then Some(Blocked)
    else None
  }

  datatype Frequency = Once | Daily | Weekly | Monthly | Custom

  /** Every status reads back from its stored value. */
  lemma StatusRoundTrip(s: Status)
    ensures StatusOf(StatusValue(s)) == Some(s)
  {
    match s
    case Pending =>
    case Running => assert "running" != "pending";
    case Completed => assert "completed" != "pending" && "completed" != "running";
    case Failed => assert "failed" != "pending" && "failed" != "running" && "failed" != "completed";
    case Blocked =>
      assert "blocked" != "pending" && "blocked" != "running" && "blocked" != "completed" && "blocked" != "failed";
  }

  function FrequencyValue(f: Frequency): string {
    match f
    case Once => "once"
    case Daily => "daily"
    case Weekly => "weekly"
    case Monthly => "monthly"
    case Custom => "custom"
  }

  function FrequencyOf(v: string): (r: Option<Frequency>)
    ensures r.Some? ==> FrequencyValue(r.value) == v
  {
    if v == "once" then Some(Once)
    else if v == "daily" then Some(Daily)
    else if v == "weekly" then Some(Weekly)
    else if v == "monthly" then Some(Monthly)
    else if v == "custom" then Some(Custom)
    else None
  }
  /** Every frequency reads back from its stored value. */
  lemma FrequencyRoundTrip(f: Frequency)
    ensures FrequencyOf(FrequencyValue(f)) == Some(f)
  {
    match f
    case Once =>
    case Daily => assert "daily" != "once";
    case Weekly => assert "weekly" != "once" && "weekly" != "daily";
    case Monthly => assert "monthly" != "once" && "monthly" != "daily" && "monthly" != "weekly";
    case Custom =>
      assert "custom" != "once" && "custom" != "daily" && "custom" != "weekly" && "custom" != "monthly";
  }


  /** How far ahead `calculate_next_run` schedules a task of frequency `f`. */
  function Interval(f: Frequency): int {
    match f
    case Once => Minute
    case Daily => Day
    case Weekly => 7 * Day
    case Monthly => 30 * Day
    case Custom => 0
  }

  datatype Task = Task(
    name: string,
    command: string,
    priority: Priority,
    status: Status,
    frequency: Frequency,
    customSchedule: string,
    dependencies: set<string>,
    lastRun: Option<Time>,
    nextRun: Option<Time>,
    createdAt: Time,
    errorMessage: string,
    retryCount: int,
    maxRetries: int)

  /** A freshly constructed task. */
  function NewTask(name: string, command: string, priority: Priority, now: Time): (t: Task)
    ensures t.name == name && t.command == command && t.priority == priority
    ensures t.status == Pending && t.frequency == Once && t.customSchedule == ""
    ensures t.dependencies == {} && t.lastRun == None && t.nextRun == None
    ensures t.createdAt == now && t.errorMessage == "" && t.retryCount == 0 && t.maxRetries == 3
  {
    Task(name, command, priority, Pending, Once, "", {}, None, None, now, "", 0, 3)
  }

  // ---------------------------------------------------------------------
  // Next-run rules

  /**
   * `calculate_next_run` with the clock reading `now`.  Only `nextRun`
   * changes; a value is written only when the old one is missing, or (for
   * the periodic frequencies) strictly in the past, and the value written is
   * `now` plus the frequency's interval.  A ONCE task that already has a
   * next run is never re-armed and CUSTOM tasks are left alone.
   */
  function CalculateNextRun(t: Task, now: Time): (r: Task)
    ensures r == t.(nextRun := r.nextRun)
    ensures r.nextRun != t.nextRun ==> r.nextRun == Some(now + Interval(t.frequency))
    ensures r.nextRun != t.nextRun ==>
      t.nextRun.None? || (t.frequency in {Daily, Weekly, Monthly} && t.nextRun.value < now)
    ensures r.nextRun != t.nextRun ==> r.nextRun.value > now
    ensures t.frequency == Custom || (t.frequency == Once && t.nextRun.Some?) ==> r == t
    ensures t.frequency != Custom ==> r.nextRun.Some?
    ensures t.frequency in {Daily, Weekly, Monthly} ==> r.nextRun.value >= now
  {
    match t.frequency
    case Once => if t.nextRun.None? then t.(nextRun := Some(now + Minute)) else t
    case Daily => Rearm(t, now, Day)
    case Weekly => Rearm(t, now, 7 * Day)
    case Monthly => Rearm(t, now, 30 * Day)
    case Custom => t
  }

  function Rearm(t: Task, now: Time, period: int): Task {
    if t.nextRun.None? || t.nextRun.value < now then t.(nextRun := Some(now + period)) else t
  }

  /** Recomputing the next run a second time with the same clock changes nothing. */
  lemma CalculateNextRunIdempotent(t: Task, now: Time)
    ensures CalculateNextRun(CalculateNextRun(t, now), now) == CalculateNextRun(t, now)
  {
  }

  // ---------------------------------------------------------------------
  // Cycle check

  type Registry = map<string, Task>

  /**
   * `has_cycle(current)` of `would_create_cycle(taskName, newDep)`, with the
   * visited set it is called with.  The extra edge taskName -> taskName is
   * only added when `newDep == taskName`; the proposed edge
   * taskName -> newDep itself is never part of the search.
   */
  function HasCycle(tasks: Registry, taskName: string, newDep: string, visited: set<string>, current: string): bool
    decreases tasks.Keys - visited
  {
    if current in visited then true
    else if current !in tasks then false
    else
      var deps := DepsSeen(tasks, taskName, newDep, current);
      exists dep :: dep in deps && HasCycle(tasks, taskName, newDep, visited + {current}, dep)
  }

  function DepsSeen(tasks: Registry, taskName: string, newDep: string, current: string): set<string>
    requires current in tasks
  {
    if newDep == taskName && current == newDep then tasks[current].dependencies + {taskName}
    else tasks[current].dependencies
  }

  function WouldCreateCycle(tasks: Registry, taskName: string, newDep: string): bool {
    HasCycle(tasks, taskName, newDep, {}, taskName)
  }

  /** A registry whose existing dependency edges all go down in some rank has no cycle. */
  ghost predicate Ranked(tasks: Registry, rank: string -> nat) {
    forall n, d :: n in tasks && d in tasks[n].dependencies && d in tasks ==> rank(d) < rank(n)
  }

  lemma {:induction false} RankedHasNoCycle(tasks: Registry, rank: string -> nat, taskName: string,
                                            newDep: string, visited: set<string>, current: string)
    requires Ranked(tasks, rank) && taskName != newDep
    requires forall v :: v in visited ==> v in tasks && (current in tasks ==> rank(current) < rank(v))
    ensures !HasCycle(tasks, taskName, newDep, visited, current)
    decreases tasks.Keys - visited
  {
    if current in tasks {
      forall dep | dep in DepsSeen(tasks, taskName, newDep, current)
        ensures !HasCycle(tasks, taskName, newDep, visited + {current}, dep)
      {
        RankedHasNoCycle(tasks, rank, taskName, newDep, visited + {current}, dep);
      }
    }
  }

  /**
   * On an acyclic registry the check reports no cycle whatever dependency is
   * proposed: it only explores edges that already exist.
   */
  lemma AcyclicRegistryNeverCycles(tasks: Registry, rank: string -> nat, taskName: string, newDep: string)
    requires Ranked(tasks, rank) && taskName != newDep
    ensures !WouldCreateCycle(tasks, taskName, newDep)
  {
    RankedHasNoCycle(tasks, rank, taskName, newDep, {}, taskName);
  }

  /** The registry after `add_dependency(taskName, dep)` succeeded. */
  function WithDependency(tasks: Registry, taskName: string, dep: string): Registry
    requires taskName in tasks
  {
    tasks[taskName := tasks[taskName].(dependencies := tasks[taskName].dependencies + {dep})]
  }

  /**
   * Two tasks without dependencies: adding a -> b passes the check, and then
   * adding b -> a passes it too, leaving a and b depending on each other.
   */
  lemma TwoStepCycleIsAccepted(tasks: Registry, a: string, b: string)
    requires a in tasks && b in tasks && a != b
    requires tasks[a].dependencies == {} && tasks[b].dependencies == {}
    ensures !WouldCreateCycle(tasks, a, b)
    ensures !WouldCreateCycle(WithDependency(tasks, a, b), b, a)
    ensures var after := WithDependency(WithDependency(tasks, a, b), b, a);
            b in after[a].dependencies && a in after[b].dependencies
  {
    assert DepsSeen(tasks, a, b, a) == {};
    var t1 := WithDependency(tasks, a, b);
    assert t1[b] == tasks[b];
    assert DepsSeen(t1, b, a, b) == {};
  }

  // ---------------------------------------------------------------------
  // Dispatch selection of one scheduler tick

  function HasPriority(p: Priority): Task -> bool { (t: Task) => t.priority == p }

  function DueAt(now: Time): Task -> bool { (t: Task) => t.nextRun.Some? && t.nextRun.value <= now }

  predicate UnderRetryLimit(t: Task) { t.retryCount < t.maxRetries }

  /** Python's stable `sorted(..., key=priority value, reverse=True)` on three keys. */
  function ByPriority(ts: seq<Task>): seq<Task> {
    Filter(HasPriority(High), ts) + Filter(HasPriority(Medium), ts) + Filter(HasPriority(Low), ts)
  }

  /** The due tasks under their retry limit, in registry order. */
  function Eligible(ts: seq<Task>, now: Time): seq<Task> {
    Filter(UnderRetryLimit, Filter(DueAt(now), ts))
  }

  /**
   * The tasks one tick of `run_scheduler` starts, in start order: due tasks
   * sorted by priority, skipping those that reached their retry limit.
   */
  function DispatchOrder(ts: seq<Task>, now: Time): seq<Task> {
    Filter(UnderRetryLimit, ByPriority(Filter(DueAt(now), ts)))
  }

  lemma PartitionByPriority(xs: seq<Task>)
    ensures multiset(ByPriority(xs)) == multiset(xs)
  {
    FilterPartition3(HasPriority(High), HasPriority(Medium), HasPriority(Low), xs);
  }


  /** ByPriority lists priorities from high to low. */
  lemma ByPrioritySorted(xs: seq<Task>)
    ensures forall i, j :: 0 <= i < j < |ByPriority(xs)| ==>
      PriorityValue(ByPriority(xs)[i].priority) >= PriorityValue(ByPriority(xs)[j].priority)
  {
    var h, m, l := Filter(HasPriority(High), xs), Filter(HasPriority(Medium), xs), Filter(HasPriority(Low), xs);
    var r := ByPriority(xs);
    FilterKept(HasPriority(High), xs);
    FilterKept(HasPriority(Medium), xs);
    FilterKept(HasPriority(Low), xs);
    forall i, j | 0 <= i < j < |r|
      ensures PriorityValue(r[i].priority) >= PriorityValue(r[j].priority)
    {
      if i < |h| {
        assert r[i] == h[i] && HasPriority(High)(h[i]);
      } else if j < |h| + |m| {
        assert r[i] == m[i - |h|] && HasPriority(Medium)(m[i - |h|]);
        assert r[j] == m[j - |h|] && HasPriority(Medium)(m[j - |h|]);
      } else {
        assert r[j] == l[j - |h| - |m|] && HasPriority(Low)(l[j - |h| - |m|]);
      }
    }
  }

  /** Tasks of one priority keep their relative order through ByPriority. */
  lemma ByPriorityStable(xs: seq<Task>, p: Priority)
    ensures Filter(HasPriority(p), ByPriority(xs)) == Filter(HasPriority(p), xs)
  {
    var h, m, l := Filter(HasPriority(High), xs), Filter(HasPriority(Medium), xs), Filter(HasPriority(Low), xs);
    var f := HasPriority(p);
    FilterKept(HasPriority(High), xs);
    FilterKept(HasPriority(Medium), xs);
    FilterKept(HasPriority(Low), xs);
    FilterConcat(f, h + m, l);
    FilterConcat(f, h, m);
    match p
    case High =>
      FilterAll(f, h); FilterNone(f, m); FilterNone(f, l);
    case Medium =>
      FilterNone(f, h); FilterAll(f, m); FilterNone(f, l);
    case Low =>
      FilterNone(f, h); FilterNone(f, m); FilterAll(f, l);
  }

  lemma DispatchIsSortedEligible(ts: seq<Task>, now: Time)
    ensures DispatchOrder(ts, now) == ByPriority(Eligible(ts, now))
  {
    var d := Filter(DueAt(now), ts);
    var h, m, l := Filter(HasPriority(High), d), Filter(HasPriority(Medium), d), Filter(HasPriority(Low), d);
    FilterConcat(UnderRetryLimit, h + m, l);
    FilterConcat(UnderRetryLimit, h, m);
    FilterCommute(UnderRetryLimit, HasPriority(High), d);
    FilterCommute(UnderRetryLimit, HasPriority(Medium), d);
    FilterCommute(UnderRetryLimit, HasPriority(Low), d);
  }

  /**
   * One tick starts exactly the tasks whose next run is set and not after
   * `now` and whose retry count is below the limit; they start in
   * non-increasing priority, and tasks of equal priority keep registry order.
   */
  lemma EligibleMembers(ts: seq<Task>, now: Time, t: Task)
    ensures t in Eligible(ts, now) <==>
      t in ts && t.nextRun.Some? && t.nextRun.value <= now && t.retryCount < t.maxRetries
  {
    FilterMembers(DueAt(now), ts);
    FilterMembers(UnderRetryLimit, Filter(DueAt(now), ts));
  }

  lemma DispatchSelection(ts: seq<Task>, now: Time)
    ensures forall t :: t in DispatchOrder(ts, now) <==>
      t in ts && t.nextRun.Some? && t.nextRun.value <= now && t.retryCount < t.maxRetries
    ensures forall i, j :: 0 <= i < j < |DispatchOrder(ts, now)| ==>
      PriorityValue(DispatchOrder(ts, now)[i].priority) >= PriorityValue(DispatchOrder(ts, now)[j].priority)
    ensures forall p :: Filter(HasPriority(p), DispatchOrder(ts, now)) == Filter(HasPriority(p), Eligible(ts, now))
    ensures multiset(DispatchOrder(ts, now)) == multiset(Eligible(ts, now))
  {
    var e := Eligible(ts, now);
    DispatchIsSortedEligible(ts, now);
    PartitionByPriority(e);
    ByPrioritySorted(e);
    forall p ensures Filter(HasPriority(p), DispatchOrder(ts, now)) == Filter(HasPriority(p), e) {
      ByPriorityStable(e, p);
    }
    forall t ensures t in DispatchOrder(ts, now) <==>
      t in ts && t.nextRun.Some? && t.nextRun.value <= now && t.retryCount < t.maxRetries
    {
      EligibleMembers(ts, now, t);
      assert t in multiset(DispatchOrder(ts, now)) <==> t in multiset(e);
    }
  }

  /**
   * A ONCE task whose next run has passed is selected by every later tick
   * while it stays under its retry limit.
   */
  lemma OnceTaskStaysDue(ts: seq<Task>, t: Task, now: Time, later: Time)
    requires t in ts && t.frequency == Once && t.nextRun.Some? && t.nextRun.value <= now <= later
    requires t.retryCount < t.maxRetries
    ensures t in DispatchOrder(ts, later)
  {
    DispatchSelection(ts, later);
  }

  // ---------------------------------------------------------------------
  // Executing a task

  /** What `subprocess.run` gave: an exit code with its stderr, or an exception. */
  datatype Outcome = Exited(code: int, stderr: string) | Raised(message: string)

  /** Every dependency that is in the registry has completed; unknown ones are ignored. */
  predicate DependenciesMet(tasks: Registry, t: Task) {
    forall d :: d in t.dependencies && d in tasks ==> tasks[d].status == Completed
  }

  /**
   * The task after it ran: started at `start`, finished at `finish` with
   * `outcome`.  Exit code 0 completes it and resets the retry count; any
   * other exit code or an exception fails it, records the message and counts
   * one more retry.  The next run is recomputed from the finish time.
   */
  function ExecutionOutcome(t: Task, start: Time, finish: Time, outcome: Outcome): (r: Task)
    ensures r == t.(status := r.status, lastRun := r.lastRun, nextRun := r.nextRun,
                    errorMessage := r.errorMessage, retryCount := r.retryCount)
    ensures r.lastRun == Some(start)
    ensures r.status == Completed <==> outcome.Exited? && outcome.code == 0
    ensures r.status == Completed || r.status == Failed
    ensures r.status == Completed ==> r.errorMessage == "" && r.retryCount == 0
    ensures r.status == Failed ==> r.retryCount == t.retryCount + 1
    ensures r.status == Failed ==> r.errorMessage == (if outcome.Exited? then outcome.stderr else outcome.message)
    ensures r.nextRun == CalculateNextRun(t, finish).nextRun
  {
    var ran := t.(status := Running, lastRun := Some(start));
    var done := RecordOutcome(ran, outcome);
    CalculateNextRun(done, finish)
  }

  /** The status, message and retry count a finished run leaves on the running task `ran`. */
  function RecordOutcome(ran: Task, outcome: Outcome): Task {
    match outcome
    case Exited(code, stderr) =>
      if code == 0 then ran.(status := Completed, errorMessage := "", retryCount := 0)
      else ran.(status := Failed, errorMessage := stderr, retryCount := ran.retryCount + 1)
    case Raised(message) =>
      ran.(status := Failed, errorMessage := message, retryCount := ran.retryCount + 1)
  }

  /** Running a ONCE task that already has a next run leaves that next run where it was. */
  lemma OnceIsNeverRearmed(t: Task, start: Time, finish: Time, outcome: Outcome)
    requires t.frequency == Once && t.nextRun.Some?
    ensures ExecutionOutcome(t, start, finish, outcome).nextRun == t.nextRun
    ensures CalculateNextRun(t, finish).nextRun == t.nextRun
  {
  }

  // ---------------------------------------------------------------------
  // The persisted record

  ghost function SetToSeq(s: set<string>): (r: seq<string>)
    ensures (set x | x in r) == s
    decreases |s|
  {
    if s == {} then [] else
      var x :| x in s;
      var rest := SetToSeq(s - {x});
      var r := [x] + rest;
      assert (set y | y in r) == {x} + (set y | y in rest);
      r
  }

  /** `Task.to_dict`; the dependency set becomes a list in some order. */
  ghost function ToDict(t: Task): Json {
    JObj(map[
      "name" := JStr(t.name),
      "command" := JStr(t.command),
      "priority" := JInt(PriorityValue(t.priority)),
      "status" := JStr(StatusValue(t.status)),
      "frequency" := JStr(FrequencyValue(t.frequency)),
      "custom_schedule" := JStr(t.customSchedule),
      "dependencies" := Strs(SetToSeq(t.dependencies)),
      "last_run" := OptInt(t.lastRun),
      "next_run" := OptInt(t.nextRun),
      "created_at" := JInt(t.createdAt),
      "error_message" := JStr(t.errorMessage),
      "retry_count" := JInt(t.retryCount),
      "max_retries" := JInt(t.maxRetries)])
  }

  /** The thirteen keys `from_dict` looks up. */
  predicate HasTaskKeys(m: map<string, Json>) {
    && "name" in m && "command" in m && "priority" in m && "status" in m && "frequency" in m
    && "custom_schedule" in m && "dependencies" in m && "last_run" in m && "next_run" in m
    && "created_at" in m && "error_message" in m && "retry_count" in m && "max_retries" in m
  }

  /**
   * `Task.from_dict`: `None` where Python would raise (a missing key, an
   * enum value out of range) or where a field does not have the type the
   * task's field has; otherwise every field is read from its key.
   */
  function FromDict(j: Json): (r: Option<Task>)
    ensures j.JObj? && !HasTaskKeys(j.fields) ==> r.None?
    ensures r.Some? ==> j.JObj? && HasTaskKeys(j.fields)
    ensures r.Some? ==> var m := j.fields;
      && GetStr(m, "name") == Some(r.value.name) && GetStr(m, "command") == Some(r.value.command)
      && GetInt(m, "priority") == Some(PriorityValue(r.value.priority))
      && GetStr(m, "status") == Some(StatusValue(r.value.status))
      && GetStr(m, "frequency") == Some(FrequencyValue(r.value.frequency))
      && GetStr(m, "custom_schedule") == Some(r.value.customSchedule)
      && AsStrs(m["dependencies"]).Some? && (set x | x in AsStrs(m["dependencies"]).value) == r.value.dependencies
      && AsOptInt(m["last_run"]) == Some(r.value.lastRun) && AsOptInt(m["next_run"]) == Some(r.value.nextRun)
      && GetInt(m, "created_at") == Some(r.value.createdAt)
      && GetStr(m, "error_message") == Some(r.value.errorMessage)
      && GetInt(m, "retry_count") == Some(r.value.retryCount)
      && GetInt(m, "max_retries") == Some(r.value.maxRetries)
  {
    if !j.JObj? then None else
    var m := j.fields;
    var name := GetStr(m, "name");
    var command := GetStr(m, "command");
    var priority := GetInt(m, "priority");
    var status := GetStr(m, "status");
    var frequency := GetStr(m, "frequency");
    var custom := GetStr(m, "custom_schedule");
    var deps := if "dependencies" in m then AsStrs(m["dependencies"]) else None;
    var lastRun := if "last_run" in m then AsOptInt(m["last_run"]) else None;
    var nextRun := if "next_run" in m then AsOptInt(m["next_run"]) else None;
    var created := GetInt(m, "created_at");
    var error := GetStr(m, "error_message");
    var retry := GetInt(m, "retry_count");
    var maxRetries := GetInt(m, "max_retries");
    if name.None? || command.None? || priority.None? || status.None? || frequency.None? || custom.None?
       || deps.None? || lastRun.None? || nextRun.None? || created.None? || error.None? || retry.None?
       || maxRetries.None? then None
    else
    var p := PriorityOf(priority.value);
    var s := StatusOf(status.value);
    var f := FrequencyOf(frequency.value);
    if p.None? || s.None? || f.None? then None
    else Some(Task(name.value, command.value, p.value, s.value, f.value, custom.value,
                   (set x | x in deps.value), lastRun.value, nextRun.value, created.value,
                   error.value, retry.value, maxRetries.value))
  }

  lemma ToDictFields(t: Task)
    ensures var m := ToDict(t).fields;
      GetStr(m, "name") == Some(t.name) && GetStr(m, "command") == Some(t.command)
      && GetInt(m, "priority") == Some(PriorityValue(t.priority))
      && GetStr(m, "status") == Some(StatusValue(t.status))
      && GetStr(m, "frequency") == Some(FrequencyValue(t.frequency))
      && GetStr(m, "custom_schedule") == Some(t.customSchedule)
      && "dependencies" in m && m["dependencies"] == Strs(SetToSeq(t.dependencies))
  {
  }

  lemma ToDictLaterFields(t: Task)
    ensures var m := ToDict(t).fields;
      && "last_run" in m && AsOptInt(m["last_run"]) == Some(t.lastRun)
      && "next_run" in m && AsOptInt(m["next_run"]) == Some(t.nextRun)
      && GetInt(m, "created_at") == Some(t.createdAt)
      && GetStr(m, "error_message") == Some(t.errorMessage)
      && GetInt(m, "retry_count") == Some(t.retryCount)
      && GetInt(m, "max_retries") == Some(t.maxRetries)
  {
  }

  /** Reading back a saved task gives the same task, dependency set included. */
  lemma FromDictToDict(t: Task)
    ensures FromDict(ToDict(t)) == Some(t)
  {
    ToDictFields(t);
    ToDictLaterFields(t);
    AsStrsStrs(SetToSeq(t.dependencies));
    PriorityRoundTrip(t.priority);
    StatusRoundTrip(t.status);
    FrequencyRoundTrip(t.frequency);
  }

  // ---------------------------------------------------------------------
  // The scheduler object

  /** The registry's tasks in insertion order. */
  function ValuesOf(tasks: Registry, order: seq<string>): (r: seq<Task>)
    requires forall i :: 0 <= i < |order| ==> order[i] in tasks
    ensures |r| == |order| && forall i :: 0 <= i < |order| ==> r[i] == tasks[order[i]]
  {
    if order == [] then [] else [tasks[order[0]]] + ValuesOf(tasks, order[1..])
  }

  class Scheduler {
    /** The tasks by name. */
    var tasks: Registry
    /** Insertion order of `tasks`, which Python's dict keeps. */
    var order: seq<string>
    /** Names of the tasks being executed. */
    var running: set<string>

    ghost predicate Valid()
      reads this
    {
      (forall n :: n in tasks ==> tasks[n].name == n)
      && (forall i :: 0 <= i < |order| ==> order[i] in tasks)
      && (forall n :: n in tasks ==> n in order)
      && (forall i, j :: 0 <= i < j < |order| ==> order[i] != order[j])
    }

    constructor()
      ensures Valid() && tasks == map[] && order == [] && running == {}
    {
      tasks, order, running := map[], [], {};
    }

    /** The tasks one tick starts at `now`. */
    function Tick(now: Time): seq<Task>
      reads this
      requires Valid()
    {
      DispatchOrder(ValuesOf(tasks, order), now)
    }

    method AddTask(name: string, command: string, priority: Priority, now: Time) returns (ok: bool)
      requires Valid()
      modifies this
      ensures Valid() && running == old(running)
      ensures ok <==> name !in old(tasks)
      ensures ok ==> tasks == old(tasks)[name := NewTask(name, command, priority, now)] && order == old(order) + [name]
      ensures !ok ==> tasks == old(tasks) && order == old(order)
    {
      if name in tasks {
        return false;
      }
      tasks := tasks[name := NewTask(name, command, priority, now)];
      order := order + [name];
      return true;
    }

    method SetTaskSchedule(name: string, frequency: Frequency, customSchedule: string, now: Time) returns (ok: bool)
      requires Valid()
      modifies this
      ensures Valid() && order == old(order) && running == old(running)
      ensures ok <==> name in old(tasks)
      ensures ok ==> tasks == old(tasks)[name := CalculateNextRun(
        old(tasks)[name].(frequency := frequency, customSchedule := customSchedule), now)]
      ensures !ok ==> tasks == old(tasks)
    {
      if name !in tasks {
        return false;
      }
      var t := tasks[name].(frequency := frequency, customSchedule := customSchedule);
      tasks := tasks[name := CalculateNextRun(t, now)];
      return true;
    }

    /**
     * The depth-first search of `would_create_cycle`: `visited` is the set on
     * entry, and a search that finds nothing hands it back unchanged.
     */
    method HasCycleSearch(taskName: string, newDep: string, visited: set<string>, current: string)
      returns (found: bool, visitedOut: set<string>)
      ensures found == HasCycle(tasks, taskName, newDep, visited, current)
      ensures !found ==> visitedOut == visited
      decreases tasks.Keys - visited
    {
      if current in visited {
        return true, visited;
      }
      if current !in tasks {
        return false, visited;
      }
      var v := visited + {current};
      var deps := tasks[current].dependencies;
      if newDep == taskName && current == newDep {
        deps := deps + {taskName};
      }
      var rest := deps;
      found := false;
      while rest != {} && !found
        invariant rest <= deps
        invariant !found ==> v == visited + {current}
        invariant !found ==> forall d :: d in deps - rest ==> !HasCycle(tasks, taskName, newDep, visited + {current}, d)
        invariant found ==> exists d :: d in deps && HasCycle(tasks, taskName, newDep, visited + {current}, d)
        decreases rest
      {
        var dep :| dep in rest;
        var sub;
        sub, v := HasCycleSearch(taskName, newDep, v, dep);
        found := sub;
        rest := rest - {dep};
      }
      if !found {
        v := v - {current};
        assert v == visited;
      }
      return found, v;
    }

    method AddDependency(taskName: string, dependencyName: string) returns (ok: bool)
      requires Valid()
      modifies this
      ensures Valid() && order == old(order) && running == old(running)
      ensures ok <==> taskName in old(tasks) && dependencyName in old(tasks) && taskName != dependencyName
                      && !WouldCreateCycle(old(tasks), taskName, dependencyName)
      ensures ok ==> tasks == WithDependency(old(tasks), taskName, dependencyName)
      ensures !ok ==> tasks == old(tasks)
    {
      if taskName !in tasks || dependencyName !in tasks {
        return false;
      }
      if taskName == dependencyName {
        return false;
      }
      var cycle, _ := HasCycleSearch(taskName, dependencyName, {}, taskName);
      if cycle {
        return false;
      }
      tasks := WithDependency(tasks, taskName, dependencyName);
      return true;
    }

    /** The dependency loop of `execute_task`: false at the first present dependency not completed. */
    method CheckDependencies(t: Task) returns (met: bool)
      ensures met == DependenciesMet(tasks, t)
    {
      var rest := t.dependencies;
      met := true;
      while rest != {} && met
        invariant rest <= t.dependencies
        invariant met ==> forall d :: d in t.dependencies - rest && d in tasks ==> tasks[d].status == Completed
        invariant !met ==> !DependenciesMet(tasks, t)
        decreases rest
      {
        var dep :| dep in rest;
        if dep in tasks && tasks[dep].status != Completed {
          met := false;
        }
        rest := rest - {dep};
      }
    }

    /**
     * `execute_task` for the task called `name`, started at `start` and
     * finished at `finish` with `outcome`.  A running task is left alone; a
     * task with an unmet dependency is only marked BLOCKED; otherwise the
     * task runs and its state follows `ExecutionOutcome`.
     */
    method ExecuteTask(name: string, start: Time, finish: Time, outcome: Outcome)
      requires Valid() && name in tasks
      modifies this
      ensures Valid() && order == old(order) && running == old(running)
      ensures name in old(running) ==> tasks == old(tasks)
      ensures name !in old(running) && !DependenciesMet(old(tasks), old(tasks)[name]) ==>
        tasks == old(tasks)[name := old(tasks)[name].(status := Blocked)]
      ensures name !in old(running) && DependenciesMet(old(tasks), old(tasks)[name]) ==>
        tasks == old(tasks)[name := ExecutionOutcome(old(tasks)[name], start, finish, outcome)]
    {
      if name in running {
        return;
      }
      var t := tasks[name];
      var met := CheckDependencies(t);
      if !met {
        Store(name, t.(status := Blocked));
        return;
      }
      Run(name, start, finish, outcome);
    }

    /** The part of `execute_task` after the dependency check: run, record the outcome, reschedule. */
    method Run(name: string, start: Time, finish: Time, outcome: Outcome)
      requires Valid() && name in tasks && name !in running
      modifies this
      ensures Valid() && order == old(order) && running == old(running)
      ensures tasks == old(tasks)[name := ExecutionOutcome(old(tasks)[name], start, finish, outcome)]
    {
      ghost var t0, m0 := tasks[name], tasks;
      running := running + {name};
      var t := tasks[name].(status := Running, lastRun := Some(start));
      ghost var ran := t;
      Store(name, t);
      match outcome {
        case Exited(code, stderr) =>
          if code == 0 {
            t := t.(status := Completed, errorMessage := "", retryCount := 0);
          } else {
            t := t.(status := Failed, errorMessage := stderr, retryCount := t.retryCount + 1);
          }
        case Raised(message) =>
          t := t.(status := Failed, errorMessage := message, retryCount := t.retryCount + 1);
      }
      assert t == RecordOutcome(ran, outcome);
      running := running - {name};
      assert running == old(running);
      var final := CalculateNextRun(t, finish);
      assert final == ExecutionOutcome(t0, start, finish, outcome);
      assert tasks[name := final] == m0[name := final];
      Store(name, final);
    }

    /** Writes back the task object registered under `name`. */
    method Store(name: string, t: Task)
      requires Valid() && name in tasks && t.name == name
      modifies this`tasks
      ensures Valid() && tasks == old(tasks)[name := t]
    {
      tasks := tasks[name := t];
    }
  }
}
