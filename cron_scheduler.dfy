/** The Python cronprint scheduler: which configured jobs it schedules, with which
    cron fields and arguments, and its running flag.

    The scheduler library itself is not modelled. A scheduled job is recorded as the
    trigger fields and arguments it would be registered with, and whether the
    library accepts a set of trigger fields is a parameter. */
module CronScheduler {
  import opened Outcomes
  import opened Text
  import CronConfig

  // ------------------------------------------------------------ str.split()

  /** The characters Python's `str.split()` separates on, in the ASCII range. */
  predicate IsSpace(c: char) {
    c == ' ' || 9 <= c as int <= 13 || 28 <= c as int <= 31
  }

  predicate NoSpace(w: string) {
    forall i | 0 <= i < |w| :: !IsSpace(w[i])
  }

  /** `s` without its leading whitespace. */
  function DropSpaces(s: string): (t: string)
    ensures |t| <= |s|
    ensures t != [] ==> !IsSpace(t[0])
  {
    if s != [] && IsSpace(s[0]) then DropSpaces(s[1..]) else s
  }

  /** The longest prefix of `s` without whitespace. */
  function TakeWord(s: string): (w: string)
    ensures |w| <= |s|
    ensures s != [] && !IsSpace(s[0]) ==> w != []
  {
    if s == [] || IsSpace(s[0]) then [] else [s[0]] + TakeWord(s[1..])
  }

  /** `str.split()` with no separator: the maximal runs of non-whitespace, in order. */
  function Words(s: string): (ws: seq<string>)
    decreases |s|
  {
    var t := DropSpaces(s);
    if t == [] then []
    else
      var w := TakeWord(t);
      [w] + Words(t[|w|..])
  }

  /** Words separated by single spaces. */
  function JoinWords(ws: seq<string>): string {
    if ws == [] then "" else if |ws| == 1 then ws[0] else ws[0] + " " + JoinWords(ws[1..])
  }

  /** Splitting words joined by single spaces gives the words back. */
  lemma {:induction false} WordsJoinWords(ws: seq<string>)
    requires forall i | 0 <= i < |ws| :: ws[i] != [] && NoSpace(ws[i])
    ensures Words(JoinWords(ws)) == ws
  {
    if ws == [] {
    } else if |ws| == 1 {
      WordsOfWordThen(ws[0], "");
      assert ws[0] + "" == ws[0];
    } else {
      var rest := ws[1..];
      WordsJoinWords(rest);
      WordsThenSpace(ws[0], JoinWords(rest));
      assert ws == [ws[0]] + rest;
    }
  }

  /** A word, a space and more text: the word, then the words of the rest. */
  lemma WordsThenSpace(w: string, s: string)
    requires w != [] && NoSpace(w)
    ensures Words(w + " " + s) == [w] + Words(s)
  {
    assert w + " " + s == w + (" " + s);
    WordsOfWordThen(w, " " + s);
    WordsAfterSpace(s);
  }

  /** A word followed by nothing or by whitespace is the first word. */
  lemma WordsOfWordThen(w: string, rest: string)
    requires w != [] && NoSpace(w)
    requires rest == [] || IsSpace(rest[0])
    ensures Words(w + rest) == [w] + Words(rest)
  {
    var s := w + rest;
    assert !IsSpace(s[0]);
    assert DropSpaces(s) == s;
    TakeWordOf(w, rest);
    assert s[|w|..] == rest;
  }

  /** Leading whitespace does not change the words. */
  lemma WordsAfterSpace(s: string)
    ensures Words(" " + s) == Words(s)
  {
    assert (" " + s)[1..] == s;
    assert DropSpaces(" " + s) == DropSpaces(s);
  }

  /** A word followed by nothing or by whitespace is taken whole. */
  lemma {:induction false} TakeWordOf(w: string, rest: string)
    requires NoSpace(w)
    requires rest == [] || IsSpace(rest[0])
    ensures TakeWord(w + rest) == w
    decreases |w|
  {
    if w == [] {
      assert w + rest == rest;
    } else {
      assert (w + rest)[1..] == w[1..] + rest;
      TakeWordOf(w[1..], rest);
    }
  }

  // ------------------------------------------------------------ admission

  /** A job as the scheduler reads it from configuration: every entry may be missing. */
  datatype JobSpec = JobSpec(
    name: Option<string>,
    schedule: Option<string>,
    filePath: Option<string>,
    printer: Option<string>,
    enabled: Option<bool>
  )

  /** The five cron fields, in the order of a crontab line. */
  datatype CronFields = CronFields(minute: string, hour: string, day: string, month: string, dayOfWeek: string)

  /** Whether the trigger library accepts fields in a time zone. */
  type TriggerCheck = (CronFields, string) -> bool

  /** What the scheduler is asked to run: the job id, its display name, its trigger
      and the arguments the print call receives. */
  datatype ScheduledJob = ScheduledJob(
    id: string,
    displayName: string,
    trigger: CronFields,
    timezone: string,
    args: (string, string, Option<string>),
    misfireGraceSeconds: nat
  )

  const MISFIRE_GRACE_SECONDS: nat := 300

  predicate Truthy(v: Option<string>) {
    v.Some? && v.value != ""
  }

  /** `_add_print_job` as a decision: the job it schedules, if any. */
  function Admit(spec: JobSpec, timezone: string, accepts: TriggerCheck): (r: Option<ScheduledJob>)
    ensures r.Some? <==>
      && Truthy(spec.schedule) && Truthy(spec.filePath)
      && |Words(spec.schedule.value)| == 5
      && accepts(FieldsOf(Words(spec.schedule.value)), timezone)
    ensures r.Some? ==>
      var name := if spec.name.Some? then spec.name.value else "unnamed_job";
      && r.value.id == name
      && r.value.args == (name, spec.filePath.value, spec.printer)
      && r.value.trigger == FieldsOf(Words(spec.schedule.value))
      && r.value.timezone == timezone
  {
    var name := if spec.name.Some? then spec.name.value else "unnamed_job";
    if !Truthy(spec.schedule) || !Truthy(spec.filePath) then None
    else
      var parts := Words(spec.schedule.value);
      if |parts| != 5 then None
      else
        var fields := FieldsOf(parts);
        if !accepts(fields, timezone) then None
        else Some(ScheduledJob(name, "Print job: " + name, fields, timezone, (name, spec.filePath.value, spec.printer), MISFIRE_GRACE_SECONDS))
  }

  /** The five parts of a schedule, in order. */
  function FieldsOf(parts: seq<string>): CronFields
    requires |parts| == 5
  {
    CronFields(parts[0], parts[1], parts[2], parts[3], parts[4])
  }

  /** The jobs `_setup_jobs` schedules: every job not explicitly disabled, in order, as
      far as it is admitted. */
  function ScheduledFrom(specs: seq<JobSpec>, timezone: string, accepts: TriggerCheck): (jobs: seq<ScheduledJob>)
    ensures |jobs| <= |specs|
  {
    if specs == [] then []
    else
      var spec := specs[|specs| - 1];
      var added := if spec.enabled == Some(false) then None else Admit(spec, timezone, accepts);
      ScheduledFrom(specs[..|specs| - 1], timezone, accepts) + (if added.Some? then [added.value] else [])
  }

  /** The job `_add_print_job` registers for `spec`: the admitted job, or nothing. */
  function Added(spec: JobSpec, timezone: string, accepts: TriggerCheck): seq<ScheduledJob> {
    match Admit(spec, timezone, accepts) case Some(j) => [j] case None => []
  }

  /** One more configured job adds at most that job's admission to the end. */
  lemma ScheduledFromStep(specs: seq<JobSpec>, i: nat, timezone: string, accepts: TriggerCheck)
    requires i < |specs|
    ensures ScheduledFrom(specs[..i + 1], timezone, accepts) ==
      ScheduledFrom(specs[..i], timezone, accepts) +
      (if specs[i].enabled == Some(false) then [] else Added(specs[i], timezone, accepts))
  {
    assert specs[..i + 1][..i] == specs[..i];
  }

  /** Every scheduled job comes from a configured job that is not disabled. */
  lemma {:induction false} ScheduledJobsOrigin(specs: seq<JobSpec>, timezone: string, accepts: TriggerCheck, j: ScheduledJob)
    requires j in ScheduledFrom(specs, timezone, accepts)
    ensures exists k | 0 <= k < |specs| :: specs[k].enabled != Some(false) && Admit(specs[k], timezone, accepts) == Some(j)
  {
    var n := |specs| - 1;
    var init := specs[..n];
    if j in ScheduledFrom(init, timezone, accepts) {
      ScheduledJobsOrigin(init, timezone, accepts, j);
      var k :| 0 <= k < |init| && init[k].enabled != Some(false) && Admit(init[k], timezone, accepts) == Some(j);
      assert specs[k] == init[k];
    } else {
      assert specs[n].enabled != Some(false) && Admit(specs[n], timezone, accepts) == Some(j);
    }
  }

  /** A five-field schedule written with single spaces is split into exactly those
      fields, in the order minute, hour, day, month, day of week. */
  lemma FiveFieldSchedule(fields: seq<string>)
    requires |fields| == 5 && forall i | 0 <= i < 5 :: fields[i] != [] && NoSpace(fields[i])
    ensures |Words(JoinWords(fields))| == 5
    ensures FieldsOf(Words(JoinWords(fields))) == CronFields(fields[0], fields[1], fields[2], fields[3], fields[4])
  {
    WordsJoinWords(fields);
  }

  /** The job a configuration entry becomes. */
  function SpecOf(job: CronConfig.Job): JobSpec {
    JobSpec(Some(job.name), Some(job.schedule), Some(job.filePath), job.printer, Some(job.enabled))
  }

  /** A job produced by the configuration module always has its schedule and file, so
      only a malformed schedule or a refused trigger keeps it out; a disabled one is
      skipped. */
  lemma ConfiguredJobAdmission(job: CronConfig.Job, timezone: string, accepts: TriggerCheck)
    requires job.schedule != "" && job.filePath != ""
    ensures Admit(SpecOf(job), timezone, accepts).Some? <==>
      |Words(job.schedule)| == 5 && accepts(FieldsOf(Words(job.schedule)), timezone)
    ensures ScheduledFrom([SpecOf(job)], timezone, accepts) ==
      if job.enabled then Added(SpecOf(job), timezone, accepts) else []
  {
    assert [SpecOf(job)][..0] == [];
  }

  // ------------------------------------------------------------ the scheduler

  class PrintScheduler {
    const timezone: string
    /** The jobs registered with the scheduler, in the order they were added. */
    var jobs: seq<ScheduledJob>
    var running: bool

    /** `__init__`: a stopped scheduler holding the configured jobs it admits. */
    constructor(specs: seq<JobSpec>, timezone: string, accepts: TriggerCheck)
      ensures this.timezone == timezone
      ensures jobs == ScheduledFrom(specs, timezone, accepts) && !running
    {
      this.timezone := timezone;
      jobs := [];
      running := false;
      new;
      SetupJobs(specs, accepts);
    }

    /** `_setup_jobs`: skips disabled jobs and adds the others one at a time. */
    method SetupJobs(specs: seq<JobSpec>, accepts: TriggerCheck)
      modifies this
      ensures jobs == old(jobs) + ScheduledFrom(specs, timezone, accepts)
      ensures running == old(running)
    {
      for i := 0 to |specs|
        invariant jobs == old(jobs) + ScheduledFrom(specs[..i], timezone, accepts)
        invariant running == old(running)
      {
        ScheduledFromStep(specs, i, timezone, accepts);
        var spec := specs[i];
        if spec.enabled == Some(false) {
          continue;
        }
        AddPrintJob(spec, accepts);
        assert jobs == old(jobs) + (ScheduledFrom(specs[..i], timezone, accepts) + Added(spec, timezone, accepts));
      }
      assert specs[..|specs|] == specs;
    }

    /** `_add_print_job`: registers the job when it is admitted, and otherwise leaves
        the scheduler as it was. */
    method AddPrintJob(spec: JobSpec, accepts: TriggerCheck)
      modifies this
      ensures jobs == old(jobs) + Added(spec, timezone, accepts)
      ensures running == old(running)
    {
      var name := if spec.name.Some? then spec.name.value else "unnamed_job";
      if !Truthy(spec.schedule) || !Truthy(spec.filePath) {
        return;
      }
      var parts := Words(spec.schedule.value);
      if |parts| != 5 {
        return;
      }
      var fields := CronFields(parts[0], parts[1], parts[2], parts[3], parts[4]);
      if !accepts(fields, timezone) {
        return;
      }
      jobs := jobs + [ScheduledJob(name, "Print job: " + name, fields, timezone, (name, spec.filePath.value, spec.printer), MISFIRE_GRACE_SECONDS)];
    }

    /** `start`: starts a stopped scheduler; reports whether it did anything. */
    method Start() returns (started: bool)
      modifies this
      ensures running && jobs == old(jobs)
      ensures started <==> !old(running)
    {
      started := !running;
      if !running {
        running := true;
      }
    }

    /** `shutdown`: stops a running scheduler; reports whether it did anything. */
    method Shutdown() returns (stopped: bool)
      modifies this
      ensures !running && jobs == old(jobs)
      ensures stopped <==> old(running)
    {
      stopped := running;
      if running {
        running := false;
      }
    }

    /** `is_healthy`. */
    predicate IsHealthy()
      reads this
    {
      running
    }
  }

  /** A scheduler's life: unhealthy when created, healthy once started, a second start
      does nothing, and unhealthy again after shutdown, with its jobs kept throughout. */
  method Lifecycle(specs: seq<JobSpec>, timezone: string, accepts: TriggerCheck)
    returns (healthyAtStart: bool, healthyWhenStarted: bool, startedAgain: bool, healthyAfterShutdown: bool, jobs: seq<ScheduledJob>)
    ensures !healthyAtStart && healthyWhenStarted && !startedAgain && !healthyAfterShutdown
    ensures jobs == ScheduledFrom(specs, timezone, accepts)
  {
    var s := new PrintScheduler(specs, timezone, accepts);
    healthyAtStart := s.IsHealthy();
    var first := s.Start();
    healthyWhenStarted := s.IsHealthy();
    startedAgain := s.Start();
    var stopped := s.Shutdown();
    healthyAfterShutdown := s.IsHealthy();
    jobs := s.jobs;
  }

  // ------------------------------------------------------------ running a job

  /** What the print call did. */
  datatype PrintOutcome = Printed | NotPrinted | Raised(message: string)

  datatype Level = Info | Error
  datatype LogLine = LogLine(level: Level, message: string)

  /** `_execute_print_job`: every outcome of the print call, an exception included,
      ends in a log line; nothing is raised to the scheduler. */
  function ExecutePrintJob(jobName: string, outcome: PrintOutcome): (line: LogLine)
    ensures line.level == Info <==> outcome == Printed
    ensures outcome.Raised? ==> line.message == "Error executing print job '" + jobName + "': " + outcome.message
  {
    match outcome
    case Printed => LogLine(Info, "Print job '" + jobName + "' completed successfully")
    case NotPrinted => LogLine(Error, "Print job '" + jobName + "' failed")
    case Raised(message) => LogLine(Error, "Error executing print job '" + jobName + "': " + message)
  }
}
