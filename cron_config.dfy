/** Configuration of the Python cronprint service: the server and printer settings
    and the print jobs described by `CRONPRINT_JOB_<NAME>_*` variables.

    The environment is a map (`os.environ`). The job names are gathered into a set
    and the jobs are built by iterating over that set, whose order Python leaves
    unspecified; the loops below pick an arbitrary remaining element, so what is
    proved holds for every iteration order. */
module CronConfig {
  import opened Outcomes
  import opened Text

  type Env = map<string, string>

  const JOB_PREFIX := "CRONPRINT_JOB_"
  const SCHEDULE_SUFFIX := "_SCHEDULE"

  /** `os.getenv(key)`. */
  function Get(env: Env, key: string): Option<string> {
    if key in env then Some(env[key]) else None
  }

  /** `os.getenv(key, default)`. */
  function GetOr(env: Env, key: string, default: string): string {
    if key in env then env[key] else default
  }

  /** Python truthiness of an optional string: present and non-empty. */
  predicate Truthy(v: Option<string>) {
    v.Some? && v.value != ""
  }

  /** A key that names a job schedule. */
  predicate IsScheduleKey(key: string) {
    StartsWith(key, JOB_PREFIX) && EndsWith(key, SCHEDULE_SUFFIX)
  }

  /** `key[len("CRONPRINT_JOB_"):-len("_SCHEDULE")].lower()`; when prefix and suffix
      overlap the slice is empty. */
  function JobNameOf(key: string): (name: string)
    ensures |key| >= |JOB_PREFIX| + |SCHEDULE_SUFFIX| ==> name == Lower(key[|JOB_PREFIX|..|key| - |SCHEDULE_SUFFIX|])
    ensures |key| < |JOB_PREFIX| + |SCHEDULE_SUFFIX| ==> name == ""
  {
    var stop := |key| - |SCHEDULE_SUFFIX|;
    if stop >= |JOB_PREFIX| then Lower(key[|JOB_PREFIX|..stop]) else ""
  }

  /** The job names the first loop collects. */
  ghost function JobNames(env: Env): set<string> {
    set key | key in env && IsScheduleKey(key) :: JobNameOf(key)
  }

  /** The first loop of `_parse_job_schedules_from_env`: every schedule key adds its
      name to the set. */
  method CollectJobNames(env: Env) returns (names: set<string>)
    ensures names == JobNames(env)
  {
    names := {};
    var remaining := env.Keys;
    while remaining != {}
      invariant remaining <= env.Keys
      invariant names == set key | key in env && key !in remaining && IsScheduleKey(key) :: JobNameOf(key)
      decreases |remaining|
    {
      var key :| key in remaining;
      if StartsWith(key, JOB_PREFIX) && EndsWith(key, SCHEDULE_SUFFIX) {
        names := names + {JobNameOf(key)};
      }
      remaining := remaining - {key};
    }
  }

  datatype Job = Job(name: string, schedule: string, filePath: string, printer: Option<string>, enabled: bool)

  /** The prefix under which a job's variables are looked up. */
  function JobVarPrefix(name: string): string {
    JOB_PREFIX + Upper(name)
  }

  /** The job built for a name, if its schedule and its file are both set and non-empty. */
  function JobFor(env: Env, name: string): (job: Option<Job>)
    ensures job.Some? <==> Truthy(Get(env, JobVarPrefix(name) + "_SCHEDULE")) && Truthy(Get(env, JobVarPrefix(name) + "_FILE"))
    ensures job.Some? ==> job.value.name == name
  {
    var prefix := JobVarPrefix(name);
    var schedule := Get(env, prefix + "_SCHEDULE");
    var filePath := Get(env, prefix + "_FILE");
    if Truthy(schedule) && Truthy(filePath) then
      Some(Job(name, schedule.value, filePath.value, Get(env, prefix + "_PRINTER"),
               Lower(GetOr(env, prefix + "_ENABLED", "true")) == "true"))
    else None
  }

  /** The jobs the function returns, as a set. */
  ghost function EmittedJobs(env: Env): set<Job> {
    set name | name in JobNames(env) && JobFor(env, name).Some? :: JobFor(env, name).value
  }

  /** `_parse_job_schedules_from_env`: collect the names, then append one job per name
      whose schedule and file are set. The result holds each emitted job once. */
  method ParseJobSchedules(env: Env) returns (jobs: seq<Job>)
    ensures forall j | j in jobs :: j in EmittedJobs(env)
    ensures forall j | j in EmittedJobs(env) :: j in jobs
    ensures forall i, k | 0 <= i < k < |jobs| :: jobs[i].name != jobs[k].name
  {
    var names := CollectJobNames(env);
    jobs := [];
    var remaining := names;
    while remaining != {}
      invariant remaining <= names
      invariant forall j | j in jobs :: j.name in names - remaining && JobFor(env, j.name) == Some(j)
      invariant forall n | n in names - remaining && JobFor(env, n).Some? :: JobFor(env, n).value in jobs
      invariant forall i, k | 0 <= i < k < |jobs| :: jobs[i].name != jobs[k].name
      decreases |remaining|
    {
      var name :| name in remaining;
      var job := JobFor(env, name);
      if job.Some? {
        jobs := jobs + [job.value];
      }
      remaining := remaining - {name};
    }
  }

  /** An emitted job has a non-empty schedule and file, taken from its own variables,
      and is enabled unless `_ENABLED` is set to something other than "true" in any
      letter case. */
  lemma EmittedJobFields(env: Env, j: Job)
    requires j in EmittedJobs(env)
    ensures var prefix := JobVarPrefix(j.name);
      && j.schedule != "" && Get(env, prefix + "_SCHEDULE") == Some(j.schedule)
      && j.filePath != "" && Get(env, prefix + "_FILE") == Some(j.filePath)
      && j.printer == Get(env, prefix + "_PRINTER")
      && (j.enabled <==> Lower(GetOr(env, prefix + "_ENABLED", "true")) == "true")
      && (prefix + "_ENABLED" !in env ==> j.enabled)
  {
    var prefix := JobVarPrefix(j.name);
    assert Lower("true") == "true";
  }

  /** Upper-casing undoes lower-casing on a name that has no lower-case letters. */
  lemma UpperLower(m: string)
    requires forall i | 0 <= i < |m| :: !('a' <= m[i] <= 'z')
    ensures Upper(Lower(m)) == m
  {
  }

  /** A schedule key written in capitals, `CRONPRINT_JOB_<M>_SCHEDULE` with a set
      schedule and a set `CRONPRINT_JOB_<M>_FILE`, yields a job named `<M>`
      lower-cased. */
  lemma CapitalKeyEmitted(env: Env, m: string)
    requires forall i | 0 <= i < |m| :: !('a' <= m[i] <= 'z')
    requires JOB_PREFIX + m + SCHEDULE_SUFFIX in env && env[JOB_PREFIX + m + SCHEDULE_SUFFIX] != ""
    requires JOB_PREFIX + m + "_FILE" in env && env[JOB_PREFIX + m + "_FILE"] != ""
    ensures exists j | j in EmittedJobs(env) :: j.name == Lower(m) && j.schedule == env[JOB_PREFIX + m + SCHEDULE_SUFFIX]
  {
    var key := JOB_PREFIX + m + SCHEDULE_SUFFIX;
    assert StartsWith(key, JOB_PREFIX) by { assert key[..|JOB_PREFIX|] == JOB_PREFIX; }
    assert EndsWith(key, SCHEDULE_SUFFIX) by { assert key[|key| - |SCHEDULE_SUFFIX|..] == SCHEDULE_SUFFIX; }
    assert key[|JOB_PREFIX|..|key| - |SCHEDULE_SUFFIX|] == m;
    assert JobNameOf(key) == Lower(m);
    assert Lower(m) in JobNames(env);
    UpperLower(m);
    assert JobVarPrefix(Lower(m)) == JOB_PREFIX + m;
    var j := JobFor(env, Lower(m)).value;
    assert j in EmittedJobs(env);
  }

  /** A schedule key with a lower-case letter in its name is never the key looked up
      for that name (the lookup uses capitals), so it yields a job only through the
      capitalised variables. */
  lemma LowerCaseKeyNotLookedUp(m: string, i: nat)
    requires i < |m| && 'a' <= m[i] <= 'z'
    ensures JobVarPrefix(Lower(m)) + "_SCHEDULE" != JOB_PREFIX + m + SCHEDULE_SUFFIX
  {
    var looked, key := JobVarPrefix(Lower(m)) + "_SCHEDULE", JOB_PREFIX + m + SCHEDULE_SUFFIX;
    assert looked[|JOB_PREFIX| + i] == Upper(Lower(m))[i];
    assert key[|JOB_PREFIX| + i] == m[i];
  }

  // ------------------------------------------------------------ printer

  datatype PrinterConfig = PrinterConfig(name: string, uri: string, driver: Option<string>, description: string, location: string)

  /** `_parse_printer_config_from_env`: a printer to add only when both its name and its
      URI are set and non-empty. */
  function PrinterConfigOf(env: Env): (r: Option<PrinterConfig>)
    ensures r.Some? <==> Truthy(Get(env, "CRONPRINT_PRINTER_NAME")) && Truthy(Get(env, "CRONPRINT_PRINTER_URI"))
    ensures r.Some? ==> r.value.name == env["CRONPRINT_PRINTER_NAME"] && r.value.uri == env["CRONPRINT_PRINTER_URI"]
    ensures r.Some? ==> r.value.driver == Get(env, "CRONPRINT_PRINTER_DRIVER")
    ensures r.Some? ==> r.value.description == GetOr(env, "CRONPRINT_PRINTER_DESCRIPTION", "")
    ensures r.Some? ==> r.value.location == GetOr(env, "CRONPRINT_PRINTER_LOCATION", "")
    ensures r.Some? && "CRONPRINT_PRINTER_DESCRIPTION" !in env ==> r.value.description == ""
    ensures r.Some? && "CRONPRINT_PRINTER_LOCATION" !in env ==> r.value.location == ""
  {
    var name := Get(env, "CRONPRINT_PRINTER_NAME");
    var uri := Get(env, "CRONPRINT_PRINTER_URI");
    if Truthy(name) && Truthy(uri) then
      Some(PrinterConfig(name.value, uri.value, Get(env, "CRONPRINT_PRINTER_DRIVER"),
                         GetOr(env, "CRONPRINT_PRINTER_DESCRIPTION", ""), GetOr(env, "CRONPRINT_PRINTER_LOCATION", "")))
    else None
  }

  // ------------------------------------------------------------ whole configuration

  datatype AppConfig = AppConfig(
    host: string,
    port: int,
    defaultPrinter: Option<string>,
    addPrinter: Option<PrinterConfig>,
    jobs: seq<Job>,
    timezone: string
  )

  datatype ConfigError = InvalidPort(text: string)

  /** `load_config`: `parseInt` stands for Python's `int()`, which raises on text it
      cannot read; the port is read before the printer and the jobs. */
  method LoadConfig(env: Env, parseInt: string -> Option<int>) returns (r: Result<AppConfig, ConfigError>)
    ensures var portText := GetOr(env, "CRONPRINT_PORT", "8080");
      && (r.Err? <==> parseInt(portText).None?)
      && (r.Err? ==> r.error == InvalidPort(portText))
    ensures r.Ok? ==>
      && r.value.host == GetOr(env, "CRONPRINT_HOST", "0.0.0.0")
      && r.value.port == parseInt(GetOr(env, "CRONPRINT_PORT", "8080")).value
      && r.value.defaultPrinter == Get(env, "CRONPRINT_DEFAULT_PRINTER")
      && r.value.addPrinter == PrinterConfigOf(env)
      && (forall j | j in r.value.jobs :: j in EmittedJobs(env))
      && (forall j | j in EmittedJobs(env) :: j in r.value.jobs)
      && r.value.timezone == GetOr(env, "CRONPRINT_TIMEZONE", "UTC")
  {
    var host := GetOr(env, "CRONPRINT_HOST", "0.0.0.0");
    var portText := GetOr(env, "CRONPRINT_PORT", "8080");
    var port := parseInt(portText);
    if port.None? {
      return Err(InvalidPort(portText));
    }
    var jobs := ParseJobSchedules(env);
    r := Ok(AppConfig(host, port.value, Get(env, "CRONPRINT_DEFAULT_PRINTER"), PrinterConfigOf(env), jobs,
                      GetOr(env, "CRONPRINT_TIMEZONE", "UTC")));
  }
}
