/** Configuration of the Go cronprint service: server defaults and the print jobs
    found in the process environment, one per `CRONPRINT_JOB_<NAME>_SCHEDULE=...`
    entry, in environment order. */
module CronMain {
  import opened Outcomes
  import opened Text

  /** `os.Environ()`: `key=value` entries in the order the process holds them. */
  type Environ = seq<string>

  const JOB_PREFIX := "CRONPRINT_JOB_"
  const SCHEDULE_SUFFIX := "_SCHEDULE"
  const SCHEDULE_MARK := "_SCHEDULE="

  /** Position of the first `c` in `s`, or `|s|` when there is none. */
  function FirstIndex(s: string, c: char): (i: nat)
    ensures i <= |s| && (i < |s| ==> s[i] == c)
    ensures forall j | 0 <= j < i :: s[j] != c
  {
    if s == [] then 0 else if s[0] == c then 0 else 1 + FirstIndex(s[1..], c)
  }

  /** `strings.SplitN(kv, "=", 2)[0]`: the text before the first `=`. */
  function KeyOf(kv: string): (k: string)
    ensures '=' !in k
  {
    kv[..FirstIndex(kv, '=')]
  }

  /** The text after the first `=`, or "" when there is none. */
  function ValueOf(kv: string): (v: string)
    ensures '=' in kv ==> kv == KeyOf(kv) + "=" + v
  {
    var i := FirstIndex(kv, '=');
    if i < |kv| then
      assert kv == kv[..i] + "=" + kv[i + 1..];
      kv[i + 1..]
    else ""
  }

  /** The value of the first entry whose key is `key` (entries without `=` are not
      variables). */
  function Lookup(environ: Environ, key: string): (r: Option<string>)
  {
    if environ == [] then None
    else if '=' in environ[0] && KeyOf(environ[0]) == key then Some(ValueOf(environ[0]))
    else Lookup(environ[1..], key)
  }

  /** The first entry for a key wins; a key with no entry is absent. */
  lemma {:induction false} LookupFirst(environ: Environ, key: string)
    ensures Lookup(environ, key).None? <==> forall i | 0 <= i < |environ| :: !('=' in environ[i] && KeyOf(environ[i]) == key)
    ensures Lookup(environ, key).Some? ==> exists i | 0 <= i < |environ| ::
      && environ[i] == key + "=" + Lookup(environ, key).value
      && forall j | 0 <= j < i :: !('=' in environ[j] && KeyOf(environ[j]) == key)
  {
    if environ != [] {
      LookupFirst(environ[1..], key);
      if '=' in environ[0] && KeyOf(environ[0]) == key {
      } else if Lookup(environ, key).Some? {
        var i :| 0 <= i < |environ[1..]| && environ[1..][i] == key + "=" + Lookup(environ, key).value
          && forall j | 0 <= j < i :: !('=' in environ[1..][j] && KeyOf(environ[1..][j]) == key);
        assert environ[i + 1] == key + "=" + Lookup(environ, key).value;
      } else {
        forall i | 0 <= i < |environ| ensures !('=' in environ[i] && KeyOf(environ[i]) == key) {
          if i > 0 { assert environ[i] == environ[1..][i - 1]; }
        }
      }
    }
  }

  /** `os.Getenv`: the value, or "" when the variable is unset. */
  function Getenv(environ: Environ, key: string): string {
    match Lookup(environ, key)
    case Some(v) => v
    case None => ""
  }

  /** `envOr`: the variable's value unless it is empty or unset. */
  function EnvOr(environ: Environ, key: string, fallback: string): (v: string)
    ensures Getenv(environ, key) != "" ==> v == Getenv(environ, key)
    ensures Getenv(environ, key) == "" ==> v == fallback
  {
    var value := Getenv(environ, key);
    if value != "" then value else fallback
  }

  datatype JobConfig = JobConfig(name: string, schedule: string, filePath: string, testPage: bool)

  datatype Config = Config(host: string, port: string, printerUri: string, timezone: string, jobs: seq<JobConfig>)

  /** The entry test of the job loop: the prefix, and `_SCHEDULE=` anywhere in the entry. */
  predicate IsJobEntry(kv: string) {
    StartsWith(kv, JOB_PREFIX) && Contains(kv, SCHEDULE_MARK)
  }

  /** The job name of an entry: the key without the prefix and the suffix, lower-cased. */
  function JobName(kv: string): string {
    Lower(TrimSuffix(TrimPrefix(KeyOf(kv), JOB_PREFIX), SCHEDULE_SUFFIX))
  }

  /** The prefix under which a job's other variables are looked up. */
  function JobVarPrefix(name: string): string {
    JOB_PREFIX + Upper(name)
  }

  /** The job an entry describes. */
  function JobOf(environ: Environ, kv: string): (job: JobConfig)
    ensures job.name == JobName(kv) && job.schedule == ValueOf(kv)
    ensures job.filePath == Getenv(environ, JobVarPrefix(JobName(kv)) + "_FILE")
    ensures job.testPage <==> Getenv(environ, JobVarPrefix(JobName(kv)) + "_TESTPAGE") == "true"
  {
    var name := JobName(kv);
    var prefix := JobVarPrefix(name);
    JobConfig(name, ValueOf(kv), Getenv(environ, prefix + "_FILE"), Getenv(environ, prefix + "_TESTPAGE") == "true")
  }

  /** The job entries among `entries`, in order. */
  function JobEntries(entries: seq<string>): (selected: seq<string>)
    ensures |selected| <= |entries|
  {
    if entries == [] then []
    else JobEntries(entries[..|entries| - 1]) + (if IsJobEntry(entries[|entries| - 1]) then [entries[|entries| - 1]] else [])
  }

  /** The jobs the loop collects from `entries`. */
  function JobsOf(environ: Environ, entries: seq<string>): seq<JobConfig> {
    if entries == [] then []
    else
      var kv := entries[|entries| - 1];
      JobsOf(environ, entries[..|entries| - 1]) + (if IsJobEntry(kv) then [JobOf(environ, kv)] else [])
  }

  /** An entry is selected exactly when it is one of the entries and passes the test. */
  lemma {:induction false} JobEntriesMembership(entries: seq<string>, kv: string)
    ensures kv in JobEntries(entries) <==> kv in entries && IsJobEntry(kv)
  {
    if entries != [] {
      var init := entries[..|entries| - 1];
      JobEntriesMembership(init, kv);
      assert entries == init + [entries[|entries| - 1]];
    }
  }

  /** Selecting from two runs of entries one after the other selects from each run in
      turn: selection keeps the order of the entries. */
  lemma {:induction false} JobEntriesAppend(a: seq<string>, b: seq<string>)
    ensures JobEntries(a + b) == JobEntries(a) + JobEntries(b)
    decreases |b|
  {
    if b == [] {
      assert a + b == a;
    } else {
      var init := b[..|b| - 1];
      JobEntriesAppend(a, init);
      assert (a + b)[..|a + b| - 1] == a + init;
    }
  }

  /** A single entry is selected, once, exactly when it passes the test. */
  lemma JobEntriesSingle(e: string)
    ensures JobEntries([e]) == if IsJobEntry(e) then [e] else []
  {
    assert [e][..0] == [];
  }

  /** One job per selected entry, in the order of the entries. */
  lemma {:induction false} JobsFollowEntries(environ: Environ, entries: seq<string>)
    ensures |JobsOf(environ, entries)| == |JobEntries(entries)|
    ensures forall i | 0 <= i < |JobEntries(entries)| :: JobsOf(environ, entries)[i] == JobOf(environ, JobEntries(entries)[i])
  {
    if entries != [] {
      JobsFollowEntries(environ, entries[..|entries| - 1]);
    }
  }

  /** `loadConfig`: the server settings with their defaults, then one job per job entry
      of the environment, appended in order. */
  method LoadConfig(environ: Environ) returns (cfg: Config)
    ensures cfg.host == EnvOr(environ, "CRONPRINT_HOST", "0.0.0.0")
    ensures cfg.port == EnvOr(environ, "CRONPRINT_PORT", "8080")
    ensures cfg.printerUri == Getenv(environ, "CRONPRINT_PRINTER_URI")
    ensures cfg.timezone == EnvOr(environ, "CRONPRINT_TIMEZONE", "UTC")
    ensures cfg.jobs == JobsOf(environ, environ)
  {
    cfg := Config(EnvOr(environ, "CRONPRINT_HOST", "0.0.0.0"), EnvOr(environ, "CRONPRINT_PORT", "8080"),
                  Getenv(environ, "CRONPRINT_PRINTER_URI"), EnvOr(environ, "CRONPRINT_TIMEZONE", "UTC"), []);
    for i := 0 to |environ|
      invariant cfg.host == EnvOr(environ, "CRONPRINT_HOST", "0.0.0.0")
      invariant cfg.port == EnvOr(environ, "CRONPRINT_PORT", "8080")
      invariant cfg.printerUri == Getenv(environ, "CRONPRINT_PRINTER_URI")
      invariant cfg.timezone == EnvOr(environ, "CRONPRINT_TIMEZONE", "UTC")
      invariant cfg.jobs == JobsOf(environ, environ[..i])
    {
      var kv := environ[i];
      assert environ[..i + 1][..i] == environ[..i];
      if !StartsWith(kv, JOB_PREFIX) || !Contains(kv, SCHEDULE_MARK) {
        continue;
      }
      var job := JobOf(environ, kv);
      cfg := cfg.(jobs := cfg.jobs + [job]);
    }
    assert environ[..|environ|] == environ;
  }

  /** A job entry always has a value: its schedule is everything after the first `=`. */
  lemma JobEntrySchedule(environ: Environ, kv: string)
    requires IsJobEntry(kv)
    ensures '=' in kv && kv == KeyOf(kv) + "=" + JobOf(environ, kv).schedule
  {
    ContainsWitness(kv, SCHEDULE_MARK);
    var i: nat :| OccursAt(kv, SCHEDULE_MARK, i);
    assert kv[i..i + |SCHEDULE_MARK|][9] == '=';
    assert kv[i + 9] == '=';
  }

  /** When the key has the form `CRONPRINT_JOB_<m>_SCHEDULE`, the job name is `m`
      lower-cased. */
  lemma JobNameOfKey(kv: string, m: string)
    requires KeyOf(kv) == JOB_PREFIX + m + SCHEDULE_SUFFIX
    ensures JobName(kv) == Lower(m)
  {
    var key := KeyOf(kv);
    assert key == JOB_PREFIX + (m + SCHEDULE_SUFFIX);
    assert StartsWith(key, JOB_PREFIX) by { assert key[..|JOB_PREFIX|] == JOB_PREFIX; }
    var rest := TrimPrefix(key, JOB_PREFIX);
    assert rest == m + SCHEDULE_SUFFIX;
    assert EndsWith(rest, SCHEDULE_SUFFIX) by { assert rest[|rest| - |SCHEDULE_SUFFIX|..] == SCHEDULE_SUFFIX; }
    assert TrimSuffix(rest, SCHEDULE_SUFFIX) == m;
  }

  predicate OccursAt(s: string, sub: string, i: nat) {
    i + |sub| <= |s| && s[i..i + |sub|] == sub
  }

  /** A substring that is contained occurs at some position. */
  lemma {:induction false} ContainsWitness(s: string, sub: string)
    requires Contains(s, sub)
    ensures exists i: nat :: OccursAt(s, sub, i)
    decreases |s|
  {
    if StartsWith(s, sub) {
      assert OccursAt(s, sub, 0);
    } else {
      ContainsWitness(s[1..], sub);
      var i: nat :| OccursAt(s[1..], sub, i);
      assert s[i + 1..i + 1 + |sub|] == s[1..][i..i + |sub|];
      assert OccursAt(s, sub, i + 1);
    }
  }

  /** Splitting at a known first `=`. */
  lemma SplitAt(kv: string, i: nat)
    requires i < |kv| && kv[i] == '=' && forall j | 0 <= j < i :: kv[j] != '='
    ensures KeyOf(kv) == kv[..i] && ValueOf(kv) == kv[i + 1..]
  {
    FirstIndexAt(kv, '=', i);
  }

  /** The entry test looks at the whole entry, so a variable whose value contains
      `_SCHEDULE=` also becomes a job: `CRONPRINT_JOB_A_FILE=/x_SCHEDULE=1` yields a
      job named `a_file` with schedule `/x_SCHEDULE=1`. */
  lemma ValueCanSelectEntry()
    ensures var kv := "CRONPRINT_JOB_A_FILE" + "=" + "/x_SCHEDULE=1";
      IsJobEntry(kv) && JobName(kv) == "a_file" && ValueOf(kv) == "/x_SCHEDULE=1"
  {
    ExampleKey();
    ExampleValue();
    MarkInValue("CRONPRINT_JOB_A_FILE", "/x_SCHEDULE=1", 2);
  }

  lemma ExampleKey()
    ensures '=' !in "CRONPRINT_JOB_A_FILE" && StartsWith("CRONPRINT_JOB_A_FILE", JOB_PREFIX)
    ensures Lower(TrimSuffix(TrimPrefix("CRONPRINT_JOB_A_FILE", JOB_PREFIX), SCHEDULE_SUFFIX)) == "a_file"
  {
    assert "CRONPRINT_JOB_A_FILE"[..14] == JOB_PREFIX;
    assert TrimPrefix("CRONPRINT_JOB_A_FILE", JOB_PREFIX) == "A_FILE";
    assert Lower("A_FILE") == "a_file";
  }

  lemma ExampleValue()
    ensures 12 <= |"/x_SCHEDULE=1"| && "/x_SCHEDULE=1"[2..12] == SCHEDULE_MARK
  {
  }

  /** A prefixed key whose value holds the schedule mark makes a job entry, named
      after the key. */
  lemma MarkInValue(key: string, value: string, at: nat)
    requires '=' !in key && StartsWith(key, JOB_PREFIX)
    requires at + |SCHEDULE_MARK| <= |value| && value[at..at + |SCHEDULE_MARK|] == SCHEDULE_MARK
    ensures IsJobEntry(key + "=" + value) && ValueOf(key + "=" + value) == value
    ensures JobName(key + "=" + value) == Lower(TrimSuffix(TrimPrefix(key, JOB_PREFIX), SCHEDULE_SUFFIX))
  {
    var kv := key + "=" + value;
    SplitRoundTrip(key, value);
    PrefixOfKey(key, value, |JOB_PREFIX|);
    assert kv[|key| + 1 + at..|key| + 1 + at + |SCHEDULE_MARK|] == SCHEDULE_MARK;
    ContainsAt(kv, SCHEDULE_MARK, |key| + 1 + at);
  }

  lemma PrefixOfKey(key: string, value: string, n: nat)
    requires n <= |key|
    ensures (key + "=" + value)[..n] == key[..n]
  {
  }

  /** Splitting `key=value` at its first `=` gives back the key and the value whenever
      the key itself has no `=`. */
  lemma SplitRoundTrip(key: string, value: string)
    requires '=' !in key
    ensures KeyOf(key + "=" + value) == key && ValueOf(key + "=" + value) == value
  {
    var kv := key + "=" + value;
    SplitAt(kv, |key|);
    assert kv[..|key|] == key;
  }

  lemma FirstIndexAt(s: string, c: char, i: nat)
    requires i < |s| && s[i] == c && forall j | 0 <= j < i :: s[j] != c
    ensures FirstIndex(s, c) == i
  {
  }
}
