/** Start-up configuration of the telemetry services, read from the process
    environment: the three required variables, the defaults, the optional
    periodic-log interval and the addresses derived from them.

    The environment is a map from variable names to values; a name that is absent
    stands for `env::var` failing. Floating-point parsing (`parse::<f64>`) is a
    parameter, and its values are kept as 64-bit words. */
module Gt7Config {
  import opened Outcomes
  import opened Text

  type Env = map<string, string>

  /** An `f64` kept as its IEEE-754 word. */
  type F64 = bv64
  type ParseF64 = string -> Option<F64>

  /** The `f64` 1.6, the heartbeat interval used when none is configured. */
  const DEFAULT_HEARTBEAT_INTERVAL: F64 := 0x3FF9_9999_9999_999A
  const DEFAULT_HEARTBEAT_INTERVAL_TEXT: string := "1.6"
  const DEFAULT_LOG_INTERVAL: nat := 5
  const DEFAULT_HTTP_PORT: string := "8080"
  const DEFAULT_HTTP_BIND_ADDRESS: string := "0.0.0.0:8080"
  const TELEMETRY_SERVER_PORT: nat := 33739
  const BIND_ADDRESS: string := "0.0.0.0:33740"
  const U64_LIMIT: nat := 0x1_0000_0000_0000_0000

  /** `env::var(name)`. */
  function Var(env: Env, name: string): (r: Option<string>)
    ensures r.Some? <==> name in env
    ensures r.Some? ==> r.value == env[name]
  {
    if name in env then Some(env[name]) else None
  }

  /** `str::parse::<u64>`: an optional `+`, then at least one decimal digit, and a value
      that fits in 64 bits. */
  function ParseU64(s: string): (r: Option<nat>)
    ensures var digits := TrimPrefix(s, "+");
      r.Some? <==> |digits| > 0 && AllDigits(digits) && DigitsValue(digits) < U64_LIMIT
    ensures r.Some? ==> r.value == DigitsValue(TrimPrefix(s, "+"))
  {
    var digits := TrimPrefix(s, "+");
    if |digits| > 0 && AllDigits(digits) && DigitsValue(digits) < U64_LIMIT then Some(DigitsValue(digits)) else None
  }

  // ------------------------------------------------------------ log interval

  /** The log-interval match of the telemetry server (config.rs) and the bridge's
      `main`: 0 disables, a positive value is taken, anything else falls back to 5. */
  function LogIntervalGuarded(raw: Option<string>): Option<nat> {
    match raw
    case None => Some(DEFAULT_LOG_INTERVAL)
    case Some(text) =>
      match ParseU64(text)
      case Some(0) => None
      case Some(seconds) => if seconds > 0 then Some(seconds) else Some(DEFAULT_LOG_INTERVAL)
      case None => Some(DEFAULT_LOG_INTERVAL)
  }

  /** The bridge's `Config::from_env` copy of the same match, without the `> 0` guard. */
  function LogIntervalPlain(raw: Option<string>): Option<nat> {
    match raw
    case None => Some(DEFAULT_LOG_INTERVAL)
    case Some(text) =>
      match ParseU64(text)
      case Some(0) => None
      case Some(seconds) => Some(seconds)
      case None => Some(DEFAULT_LOG_INTERVAL)
  }

  /** The two copies agree on every input, and the mapping is: a value reading as 0
      disables the log, a positive value is taken as is, and an unset or unparsable
      value gives 5 seconds. */
  lemma LogInterval(raw: Option<string>)
    ensures LogIntervalGuarded(raw) == LogIntervalPlain(raw)
    ensures raw.Some? && ParseU64(raw.value) == Some(0) ==> LogIntervalGuarded(raw) == None
    ensures raw.Some? && ParseU64(raw.value).Some? && ParseU64(raw.value).value > 0 ==>
      LogIntervalGuarded(raw) == Some(ParseU64(raw.value).value)
    ensures raw.None? || ParseU64(raw.value).None? ==> LogIntervalGuarded(raw) == Some(DEFAULT_LOG_INTERVAL)
    ensures LogIntervalGuarded(raw) != Some(0)
  {
  }

  /** "0" disables, "+7" is 7, and "-1", "abc", "" and 2^64 fall back to 5. */
  lemma LogIntervalExamples()
    ensures LogIntervalGuarded(Some("0")) == None
    ensures LogIntervalGuarded(Some("+7")) == Some(7)
    ensures LogIntervalGuarded(Some("-1")) == Some(5)
    ensures LogIntervalGuarded(Some("abc")) == Some(5)
    ensures LogIntervalGuarded(Some("")) == Some(5)
    ensures LogIntervalGuarded(None) == Some(5)
  {
    assert !IsDigit('-') && !IsDigit('a');
    assert TrimPrefix("0", "+") == "0" && DigitsValue("0") == 0;
    assert TrimPrefix("+7", "+") == "7" && DigitsValue("7") == 7 by {
      assert "+7"[..1] == "+";
      assert "7"[..0] == [];
    }
  }

  // ------------------------------------------------------------ required variables

  datatype ConfigError =
    | MissingVar(name: string)
    | InvalidHeartbeatInterval

  /** The three required variables, checked in this order. */
  function RequiredVars(env: Env): (r: Result<(string, string, string), ConfigError>)
    ensures r.Ok? <==> "PS5_IP_ADDRESS" in env && "PULSAR_SERVICE_URL" in env && "PULSAR_TOPIC" in env
    ensures r.Ok? ==> r.value == (env["PS5_IP_ADDRESS"], env["PULSAR_SERVICE_URL"], env["PULSAR_TOPIC"])
  {
    if "PS5_IP_ADDRESS" !in env then Err(MissingVar("PS5_IP_ADDRESS"))
    else if "PULSAR_SERVICE_URL" !in env then Err(MissingVar("PULSAR_SERVICE_URL"))
    else if "PULSAR_TOPIC" !in env then Err(MissingVar("PULSAR_TOPIC"))
    else Ok((env["PS5_IP_ADDRESS"], env["PULSAR_SERVICE_URL"], env["PULSAR_TOPIC"]))
  }

  /** The first missing variable in the order PS5, Pulsar URL, topic is the one reported. */
  lemma FirstMissingReported(env: Env)
    ensures "PS5_IP_ADDRESS" !in env ==> RequiredVars(env) == Err(MissingVar("PS5_IP_ADDRESS"))
    ensures "PS5_IP_ADDRESS" in env && "PULSAR_SERVICE_URL" !in env ==>
      RequiredVars(env) == Err(MissingVar("PULSAR_SERVICE_URL"))
    ensures "PS5_IP_ADDRESS" in env && "PULSAR_SERVICE_URL" in env && "PULSAR_TOPIC" !in env ==>
      RequiredVars(env) == Err(MissingVar("PULSAR_TOPIC"))
  {
  }

  // ------------------------------------------------------------ telemetry server

  datatype ServerConfig = ServerConfig(
    ps5IpAddress: string,
    pulsarServiceUrl: string,
    pulsarTopic: string,
    httpPort: string,
    udpBindAddress: string,
    telemetryServerPort: nat,
    heartbeatIntervalSeconds: F64,
    logPacketIntervalSeconds: Option<nat>
  )

  /** `Config::load` of the telemetry server: the required variables, then defaults for
      the rest; an unparsable heartbeat interval falls back to 1.6. */
  function Load(env: Env, parseF64: ParseF64): (r: Result<ServerConfig, ConfigError>)
    ensures r.Err? <==> RequiredVars(env).Err?
    ensures r.Err? ==> r.error == RequiredVars(env).error
  {
    var required :- RequiredVars(env);
    var (ps5, url, topic) := required;
    var httpPort := if "HTTP_PORT" in env then env["HTTP_PORT"] else DEFAULT_HTTP_PORT;
    var heartbeatText := if "HEARTBEAT_INTERVAL_SECONDS" in env then env["HEARTBEAT_INTERVAL_SECONDS"] else DEFAULT_HEARTBEAT_INTERVAL_TEXT;
    var heartbeat := match parseF64(heartbeatText) case Some(x) => x case None => DEFAULT_HEARTBEAT_INTERVAL;
    Ok(ServerConfig(ps5, url, topic, httpPort, BIND_ADDRESS, TELEMETRY_SERVER_PORT, heartbeat,
                    LogIntervalGuarded(Var(env, "LOG_PACKET_INTERVAL_SECONDS"))))
  }

  /** What a loaded configuration holds: the required values as given, the HTTP port
      defaulting to 8080, the fixed UDP bind address and console port, and the
      log-interval mapping of `LOG_PACKET_INTERVAL_SECONDS`. */
  lemma LoadedValues(env: Env, parseF64: ParseF64)
    requires Load(env, parseF64).Ok?
    ensures var c := Load(env, parseF64).value;
      && c.ps5IpAddress == env["PS5_IP_ADDRESS"] && c.pulsarServiceUrl == env["PULSAR_SERVICE_URL"]
      && c.pulsarTopic == env["PULSAR_TOPIC"]
      && (c.httpPort == if "HTTP_PORT" in env then env["HTTP_PORT"] else "8080")
      && c.udpBindAddress == "0.0.0.0:33740" && c.telemetryServerPort == 33739
      && c.logPacketIntervalSeconds == LogIntervalGuarded(Var(env, "LOG_PACKET_INTERVAL_SECONDS"))
  {
  }

  /** `target_address`: the console's address and port. */
  function TargetAddress(c: ServerConfig): (a: string)
    ensures StartsWith(a, c.ps5IpAddress + ":")
  {
    c.ps5IpAddress + ":" + NatToString(c.telemetryServerPort)
  }

  /** `http_bind_address`: every interface, on the configured port. */
  function HttpBindAddress(c: ServerConfig): (a: string)
    ensures StartsWith(a, "0.0.0.0:")
  {
    "0.0.0.0:" + c.httpPort
  }

  /** The parts of both addresses can be read back: after the address and the colon
      come the digits of the port, and the bind address ends with the HTTP port. */
  lemma {:induction false} AddressesReadBack(c: ServerConfig)
    ensures var rest := TargetAddress(c)[|c.ps5IpAddress| + 1..];
      AllDigits(rest) && DigitsValue(rest) == c.telemetryServerPort
    ensures TrimPrefix(HttpBindAddress(c), "0.0.0.0:") == c.httpPort
  {
    var rest := TargetAddress(c)[|c.ps5IpAddress| + 1..];
    assert rest == NatToString(c.telemetryServerPort);
    NatToStringValue(c.telemetryServerPort);
    assert HttpBindAddress(c)[..|"0.0.0.0:"|] == "0.0.0.0:";
  }

  /** The source's example: 192.168.1.1 with the default ports. */
  lemma AddressExamples(c: ServerConfig)
    requires c.ps5IpAddress == "192.168.1.1" && c.telemetryServerPort == TELEMETRY_SERVER_PORT && c.httpPort == "8080"
    ensures TargetAddress(c) == "192.168.1.1:33739"
    ensures HttpBindAddress(c) == "0.0.0.0:8080"
  {
    assert NatToString(33739) == "33739" by {
      assert NatToString(3) == "3";
      assert NatToString(33) == "33";
      assert NatToString(337) == "337";
      assert NatToString(3373) == "3373";
    }
  }

  // ------------------------------------------------------------ bridge

  datatype BridgeConfig = BridgeConfig(
    ps5IpAddress: string,
    pulsarServiceUrl: string,
    pulsarTopic: string,
    httpBindAddress: string,
    heartbeatIntervalSeconds: F64,
    logPacketIntervalSeconds: Option<nat>
  )

  /** `Config::from_env` of the bridge: like the server's, except that an unparsable
      heartbeat interval is an error rather than a fallback. */
  function FromEnv(env: Env, parseF64: ParseF64): (r: Result<BridgeConfig, ConfigError>)
    ensures RequiredVars(env).Err? ==> r == Err(RequiredVars(env).error)
  {
    var required :- RequiredVars(env);
    var (ps5, url, topic) := required;
    var bind := if "HTTP_BIND_ADDRESS" in env then env["HTTP_BIND_ADDRESS"] else DEFAULT_HTTP_BIND_ADDRESS;
    var heartbeatText := if "HEARTBEAT_INTERVAL_SECONDS" in env then env["HEARTBEAT_INTERVAL_SECONDS"] else DEFAULT_HEARTBEAT_INTERVAL_TEXT;
    match parseF64(heartbeatText)
    case None => Err(InvalidHeartbeatInterval)
    case Some(heartbeat) =>
      Ok(BridgeConfig(ps5, url, topic, bind, heartbeat, LogIntervalPlain(Var(env, "LOG_PACKET_INTERVAL_SECONDS"))))
  }

  /** The bridge fails exactly when a required variable is missing or the heartbeat
      interval does not parse, where the server would fall back to 1.6; otherwise both
      read the same values and the same log interval. */
  lemma BridgeAgainstServer(env: Env, parseF64: ParseF64)
    ensures var text := if "HEARTBEAT_INTERVAL_SECONDS" in env then env["HEARTBEAT_INTERVAL_SECONDS"] else "1.6";
      && (FromEnv(env, parseF64).Ok? <==> RequiredVars(env).Ok? && parseF64(text).Some?)
      && (FromEnv(env, parseF64) == Err(InvalidHeartbeatInterval) <==> RequiredVars(env).Ok? && parseF64(text).None?)
      && (RequiredVars(env).Ok? && parseF64(text).None? ==>
            Load(env, parseF64).Ok? && Load(env, parseF64).value.heartbeatIntervalSeconds == DEFAULT_HEARTBEAT_INTERVAL)
    ensures FromEnv(env, parseF64).Ok? ==>
      var b, c := FromEnv(env, parseF64).value, Load(env, parseF64).value;
      && (b.ps5IpAddress, b.pulsarServiceUrl, b.pulsarTopic) == (c.ps5IpAddress, c.pulsarServiceUrl, c.pulsarTopic)
      && b.heartbeatIntervalSeconds == c.heartbeatIntervalSeconds
      && b.logPacketIntervalSeconds == c.logPacketIntervalSeconds
      && (b.httpBindAddress == if "HTTP_BIND_ADDRESS" in env then env["HTTP_BIND_ADDRESS"] else "0.0.0.0:8080")
  {
    LogInterval(Var(env, "LOG_PACKET_INTERVAL_SECONDS"));
  }
}
