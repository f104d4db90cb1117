/** The tldr backend's configuration, read from the process environment. */
module TldrConfig {
  import opened Text

  /** The environment; an unset variable reads as the empty string. */
  type Env = map<string, string>

  function Getenv(env: Env, key: string): string {
    if key in env then env[key] else ""
  }

  /** `getEnv`: the variable's value, or the default when it is unset or empty. */
  function GetEnv(env: Env, key: string, default: string): (r: string)
    ensures Getenv(env, key) == "" ==> r == default
    ensures Getenv(env, key) != "" ==> r == env[key]
    ensures r == "" ==> default == ""
  {
    var v := Getenv(env, key);
    if v == "" then default else v
  }

  /** `parseCORS`: no origins for the empty string, and otherwise the comma-separated
      parts, untrimmed. */
  function ParseCORS(origins: string): (r: seq<string>)
    ensures origins == "" <==> r == []
    ensures origins != "" ==> r == Split(origins, ',')
  {
    if origins == "" then [] else Split(origins, ',')
  }

  /** `k` commas give `k + 1` parts, none holding a comma, that join back to the
      setting; the empty setting joins back to itself too. */
  lemma CORSRoundTrip(origins: string)
    ensures origins != "" ==> |ParseCORS(origins)| == Count(origins, ',') + 1
    ensures forall i | 0 <= i < |ParseCORS(origins)| :: ',' !in ParseCORS(origins)[i]
    ensures Join(ParseCORS(origins), ',') == origins
  {
    if origins != "" {
      SplitCount(origins, ',');
      SplitPiecesFree(origins, ',');
      JoinSplit(origins, ',');
    }
  }

  datatype MinIOConfig = MinIOConfig(endpoint: string, accessKey: string, secretKey: string, bucket: string, useSSL: bool)

  datatype Config = Config(minio: MinIOConfig, serverHost: string, serverPort: string, allowedCORS: seq<string>)

  const DEFAULT_SERVER_HOST := "0.0.0.0"
  const DEFAULT_SERVER_PORT := "8080"

  /** `Load`. */
  function Load(env: Env): (c: Config)
    ensures c.minio.endpoint == Getenv(env, "MINIO_ENDPOINT")
    ensures c.minio.accessKey == Getenv(env, "MINIO_ACCESS_KEY")
    ensures c.minio.secretKey == Getenv(env, "MINIO_SECRET_KEY")
    ensures c.minio.bucket == Getenv(env, "MINIO_BUCKET")
    ensures c.minio.useSSL <==> Getenv(env, "MINIO_USE_SSL") == "true"
    ensures c.serverHost == GetEnv(env, "SERVER_HOST", DEFAULT_SERVER_HOST)
    ensures c.serverPort == GetEnv(env, "SERVER_PORT", DEFAULT_SERVER_PORT)
    ensures Getenv(env, "SERVER_HOST") == "" ==> c.serverHost == DEFAULT_SERVER_HOST
    ensures Getenv(env, "SERVER_PORT") == "" ==> c.serverPort == DEFAULT_SERVER_PORT
    ensures c.allowedCORS == ParseCORS(Getenv(env, "CORS_ALLOWED_ORIGINS"))
    ensures c.allowedCORS == [] <==> Getenv(env, "CORS_ALLOWED_ORIGINS") == ""
    ensures Join(c.allowedCORS, ',') == Getenv(env, "CORS_ALLOWED_ORIGINS")
  {
    CORSRoundTrip(Getenv(env, "CORS_ALLOWED_ORIGINS"));
    Config(
      MinIOConfig(
        Getenv(env, "MINIO_ENDPOINT"),
        Getenv(env, "MINIO_ACCESS_KEY"),
        Getenv(env, "MINIO_SECRET_KEY"),
        Getenv(env, "MINIO_BUCKET"),
        Getenv(env, "MINIO_USE_SSL") == "true"),
      GetEnv(env, "SERVER_HOST", DEFAULT_SERVER_HOST),
      GetEnv(env, "SERVER_PORT", DEFAULT_SERVER_PORT),
      ParseCORS(Getenv(env, "CORS_ALLOWED_ORIGINS")))
  }

  /** With nothing set: no SSL, listening on 0.0.0.0:8080, no CORS origins. */
  lemma LoadEmpty()
    ensures Load(map[]) == Config(MinIOConfig("", "", "", "", false), "0.0.0.0", "8080", [])
  {
  }

  /** Only the exact text `true` turns SSL on. */
  lemma UseSSLExamples()
    ensures Load(map["MINIO_USE_SSL" := "true"]).minio.useSSL
    ensures !Load(map["MINIO_USE_SSL" := "TRUE"]).minio.useSSL
    ensures !Load(map["MINIO_USE_SSL" := "1"]).minio.useSSL
  {
  }

  lemma CORSExamples()
    ensures ParseCORS("a,b") == ["a", "b"]
    ensures ParseCORS("a, b") == ["a", " b"]
    ensures ParseCORS(",") == ["", ""]
  {
    SplitTwo("a", "b", ',');
    assert "a" + [','] + "b" == "a,b";
    SplitTwo("a", " b", ',');
    assert "a" + [','] + " b" == "a, b";
    SplitTwo("", "", ',');
    assert "" + [','] + "" == ",";
  }
}
