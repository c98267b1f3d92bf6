/**
 * `AppConfig::from_env` (blog_server/src/infrastructure/config.rs): the
 * server's settings read from the environment, which is a parameter here
 * (a map from variable name to value). The `.env` file loading is not
 * modelled.
 */
module Config {
  import opened Wrappers
  import Text

  type Env = map<string, string>

  datatype AppConfig = AppConfig(
    httpAddr: string,
    grpcAddr: string,
    databaseUrl: string,
    jwtSecret: string,
    jwtExpiration: int,
    corsOrigins: seq<string>)

  const MIN_JWT_KEY_LEN: nat := 32
  const DEFAULT_HOST: string := "127.0.0.1"
  const DEFAULT_HTTP_PORT: string := "3000"
  const DEFAULT_GRPC_PORT: string := "50051"
  const DEFAULT_EXPIRATION: string := "1440"
  const DEFAULT_CORS: string := "*"

  /** `std::env::var(name).unwrap_or_else(|_| default)` */
  function VarOr(env: Env, name: string, default: string): (v: string)
    ensures name in env ==> v == env[name]
    ensures name !in env ==> v == default
  {
    if name in env then env[name] else default
  }

  /** An origin as the list keeps it: not empty, no comma, no whitespace at either end. */
  predicate CleanOrigin(o: string) {
    o != [] && ',' !in o && !Text.IsWhitespace(o[0]) && !Text.IsWhitespace(o[|o| - 1])
  }

  /** `.map(|s| s.trim().to_string()).filter(|s| !s.is_empty())` */
  function TrimmedNonEmpty(parts: seq<string>): (r: seq<string>)
    ensures |r| <= |parts|
    ensures forall i :: 0 <= i < |r| ==> r[i] != [] && !Text.IsWhitespace(r[i][0]) && !Text.IsWhitespace(r[i][|r[i]| - 1])
  {
    if parts == [] then []
    else
      var t := Text.Trim(parts[0]);
      var rest := TrimmedNonEmpty(parts[1..]);
      if t == [] then rest else [t] + rest
  }

  /** Trimming takes a piece of the string, so it adds no comma. */
  lemma TrimAddsNoComma(s: string)
    requires ',' !in s
    ensures ',' !in Text.Trim(s)
  {
    var t := Text.Trim(s);
    var a := |s| - |Text.TrimStart(s)|;
    forall k | 0 <= k < |t|
      ensures t[k] != ','
    {
      assert t[k] == s[a + k];
    }
  }

  lemma {:induction false} TrimmedNonEmptyAddsNoComma(parts: seq<string>)
    requires forall i :: 0 <= i < |parts| ==> ',' !in parts[i]
    ensures forall i :: 0 <= i < |TrimmedNonEmpty(parts)| ==> ',' !in TrimmedNonEmpty(parts)[i]
    decreases |parts|
  {
    if parts != [] {
      TrimAddsNoComma(parts[0]);
      TrimmedNonEmptyAddsNoComma(parts[1..]);
    }
  }

  /** `CORS_ORIGINS` split at commas, each piece trimmed, empty pieces dropped. */
  function CorsOrigins(raw: string): (r: seq<string>)
    ensures forall i :: 0 <= i < |r| ==> CleanOrigin(r[i])
  {
    TrimmedNonEmptyAddsNoComma(Text.Split(raw, ','));
    TrimmedNonEmpty(Text.Split(raw, ','))
  }

  /** Trimming leaves a clean origin as it is. */
  lemma TrimClean(o: string)
    requires CleanOrigin(o)
    ensures Text.Trim(o) == o
  {
  }

  /** A list of clean origins written with commas is read back as the same list. */
  lemma {:induction false} CorsOriginsOfJoin(origins: seq<string>)
    requires |origins| >= 1
    requires forall i :: 0 <= i < |origins| ==> CleanOrigin(origins[i])
    ensures CorsOrigins(Text.Join(origins, ',')) == origins
  {
    Text.SplitJoin(origins, ',');
    TrimmedNonEmptyOfClean(origins);
  }

  lemma {:induction false} TrimmedNonEmptyOfClean(origins: seq<string>)
    requires forall i :: 0 <= i < |origins| ==> CleanOrigin(origins[i])
    ensures TrimmedNonEmpty(origins) == origins
    decreases |origins|
  {
    if origins != [] {
      TrimClean(origins[0]);
      TrimmedNonEmptyOfClean(origins[1..]);
    }
  }

  function PortError(k: Text.IntErrorKind): string {
    "invalid HTTP_PORT: " + Text.IntErrorText(k)
  }

  function ExpirationError(k: Text.IntErrorKind): string {
    "invalid JWT_EXPIRATION: " + Text.IntErrorText(k)
  }

  function ShortSecretError(secret: string): string {
    "JWT_SECRET must be at least " + Text.NatToString(MIN_JWT_KEY_LEN) + " characters long, got " +
    Text.NatToString(Text.Utf8Len(secret))
  }

  /**
   * `from_env`. The checks run in the source's order: HTTP port, gRPC port,
   * database URL, JWT secret (present, then at least 32 bytes long), token
   * lifetime. A bad `GRPC_PORT` is reported with the text "invalid
   * HTTP_PORT", as the source writes it. The secret's length is its UTF-8
   * byte count.
   */
  function FromEnv(env: Env): (r: Result<AppConfig, string>)
    ensures r.Success? <==>
      && Text.ParseU16(VarOr(env, "HTTP_PORT", DEFAULT_HTTP_PORT)).Success?
      && Text.ParseU16(VarOr(env, "GRPC_PORT", DEFAULT_GRPC_PORT)).Success?
      && "DATABASE_URL" in env
      && "JWT_SECRET" in env && Text.Utf8Len(env["JWT_SECRET"]) >= MIN_JWT_KEY_LEN
      && Text.ParseI64(VarOr(env, "JWT_EXPIRATION", DEFAULT_EXPIRATION)).Success?
    ensures r.Success? ==>
      var host := VarOr(env, "HOST", DEFAULT_HOST);
      && r.value.httpAddr == host + ":" + Text.NatToString(Text.ParseU16(VarOr(env, "HTTP_PORT", DEFAULT_HTTP_PORT)).value)
      && r.value.grpcAddr == host + ":" + Text.NatToString(Text.ParseU16(VarOr(env, "GRPC_PORT", DEFAULT_GRPC_PORT)).value)
      && r.value.databaseUrl == env["DATABASE_URL"]
      && r.value.jwtSecret == env["JWT_SECRET"]
      && r.value.jwtExpiration == Text.ParseI64(VarOr(env, "JWT_EXPIRATION", DEFAULT_EXPIRATION)).value
      && r.value.corsOrigins == CorsOrigins(VarOr(env, "CORS_ORIGINS", DEFAULT_CORS))
      && Text.Utf8Len(r.value.jwtSecret) >= MIN_JWT_KEY_LEN
  {
    var host := VarOr(env, "HOST", DEFAULT_HOST);
    var httpPort :- Text.ParseU16(VarOr(env, "HTTP_PORT", DEFAULT_HTTP_PORT)).MapFailure(PortError);
    var grpcPort :- Text.ParseU16(VarOr(env, "GRPC_PORT", DEFAULT_GRPC_PORT)).MapFailure(PortError);
    if "DATABASE_URL" !in env then Failure("DATABASE_URL must be set")
    else if "JWT_SECRET" !in env then Failure("JWT_SECRET must be set")
    else
      var secret := env["JWT_SECRET"];
      if Text.Utf8Len(secret) < MIN_JWT_KEY_LEN then Failure(ShortSecretError(secret))
      else
        var expiration :- Text.ParseI64(VarOr(env, "JWT_EXPIRATION", DEFAULT_EXPIRATION)).MapFailure(ExpirationError);
        Success(AppConfig(
          host + ":" + Text.NatToString(httpPort),
          host + ":" + Text.NatToString(grpcPort),
          env["DATABASE_URL"],
          secret,
          expiration,
          CorsOrigins(VarOr(env, "CORS_ORIGINS", DEFAULT_CORS))))
  }

  /** Which error `from_env` reports, in order. */
  lemma FromEnvErrors(env: Env)
    ensures Text.ParseU16(VarOr(env, "HTTP_PORT", DEFAULT_HTTP_PORT)).Failure? ==>
      FromEnv(env) == Failure(PortError(Text.ParseU16(VarOr(env, "HTTP_PORT", DEFAULT_HTTP_PORT)).error))
    ensures Text.ParseU16(VarOr(env, "HTTP_PORT", DEFAULT_HTTP_PORT)).Success? &&
            Text.ParseU16(VarOr(env, "GRPC_PORT", DEFAULT_GRPC_PORT)).Failure? ==>
      FromEnv(env) == Failure(PortError(Text.ParseU16(VarOr(env, "GRPC_PORT", DEFAULT_GRPC_PORT)).error))
    ensures FromEnv(env).Failure? && Text.ParseU16(VarOr(env, "HTTP_PORT", DEFAULT_HTTP_PORT)).Success? &&
            Text.ParseU16(VarOr(env, "GRPC_PORT", DEFAULT_GRPC_PORT)).Success? ==>
      && ("DATABASE_URL" !in env ==> FromEnv(env).error == "DATABASE_URL must be set")
      && ("DATABASE_URL" in env && "JWT_SECRET" !in env ==> FromEnv(env).error == "JWT_SECRET must be set")
      && ("DATABASE_URL" in env && "JWT_SECRET" in env && Text.Utf8Len(env["JWT_SECRET"]) < MIN_JWT_KEY_LEN ==>
            FromEnv(env).error == ShortSecretError(env["JWT_SECRET"]))
      && ("DATABASE_URL" in env && "JWT_SECRET" in env && Text.Utf8Len(env["JWT_SECRET"]) >= MIN_JWT_KEY_LEN ==>
            FromEnv(env).error == ExpirationError(Text.ParseI64(VarOr(env, "JWT_EXPIRATION", DEFAULT_EXPIRATION)).error))
  {
  }

  /** A port written in decimal appears unchanged in the listening address. */
  lemma PortInAddress(env: Env, port: nat)
    requires port <= Text.U16_MAX
    requires "HTTP_PORT" in env && env["HTTP_PORT"] == Text.NatToString(port)
    requires FromEnv(env).Success?
    ensures FromEnv(env).value.httpAddr == VarOr(env, "HOST", DEFAULT_HOST) + ":" + Text.NatToString(port)
  {
    Text.ParseNatToString(port, false, 0, Text.U16_MAX);
  }

  /** With only the two required variables set, every other setting takes its default. */
  lemma Defaults(env: Env)
    requires "HOST" !in env && "HTTP_PORT" !in env && "GRPC_PORT" !in env
    requires "JWT_EXPIRATION" !in env && "CORS_ORIGINS" !in env
    requires "DATABASE_URL" in env && "JWT_SECRET" in env && Text.Utf8Len(env["JWT_SECRET"]) >= MIN_JWT_KEY_LEN
    ensures FromEnv(env) == Success(AppConfig(DEFAULT_HOST + ":" + "3000", DEFAULT_HOST + ":" + "50051",
                                              env["DATABASE_URL"], env["JWT_SECRET"], 1440, ["*"]))
  {
    DefaultValues();
  }

  /** The default texts read as 3000, 50051, 1440 and the one origin "*". */
  lemma DefaultValues()
    ensures Text.ParseU16(DEFAULT_HTTP_PORT) == Success(3000) && Text.NatToString(3000) == "3000"
    ensures Text.ParseU16(DEFAULT_GRPC_PORT) == Success(50051) && Text.NatToString(50051) == "50051"
    ensures Text.ParseI64(DEFAULT_EXPIRATION) == Success(1440)
    ensures CorsOrigins(DEFAULT_CORS) == ["*"]
  {
    HttpPortDefault();
    GrpcPortDefault();
    ExpirationDefault();
    CorsDefault();
  }

  lemma CorsDefault()
    ensures CorsOrigins(DEFAULT_CORS) == ["*"]
  {
    assert Text.Join(["*"], ',') == DEFAULT_CORS;
    CorsOriginsOfJoin(["*"]);
  }

  lemma HttpPortDefault()
    ensures Text.ParseU16(DEFAULT_HTTP_PORT) == Success(3000) && Text.NatToString(3000) == "3000"
  {
    assert Text.NatToString(3) == "3";
    assert Text.NatToString(30) == "30";
    assert Text.NatToString(300) == "300";
    DecimalDefault(3000, "3000", false, 0, Text.U16_MAX);
  }

  lemma GrpcPortDefault()
    ensures Text.ParseU16(DEFAULT_GRPC_PORT) == Success(50051) && Text.NatToString(50051) == "50051"
  {
    assert Text.NatToString(5) == "5";
    assert Text.NatToString(50) == "50";
    assert Text.NatToString(500) == "500";
    assert Text.NatToString(5005) == "5005";
    DecimalDefault(50051, "50051", false, 0, Text.U16_MAX);
  }

  lemma ExpirationDefault()
    ensures Text.ParseI64(DEFAULT_EXPIRATION) == Success(1440)
  {
    assert Text.NatToString(1) == "1";
    assert Text.NatToString(14) == "14";
    assert Text.NatToString(144) == "144";
    DecimalDefault(1440, "1440", true, Text.I64_MIN, Text.I64_MAX);
  }

  lemma DecimalDefault(n: nat, s: string, signed: bool, min: int, max: int)
    requires min <= 0 <= n <= max && Text.NatToString(n) == s
    ensures Text.ParseInteger(s, signed, min, max) == Success(n)
  {
    Text.ParseNatToString(n, signed, min, max);
  }
}
