/**
 * The service configuration read from the environment, its validation
 * (every check in order, the first failure reported, failures of the
 * repository and idempotency sections wrapped with the section's name) and
 * the copy of the repository section into a `RepositoryConfig`.
 */
module ServiceConfig {
  import opened Wrappers
  import opened Decimal
  import opened Errors
  import opened RepositoryConfiguration
  import opened Repository

  datatype RepositoryConf = RepositoryConf(repositoryType: string, host: string, port: int,
                                           dbName: string, user: string, password: string)

  datatype IdempotencyConfig = IdempotencyConfig(address: string, password: string)

  datatype Config = Config(bindAddr: string, gracefulShutdownTimeoutSec: int,
                           repository: RepositoryConf, idempotency: IdempotencyConfig)

  /** The error naming an environment variable whose value is refused. */
  function Unexpected(variable: string): Error {
    Plain("unexpected `" + variable + "` env variable")
  }

  /** `validateRepositoryConfig`. */
  function ValidateRepositoryConfig(c: RepositoryConf): Option<Error> {
    if !ValidRepositoryType(c.repositoryType) then Some(Unexpected("DB_TYPE"))
    else if c.host == "" then Some(Unexpected("DB_HOST"))
    else if c.port <= 0 then Some(Unexpected("DB_PORT"))
    else if c.dbName == "" then Some(Unexpected("DB_DATABASE_NAME"))
    else if c.user == "" then Some(Unexpected("DB_USER"))
    else if c.password == "" then Some(Unexpected("DB_PASSWORD"))
    else None
  }

  /** `validateIdempotencyConfig`: only the address is required. */
  function ValidateIdempotencyConfig(c: IdempotencyConfig): Option<Error> {
    if c.address == "" then Some(Unexpected("IDEMPOTENCY_REDIS_ADDR")) else None
  }

  /** `validateConfig`. */
  function ValidateConfig(c: Config): Option<Error> {
    if c.bindAddr == "" then Some(Unexpected("BIND_ADDR"))
    else if c.gracefulShutdownTimeoutSec < -1 then Some(Unexpected("GRACEFUL_SHUTDOWN_TIMEOUT_SEC"))
    else match ValidateRepositoryConfig(c.repository)
      case Some(e) => Some(Wrapped(RepositoryContext, e))
      case None =>
        match ValidateIdempotencyConfig(c.idempotency)
        case Some(e) => Some(Wrapped(IdempotencyContext, e))
        case None => None
  }

  // ----- a reference: the checks as a table ------------------------------------------

  /**
   * One requirement: the variable it is about, the context its section's
   * failures are wrapped with ("" at top level), and whether it holds.
   */
  datatype Check = Check(variable: string, context: string, holds: bool)

  const RepositoryContext: string := "unexpected repository config"
  const IdempotencyContext: string := "unexpected idempotency config"

  /** Every requirement on a configuration, in the order they are checked. */
  function Checks(c: Config): seq<Check> {
    var r := c.repository;
    [ Check("BIND_ADDR", "", c.bindAddr != ""),
      Check("GRACEFUL_SHUTDOWN_TIMEOUT_SEC", "", c.gracefulShutdownTimeoutSec >= -1),
      Check("DB_TYPE", RepositoryContext, ValidRepositoryType(r.repositoryType)),
      Check("DB_HOST", RepositoryContext, r.host != ""),
      Check("DB_PORT", RepositoryContext, r.port > 0),
      Check("DB_DATABASE_NAME", RepositoryContext, r.dbName != ""),
      Check("DB_USER", RepositoryContext, r.user != ""),
      Check("DB_PASSWORD", RepositoryContext, r.password != ""),
      Check("IDEMPOTENCY_REDIS_ADDR", IdempotencyContext, c.idempotency.address != "") ]
  }

  /** The first requirement that does not hold. */
  function FirstFailing(checks: seq<Check>): (r: Option<Check>)
    ensures r.Some? ==> r.value in checks && !r.value.holds
    ensures r == None <==> forall i :: 0 <= i < |checks| ==> checks[i].holds
  {
    if checks == [] then None
    else if !checks[0].holds then Some(checks[0])
    else FirstFailing(checks[1..])
  }

  /** The error a failing requirement is reported with. */
  function Report(k: Check): Error {
    if k.context == "" then Unexpected(k.variable) else Wrapped(k.context, Unexpected(k.variable))
  }

  /**
   * `validateConfig` accepts exactly the configurations that meet every
   * requirement, and otherwise reports the first requirement that fails,
   * wrapped with the name of its section.
   */
  lemma ValidateMeansFirstFailing(c: Config)
    ensures ValidateConfig(c) == None <==> forall i :: 0 <= i < |Checks(c)| ==> Checks(c)[i].holds
    ensures ValidateConfig(c) == (if FirstFailing(Checks(c)).Some? then Some(Report(FirstFailing(Checks(c)).value)) else None)
  {
    var k := Checks(c);
    if !k[0].holds {
      FirstFailingAt(k, 0);
    } else if !k[1].holds {
      FirstFailingAt(k, 1);
    } else if !k[2].holds {
      FirstFailingAt(k, 2);
    } else if !k[3].holds {
      FirstFailingAt(k, 3);
    } else if !k[4].holds {
      FirstFailingAt(k, 4);
    } else if !k[5].holds {
      FirstFailingAt(k, 5);
    } else if !k[6].holds {
      FirstFailingAt(k, 6);
    } else if !k[7].holds {
      FirstFailingAt(k, 7);
    } else if !k[8].holds {
      FirstFailingAt(k, 8);
    }
  }

  /** The first requirement that fails is the one reported. */
  lemma {:induction false} FirstFailingAt(k: seq<Check>, n: nat)
    requires n < |k| && !k[n].holds && forall i :: 0 <= i < n ==> k[i].holds
    ensures FirstFailing(k) == Some(k[n])
  {
    if n > 0 {
      FirstFailingAt(k[1..], n - 1);
    }
  }

  /**
   * A configuration that passes validation names a registered repository
   * type, so every constructor reaches its factory: it succeeds exactly when
   * the factory connects.
   */
  lemma ValidConfigHasFactory(c: Config, cap: Capability, built: Option<Error>)
    requires ValidateConfig(c) == None
    ensures ValidRepositoryType(c.repository.repositoryType)
    ensures NewRepository(cap, Copied(c.repository), built).Success? <==> built == None
  {
  }

  /** The three configurations of the validation tests: the first passes, the other two do not. */
  lemma ValidationExamples()
    ensures ValidateConfig(Config(":8080", -1, RepositoryConf(PostgreSQL, "localhost", 5432, "test", "user", "pwd"),
                                  IdempotencyConfig("localhost:6379", ""))) == None
    ensures ValidateConfig(Config("", -1, RepositoryConf(PostgreSQL, "localhost", 5432, "test", "user", "pwd"),
                                  IdempotencyConfig("", ""))) == Some(Unexpected("BIND_ADDR"))
    ensures ValidateConfig(Config(":8080", -2, RepositoryConf(PostgreSQL, "localhost", 5432, "test", "user", "pwd"),
                                  IdempotencyConfig("", ""))) == Some(Unexpected("GRACEFUL_SHUTDOWN_TIMEOUT_SEC"))
  {
    ValidTypes(PostgreSQL);
  }

  // ----- loading --------------------------------------------------------------------------

  const DefaultShutdownTimeout: int := 15

  /**
   * The shutdown timeout from the raw `GRACEFUL_SHUTDOWN_TIMEOUT_SEC` value:
   * unset means 15, anything else is read by `strconv.Atoi` (None stands for
   * the panic on a value it refuses).
   */
  function ShutdownTimeout(raw: string): (r: Option<int>)
    ensures r.Some? ==> IsInt64(r.value)
  {
    if raw == "" then Some(DefaultShutdownTimeout) else ParseInt64(raw)
  }

  /** Unset gives 15; a written int64 is read back as itself. */
  lemma ShutdownTimeoutReads(n: int)
    requires IsInt64(n)
    ensures ShutdownTimeout("") == Some(15)
    ensures ShutdownTimeout(FormatInt(n)) == Some(n)
  {
    ParseFormatRoundTrip(n);
  }

  /** `DB_PORT` is read by `strconv.Atoi` with no default: unset is refused too (None stands for the panic). */
  function DbPort(raw: string): (r: Option<int>)
    ensures r.Some? ==> IsInt64(r.value)
    ensures raw == "" ==> r == None
  {
    ParseInt64(raw)
  }

  /** `os.Getenv`: "" for a variable that is not set. */
  function Getenv(env: map<string, string>, name: string): string {
    if name in env then env[name] else ""
  }

  /** `loadConfigFromEnv` on the environment `env`; None stands for either panic. */
  function LoadConfigFromEnv(env: map<string, string>): Option<Config> {
    var timeout := ShutdownTimeout(Getenv(env, "GRACEFUL_SHUTDOWN_TIMEOUT_SEC"));
    var port := DbPort(Getenv(env, "DB_PORT"));
    if timeout.None? || port.None? then None
    else
      Some(Config(Getenv(env, "BIND_ADDR"), timeout.value,
                  RepositoryConf(Getenv(env, "DB_TYPE"), Getenv(env, "DB_HOST"), port.value,
                                 Getenv(env, "DB_DATABASE_NAME"), Getenv(env, "DB_USER"), Getenv(env, "DB_PASSWORD")),
                  IdempotencyConfig(Getenv(env, "IDEMPOTENCY_REDIS_ADDR"), Getenv(env, "IDEMPOTENCY_REDIS_PASSWORD"))))
  }

  /** The environment that describes a configuration, every integer written in base 10. */
  function EnvOf(c: Config): map<string, string> {
    map["BIND_ADDR" := c.bindAddr,
        "GRACEFUL_SHUTDOWN_TIMEOUT_SEC" := FormatInt(c.gracefulShutdownTimeoutSec),
        "DB_TYPE" := c.repository.repositoryType,
        "DB_HOST" := c.repository.host,
        "DB_PORT" := FormatInt(c.repository.port),
        "DB_DATABASE_NAME" := c.repository.dbName,
        "DB_USER" := c.repository.user,
        "DB_PASSWORD" := c.repository.password,
        "IDEMPOTENCY_REDIS_ADDR" := c.idempotency.address,
        "IDEMPOTENCY_REDIS_PASSWORD" := c.idempotency.password]
  }

  /** Loading reads every variable into its own field: a configuration written out is loaded back whole. */
  lemma LoadConfigRoundTrip(c: Config)
    requires IsInt64(c.gracefulShutdownTimeoutSec) && IsInt64(c.repository.port)
    ensures LoadConfigFromEnv(EnvOf(c)) == Some(c)
  {
    var env := EnvOf(c);
    assert Getenv(env, "GRACEFUL_SHUTDOWN_TIMEOUT_SEC") == FormatInt(c.gracefulShutdownTimeoutSec);
    assert Getenv(env, "DB_PORT") == FormatInt(c.repository.port);
    ShutdownTimeoutReads(c.gracefulShutdownTimeoutSec);
    ParseFormatRoundTrip(c.repository.port);
  }

  /** A missing or malformed `DB_PORT`, or a malformed timeout, stops the service before validation. */
  lemma LoadConfigFailures(env: map<string, string>)
    ensures Getenv(env, "DB_PORT") == "" ==> LoadConfigFromEnv(env) == None
    ensures ParseInt64(Getenv(env, "DB_PORT")).None? ==> LoadConfigFromEnv(env) == None
    ensures var t := Getenv(env, "GRACEFUL_SHUTDOWN_TIMEOUT_SEC");
      t != "" && ParseInt64(t).None? ==> LoadConfigFromEnv(env) == None
    ensures Getenv(env, "GRACEFUL_SHUTDOWN_TIMEOUT_SEC") == "" && ParseInt64(Getenv(env, "DB_PORT")).Some? ==>
      LoadConfigFromEnv(env).Some? && LoadConfigFromEnv(env).value.gracefulShutdownTimeoutSec == 15
  {
  }

  /** The settings `newRepositoryConfigFrom` produces: the six fields, one to one. */
  function Copied(c: RepositoryConf): Settings {
    Settings(c.repositoryType, c.host, c.port, c.dbName, c.user, c.password)
  }

  /** `newRepositoryConfigFrom`: chain the six setters on a fresh builder and copy out the value. */
  method NewRepositoryConfigFrom(c: RepositoryConf) returns (r: Settings)
    ensures r.repositoryType == c.repositoryType && r.host == c.host && r.port == c.port
    ensures r.dbName == c.dbName && r.user == c.user && r.password == c.password
  {
    r := Build(c.repositoryType, c.host, c.port, c.dbName, c.user, c.password);
  }
}
