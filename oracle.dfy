/** The Oracle command line: its configuration from the environment, the two
    connection strings (JDBC URL and sqlplus login), the SELECT gate, and the
    choice between the JDBC engine and the sqlplus fallback. The environment
    is a map; what `_run_java` and `_run_sqlplus` report is a parameter. */
module Oracle {
  import opened Wrappers
  import opened Text
  import Mysql

  // ---------------------------------------------------------------------------
  // Environment

  /** `_env`: a variable without its surrounding blanks; unset or blank reads as unset. */
  function Env(v: Option<string>): (r: Option<string>)
    ensures r.Some? <==> v.Some? && Strip(v.value) != []
  {
    if v.None? || Strip(v.value) == [] then None else Some(Strip(v.value))
  }

  /** A value read through `_env` is non-empty, has no blank at either end, and
      reads back as itself. */
  lemma EnvStripped(v: Option<string>)
    requires Env(v).Some?
    ensures Env(v).value != [] && !IsSpace(Env(v).value[0]) && !IsSpace(Env(v).value[|Env(v).value| - 1])
    ensures Env(Env(v)) == Env(v)
  {
    StripEnds(v.value);
    StripOfNonSpaceEnds(Strip(v.value));
  }

  function Getenv(env: map<string, string>, name: string): Option<string> {
    if name in env then Some(env[name]) else None
  }

  /** `_require_env`: the value, or an error naming the variable. */
  function RequireEnv(env: map<string, string>, name: string): (r: Result<string>)
    ensures r.Ok? <==> Env(Getenv(env, name)).Some?
    ensures r.Ok? ==> r.value == Env(Getenv(env, name)).value
    ensures r.Err? ==> r.msg == "[ERROR] Missing required env: " + name
  {
    match Env(Getenv(env, name))
    case Some(v) => Ok(v)
    case None => Err("[ERROR] Missing required env: " + name)
  }

  // ---------------------------------------------------------------------------
  // Configuration and connection strings

  datatype Config = Config(host: string, port: string, sid: string, service: string,
                           username: string, password: string)

  const DefaultPort := "1521"
  const DefaultSid := "DEVGABIA"

  /** `_oracle_config`: host, username and password are required, in that
      order; port and SID have defaults, and a missing service name is empty. */
  function OracleConfig(env: map<string, string>): (r: Result<Config>)
    ensures r.Ok? <==> RequireEnv(env, "ORACLE_HOST").Ok? && RequireEnv(env, "ORACLE_USERNAME").Ok?
                       && RequireEnv(env, "ORACLE_PASSWORD").Ok?
    ensures RequireEnv(env, "ORACLE_HOST").Err? ==> r == Err(RequireEnv(env, "ORACLE_HOST").msg)
    ensures r.Ok? ==> r.value.host != [] && r.value.username != [] && r.value.password != []
    ensures r.Ok? ==> r.value.port != [] && r.value.sid != []
  {
    match RequireEnv(env, "ORACLE_HOST")
    case Err(e) => Err(e)
    case Ok(host) =>
      match RequireEnv(env, "ORACLE_USERNAME")
      case Err(e) => Err(e)
      case Ok(user) =>
        match RequireEnv(env, "ORACLE_PASSWORD")
        case Err(e) => Err(e)
        case Ok(password) =>
          Ok(Config(host, Env(Getenv(env, "ORACLE_PORT")).GetOr(DefaultPort),
                    Env(Getenv(env, "ORACLE_SID")).GetOr(DefaultSid),
                    Env(Getenv(env, "ORACLE_SERVICE_NAME")).GetOr(""), user, password))
  }

  /** With only the three required variables set, the port is 1521, the SID
      DEVGABIA and the service name empty. */
  lemma ConfigDefaults(env: map<string, string>)
    requires OracleConfig(env).Ok?
    requires "ORACLE_PORT" !in env && "ORACLE_SID" !in env && "ORACLE_SERVICE_NAME" !in env
    ensures OracleConfig(env).value.port == DefaultPort && OracleConfig(env).value.sid == DefaultSid
    ensures OracleConfig(env).value.service == []
  {
  }

  /** A blank optional variable counts as unset. */
  lemma ConfigBlankPort(env: map<string, string>)
    requires OracleConfig(env).Ok? && "ORACLE_PORT" in env && Strip(env["ORACLE_PORT"]) == []
    ensures OracleConfig(env).value.port == DefaultPort
  {
  }

  /** The connect target both clients use: host and port, then `/service`
      when a service name is set and `:sid` otherwise. */
  function Target(cfg: Config): string {
    cfg.host + ":" + cfg.port + (if cfg.service != [] then "/" + cfg.service else ":" + cfg.sid)
  }

  /** `_jdbc_url`. */
  function JdbcUrl(cfg: Config): (r: string)
    ensures StartsWith(r, "jdbc:oracle:thin:@")
  {
    if cfg.service != [] then "jdbc:oracle:thin:@//" + cfg.host + ":" + cfg.port + "/" + cfg.service
    else "jdbc:oracle:thin:@" + cfg.host + ":" + cfg.port + ":" + cfg.sid
  }

  /** `_sqlplus_login`. */
  function SqlplusLogin(cfg: Config): (r: string) {
    var connect := if cfg.service != [] then cfg.host + ":" + cfg.port + "/" + cfg.service
                   else cfg.host + ":" + cfg.port + ":" + cfg.sid;
    cfg.username + "/" + cfg.password + "@" + connect
  }

  /** The JDBC URL and the sqlplus login make the same service-name test and
      name the same target: `//` marks the service form in the URL only. */
  lemma ConnectStringsAgree(cfg: Config)
    ensures JdbcUrl(cfg) == "jdbc:oracle:thin:@" + (if cfg.service != [] then "//" else "") + Target(cfg)
    ensures SqlplusLogin(cfg) == cfg.username + "/" + cfg.password + "@" + Target(cfg)
  {
  }

  /** A URL in the service form is recognisable by its `//`, unless the host
      itself starts with `/`. */
  lemma JdbcServiceForm(cfg: Config)
    requires cfg.host == [] || cfg.host[0] != '/'
    ensures StartsWith(JdbcUrl(cfg), "jdbc:oracle:thin:@//") <==> cfg.service != []
  {
    var p := "jdbc:oracle:thin:@";
    if cfg.service == [] {
      var u := JdbcUrl(cfg);
      assert u == p + (cfg.host + ":" + cfg.port + ":" + cfg.sid);
      assert u[|p|] != '/' by {
        if cfg.host == [] { assert u[|p|] == ':'; } else { assert u[|p|] == cfg.host[0]; }
      }
    }
  }

  // ---------------------------------------------------------------------------
  // The SELECT gate

  const NotSelect := "[ERROR] Only SELECT queries are allowed."

  /** `_normalize_query`: the statement trimmed of blanks and of one trailing
      `;` (the same trimming as the MySQL command line), accepted when its
      upper-cased form starts with `SELECT`. */
  function NormalizeQuery(query: string): (r: Result<string>)
    ensures r.Ok? <==> StartsWith(Upper(Mysql.TrimStatement(query)), "SELECT")
    ensures r.Ok? ==> r.value == Mysql.TrimStatement(query)
    ensures r.Err? ==> r.msg == NotSelect
  {
    var q := Mysql.TrimStatement(query);
    if StartsWith(Upper(q), "SELECT") then Ok(q) else Err(NotSelect)
  }

  /** The test is a prefix test: a blank query is refused with the same error,
      and any word that merely starts with `select` in any letter case passes. */
  lemma SelectPrefixGate(query: string)
    ensures Mysql.TrimStatement(query) == [] ==> NormalizeQuery(query) == Err(NotSelect)
    ensures var q := Mysql.TrimStatement(query);
      |q| >= 6 && Upper(q[..6]) == "SELECT" ==> NormalizeQuery(query) == Ok(q)
  {
    var q := Mysql.TrimStatement(query);
    if |q| >= 6 && Upper(q[..6]) == "SELECT" {
      assert Upper(q)[..6] == Upper(q[..6]);
    }
  }

  /** An accepted query that does not end with `;` passes the gate again unchanged. */
  lemma NormalizeQueryIdempotent(query: string)
    requires NormalizeQuery(query).Ok? && !EndsWith(NormalizeQuery(query).value, ";")
    ensures NormalizeQuery(NormalizeQuery(query).value) == NormalizeQuery(query)
  {
    Mysql.TrimmedIsStripped(query);
    TrimFixed(NormalizeQuery(query).value);
  }

  /** A stripped statement without a trailing `;` is already trimmed. */
  lemma TrimFixed(q: string)
    requires Strip(q) == q && !EndsWith(q, ";")
    ensures Mysql.TrimStatement(q) == q
  {
  }

  /** Where `select` reads its query: `--query`, else the `--query-file` text,
      else standard input unless it is a terminal. */
  function ReadQuery(query: Option<string>, fileText: Option<string>, stdinIsTty: bool, stdin: string): (r: Result<string>)
    ensures query.Some? ==> r == Ok(query.value)
    ensures query.None? && fileText.Some? ==> r == Ok(fileText.value)
    ensures r.Err? <==> query.None? && fileText.None? && stdinIsTty
  {
    if query.Some? then Ok(query.value)
    else if fileText.Some? then Ok(fileText.value)
    else if stdinIsTty then Err("[ERROR] Provide --query/--query-file or pipe SQL via stdin.")
    else Ok(stdin)
  }

  // ---------------------------------------------------------------------------
  // Engines

  datatype Engine = Auto | Jdbc | Sqlplus

  /** What `_run_java` does: the exit code of the Java run, or the SystemExit
      it raises first (no JDBC jar, no JDK, javac failure). */
  datatype JavaRun = JavaRan(rc: int) | JavaFailed(msg: string)

  /** What `_run_sqlplus` does: the exit code of sqlplus, or the SystemExit for
      a missing sqlplus binary. */
  datatype SqlplusRun = SqlplusRan(rc: int) | SqlplusMissing

  /** How the process ends: `SystemExit(code)` or `SystemExit(message)`. */
  datatype Exit = Code(n: int) | Fail(msg: string)

  /** Whether a command called `_run_java` (which may stop before starting
      Java, when no jar or JDK is found), the sqlplus script if sqlplus was
      started, and how the command ends. */
  datatype Outcome = Outcome(triedJava: bool, sqlplusScript: Option<string>, exit: Exit)

  const SqlplusNotFound := "[ERROR] sqlplus not found. Install sqlplus or use --engine jdbc with ORACLE_JDBC_JAR."

  const TestScript := "set heading off feedback off pagesize 0 verify off echo off\nselect 1 from dual;\nexit;\n"

  const SelectHeader := "set pagesize 50000 linesize 32767 trimspool on feedback off verify off echo off\n"

  /** The sqlplus script of `select`: the fixed settings, the query with a `;`, and `exit;`. */
  function SelectScript(q: string): (r: string)
    ensures StartsWith(r, SelectHeader) && EndsWith(r, ";\nexit;\n")
    ensures |r| == |SelectHeader| + |q| + |";\nexit;\n"|
    ensures r[|SelectHeader|..|r| - |";\nexit;\n"|] == q
  {
    var r := SelectHeader + q + ";\nexit;\n";
    assert r[..|SelectHeader|] == SelectHeader;
    assert r[|r| - |";\nexit;\n"|..] == ";\nexit;\n";
    r
  }

  /** `raise SystemExit(0 if rc == 0 else rc)` after a run, or the run's own SystemExit. */
  function JavaExit(java: JavaRun): Exit {
    match java
    case JavaRan(rc) => Code(if rc == 0 then 0 else rc)
    case JavaFailed(m) => Fail(m)
  }

  /** The sqlplus fallback: it starts sqlplus with the script when sqlplus exists. */
  function Fallback(triedJava: bool, script: string, sqlplus: SqlplusRun): (r: Outcome)
    ensures r.triedJava == triedJava
    ensures sqlplus.SqlplusRan? ==> r.sqlplusScript == Some(script) && r.exit == Code(sqlplus.rc)
    ensures sqlplus.SqlplusMissing? ==> r.sqlplusScript.None? && r.exit == Fail(SqlplusNotFound)
  {
    match sqlplus
    case SqlplusRan(rc) => Outcome(triedJava, Some(script), Code(if rc == 0 then 0 else rc))
    case SqlplusMissing => Outcome(triedJava, None, Fail(SqlplusNotFound))
  }

  /** The engine choice of `cmd_test` and `cmd_select` AS WRITTEN: the
      SystemExit raised after the Java run is inside the `try` and is caught
      by its own `except SystemExit`, which re-raises only for `jdbc`. */
  function RunEnginesAsWritten(engine: Engine, java: JavaRun, script: string, sqlplus: SqlplusRun): (r: Outcome) {
    if engine == Auto || engine == Jdbc then
      var raised := JavaExit(java);
      if engine == Jdbc then Outcome(true, None, raised)
      else Fallback(true, script, sqlplus)
    else Fallback(false, script, sqlplus)
  }

  /** As written, `auto` always ends with sqlplus: the JDBC result, success or
      not, is discarded. */
  lemma AutoAlwaysFallsBack(java: JavaRun, script: string, sqlplus: SqlplusRun)
    ensures RunEnginesAsWritten(Auto, java, script, sqlplus) == Fallback(true, script, sqlplus)
    ensures RunEnginesAsWritten(Auto, java, script, sqlplus).exit == RunEnginesAsWritten(Sqlplus, java, script, sqlplus).exit
  {
  }

  /** The input that shows it: JDBC succeeds and sqlplus is not installed, and
      the command fails with the sqlplus error. */
  lemma AutoFailsAfterJdbcSuccess(script: string)
    ensures RunEnginesAsWritten(Auto, JavaRan(0), script, SqlplusMissing).exit == Fail(SqlplusNotFound)
  {
  }

  /** The engine choice as evidently intended: sqlplus is the fallback for
      `auto` when the JDBC engine cannot run, and a completed Java run's exit
      code is final. */
  function RunEngines(engine: Engine, java: JavaRun, script: string, sqlplus: SqlplusRun): (r: Outcome) {
    if engine == Auto || engine == Jdbc then
      match java
      case JavaRan(rc) => Outcome(true, None, Code(rc))
      case JavaFailed(m) =>
        if engine == Jdbc then Outcome(true, None, Fail(m)) else Fallback(true, script, sqlplus)
    else Fallback(false, script, sqlplus)
  }

  /** With the intended control flow, `auto` starts sqlplus exactly when the
      JDBC engine could not run, and otherwise ends with the Java exit code;
      `jdbc` and `sqlplus` behave as written. */
  lemma RunEnginesIntended(engine: Engine, java: JavaRun, script: string, sqlplus: SqlplusRun)
    ensures RunEngines(Auto, java, script, sqlplus).sqlplusScript.Some? <==> java.JavaFailed? && sqlplus.SqlplusRan?
    ensures java.JavaRan? ==> RunEngines(Auto, java, script, sqlplus).exit == Code(java.rc)
    ensures java.JavaFailed? ==> RunEngines(Auto, java, script, sqlplus) == Fallback(true, script, sqlplus)
    ensures engine != Auto ==> RunEngines(engine, java, script, sqlplus) == RunEnginesAsWritten(engine, java, script, sqlplus)
  {
  }

  /** `cmd_test` as written: configuration first, then the engines with the
      fixed test script. Without `--engine` it ends in the sqlplus fallback
      whatever the Java run did; with `jdbc` it ends as the Java run does. */
  function TestCommand(env: map<string, string>, engine: Option<Engine>, java: JavaRun, sqlplus: SqlplusRun): (r: Outcome)
    ensures OracleConfig(env).Err? ==> r == Outcome(false, None, Fail(OracleConfig(env).msg))
    ensures OracleConfig(env).Ok? && engine.None? ==> r == Fallback(true, TestScript, sqlplus)
    ensures OracleConfig(env).Ok? && engine == Some(Jdbc) ==> r == Outcome(true, None, JavaExit(java))
    ensures OracleConfig(env).Ok? && engine == Some(Sqlplus) ==> r == Fallback(false, TestScript, sqlplus)
  {
    match OracleConfig(env)
    case Err(e) => Outcome(false, None, Fail(e))
    case Ok(_) => RunEnginesAsWritten(engine.GetOr(Auto), java, TestScript, sqlplus)
  }

  /** `cmd_select` as written, once its configuration was read: the query and
      its gate, then the engines; nothing is started for a query the gate
      refuses, and without `--engine` an accepted query always reaches sqlplus. */
  function SelectQuery(engine: Option<Engine>, query: Result<string>, java: JavaRun, sqlplus: SqlplusRun): (r: Outcome)
    ensures query.Err? ==> r == Outcome(false, None, Fail(query.msg))
    ensures query.Ok? && NormalizeQuery(query.value).Err? ==> r == Outcome(false, None, Fail(NotSelect))
    ensures query.Ok? && NormalizeQuery(query.value).Ok? && engine.None? ==>
      r == Fallback(true, SelectScript(NormalizeQuery(query.value).value), sqlplus)
  {
    match query
    case Err(e) => Outcome(false, None, Fail(e))
    case Ok(text) =>
      match NormalizeQuery(text)
      case Err(e) => Outcome(false, None, Fail(e))
      case Ok(q) => RunEnginesAsWritten(engine.GetOr(Auto), java, SelectScript(q), sqlplus)
  }

  /** `cmd_select` as written: configuration first. */
  function SelectCommand(env: map<string, string>, engine: Option<Engine>, query: Result<string>,
                         java: JavaRun, sqlplus: SqlplusRun): (r: Outcome)
    ensures OracleConfig(env).Err? ==> r == Outcome(false, None, Fail(OracleConfig(env).msg))
    ensures OracleConfig(env).Ok? && query.Ok? && NormalizeQuery(query.value).Ok? && engine.None? && sqlplus.SqlplusMissing? ==>
      r.exit == Fail(SqlplusNotFound)
  {
    match OracleConfig(env)
    case Err(e) => Outcome(false, None, Fail(e))
    case Ok(_) => SelectQuery(engine, query, java, sqlplus)
  }

  /** sqlplus only ever receives the script of a query that passed the gate,
      trimmed as the gate returns it. */
  lemma SelectScriptGated(engine: Option<Engine>, query: Result<string>, java: JavaRun, sqlplus: SqlplusRun)
    ensures var r := SelectQuery(engine, query, java, sqlplus);
      r.sqlplusScript.Some? ==>
        (query.Ok? && NormalizeQuery(query.value).Ok? &&
         r.sqlplusScript.value == SelectScript(NormalizeQuery(query.value).value))
  {
  }
}
