/**
 The doctor of `packages/gateway-rust/src/cli_doctor.rs`: ten checks in a fixed order, each of which
 may run effects on the host under a time limit, a report deadline and a cancellation. What an
 effect answers, and how long it takes, is any function of the effect and of the time it starts.
 Times are milliseconds; the program's own steps take none.
 */
module Doctor {
  import opened Prelude
  import opened Text
  import opened JsText
  import opened JsInt

  const CHECK_TIMEOUT: nat := 3_000
  const REPORT_TIMEOUT: nat := 30_000
  const OUTPUT_LIMIT: nat := 4096

  datatype Status = Pass | Warn | Fail

  datatype Observation = Observed | Skipped | Unknown | Error

  datatype Issue = Issue(observation: Observation, code: string)

  const CANCELLED := Issue(Skipped, "cancelled")
  const LATE := Issue(Unknown, "deadline-exceeded")

  /** A check without its wording; `fix` is the code of the remedy it names. */
  datatype Check = Check(id: string, status: Status, observation: Observation, issueCode: Option<string>, fix: Option<string>)

  function Seen(id: string, status: Status, fix: Option<string>): Check {
    Check(id, status, Observed, None, fix)
  }

  function Incomplete(id: string, issue: Issue): Check {
    Check(id, Warn, issue.observation, Some(issue.code), None)
  }

  // ----- the host -----

  datatype Probe = NodeVersion | Bun | Playwright | Codex | Claude

  /** `stdout` is None when the output is not UTF-8. */
  datatype ProcessResult = ProcessResult(
    cancelled: bool, timedOut: bool, truncated: bool, outputLength: nat, exitCode: Option<int>, stdout: Option<string>)

  /** When an effect answers, and what; `takes` is None when it never does. */
  datatype Reply<T> = Reply(takes: Option<nat>, result: Result<T, Issue>)

  datatype Effect = Exists(path: string) | Process(probe: Probe) | Graphify | Health(port: int)

  datatype Host = Host(
    exists_: (string, nat) -> Reply<bool>,
    process: (Probe, nat) -> Reply<ProcessResult>,
    graphify: nat -> Reply<bool>,
    health: (int, nat) -> Reply<bool>)

  /** `absolute` resolves a path, `atLeast` compares a version with the least one asked for, `round` is
      the rounding of the port parser, and `problem` is what validation found. */
  datatype Config = Config(
    problem: Option<Issue>,
    envPath: Option<string>,
    cwdEnv: string,
    homeEnv: string,
    jaitDir: string,
    database: string,
    port: Option<string>,
    envPort: Option<string>,
    absolute: string -> string,
    atLeast: string -> bool,
    round: nat -> nat)

  datatype Env = Env(host: Host, config: Config, cancelAt: Option<nat>, deadline: nat)

  // ----- one effect -----

  datatype Started = Started(effect: Effect, at: nat, until: nat)

  /** The time, and every effect started so far with the time it was left. */
  datatype Clock = Clock(now: nat, log: seq<Started>)

  predicate CancelledBy(env: Env, time: nat) {
    env.cancelAt.Some? && env.cancelAt.value <= time
  }

  function Min(a: nat, b: nat): nat {
    if a <= b then a else b
  }

  function Bounded<T>(env: Env, c: Clock, effect: Effect, reply: Reply<T>): (Result<T, Issue>, Clock) {
    if CancelledBy(env, c.now) then (Err(CANCELLED), c)
    else if env.deadline <= c.now then (Err(LATE), c)
    else
      var limit := c.now + Min(env.deadline - c.now, CHECK_TIMEOUT);
      var answers := reply.takes.Some? && c.now + reply.takes.value <= limit;
      var end := if answers then c.now + reply.takes.value else limit;
      if CancelledBy(env, end) then
        (Err(CANCELLED), Clock(env.cancelAt.value, c.log + [Started(effect, c.now, env.cancelAt.value)]))
      else
        (if answers then reply.result else Err(LATE), Clock(end, c.log + [Started(effect, c.now, end)]))
  }

  // ----- the checks -----

  datatype Item = EnvFile | JaitDir | Database | Node | BunTool | PlaywrightTool | GraphifyTool | CodexTool | ClaudeTool | Gateway

  const PLAN: seq<Item> :=
    [EnvFile, JaitDir, Database, Node, BunTool, PlaywrightTool, GraphifyTool, CodexTool, ClaudeTool, Gateway]

  function IdOf(i: Item): string {
    match i
    case EnvFile => "env-file"
    case JaitDir => "jait-dir"
    case Database => "database"
    case Node => "node-version"
    case BunTool => "bun"
    case PlaywrightTool => "playwright"
    case GraphifyTool => "graphify-runtime"
    case CodexTool => "provider-codex"
    case ClaudeTool => "provider-claude-code"
    case Gateway => "gateway-health"
  }

  function Candidates(config: Config): seq<string> {
    (if config.envPath.Some? && config.envPath.value != "" then [config.envPath.value] else [])
    + [config.cwdEnv, config.homeEnv]
  }

  datatype Search = Found(path: string) | Stopped(issue: Issue) | Missing

  /** Look for the candidates in turn until one is there or an effect has an issue. */
  function Look(env: Env, candidates: seq<string>, c: Clock): (Search, Clock)
    decreases |candidates|
  {
    if candidates == [] then (Missing, c)
    else
      var path := env.config.absolute(candidates[0]);
      var (r, d) := Bounded(env, c, Exists(path), env.host.exists_(path, c.now));
      match r
      case Ok(true) => (Found(candidates[0]), d)
      case Ok(false) => Look(env, candidates[1..], d)
      case Err(issue) => (Stopped(issue), d)
  }

  function EnvCheck(config: Config, search: Search): Check {
    match search
    case Found(_) => Seen("env-file", Pass, None)
    case Stopped(issue) => Incomplete("env-file", issue)
    case Missing =>
      if config.envPath.Some? && config.envPath.value != "" then Seen("env-file", Fail, Some("env-configured-missing"))
      else Seen("env-file", Warn, Some("env-missing"))
  }

  function StateCheck(id: string, fix: string, r: Result<bool, Issue>): Check {
    match r
    case Ok(there) => if there then Seen(id, Pass, None) else Seen(id, Warn, Some(fix))
    case Err(issue) => Incomplete(id, issue)
  }

  function OutputIssue(p: ProcessResult): Option<Issue> {
    if p.cancelled then Some(CANCELLED)
    else if p.timedOut then Some(Issue(Unknown, "process-timeout"))
    else if p.truncated || p.outputLength > OUTPUT_LIMIT then Some(Issue(Unknown, "process-output-limit"))
    else if p.exitCode.None? then Some(Issue(Error, "process-signal"))
    else None
  }

  predicate VersionChar(c: char) {
    IsDigit(c) || 'a' <= c <= 'z' || 'A' <= c <= 'Z' || c == '.' || c == '-' || c == '+'
  }

  /** The text before the first of two characters. */
  function Core(v: string): string {
    Split(Split(v, '-')[0], '+')[0]
  }

  predicate IsVersion(v: string) {
    var core := Core(v);
    var parts := Split(if core != "" && core[0] == 'v' then core[1..] else core, '.');
    && |v| <= 256 && (forall i :: 0 <= i < |v| ==> VersionChar(v[i]))
    && |parts| == 3 && forall i :: 0 <= i < 3 ==> parts[i] != "" && AllDigits(parts[i])
  }

  function NodeVersionOf(p: ProcessResult): Result<string, Issue> {
    var issue := OutputIssue(p);
    if issue.Some? then Err(issue.value)
    else if p.exitCode != Some(0) then Err(Issue(Error, "node-probe-exit"))
    else if p.stdout.None? then Err(Issue(Error, "node-version-encoding"))
    else
      var v := Trim(p.stdout.value, EcmaSpace);
      if IsVersion(v) then Ok(v) else Err(Issue(Unknown, "node-version-malformed"))
  }

  function NodeCheck(config: Config, r: Result<ProcessResult, Issue>): Check {
    match r
    case Ok(p) =>
      (match NodeVersionOf(p)
       case Ok(v) => if config.atLeast(v) then Seen("node-version", Pass, None) else Seen("node-version", Fail, Some("node-upgrade"))
       case Err(issue) => Incomplete("node-version", issue))
    case Err(issue) =>
      if issue.code == "executable-not-found" then Seen("node-version", Fail, Some("node-install"))
      else Incomplete("node-version", issue)
  }

  function ToolCheck(id: string, fix: string, r: Result<ProcessResult, Issue>): Check {
    match r
    case Ok(p) =>
      var issue := OutputIssue(p);
      if issue.Some? then Incomplete(id, issue.value)
      else if p.exitCode == Some(0) then Seen(id, Pass, None)
      else if p.exitCode == Some(1) then Seen(id, Warn, Some(fix))
      else Incomplete(id, Issue(Error, "probe-exit-error"))
    case Err(issue) => Incomplete(id, issue)
  }

  function GraphifyCheck(r: Result<bool, Issue>): Check {
    match r
    case Ok(ready) => if ready then Seen("graphify-runtime", Pass, None) else Seen("graphify-runtime", Fail, Some("graphify-provision"))
    case Err(issue) => Incomplete("graphify-runtime", issue)
  }

  function PortText(config: Config): string {
    if config.port.Some? then config.port.value
    else if config.envPort.Some? then config.envPort.value
    else "8000"
  }

  function PortOf(config: Config): Option<int> {
    ParsePort(PortText(config), config.round)
  }

  /** What one check finds, and the time after it. */
  function RunItem(env: Env, i: Item, c: Clock): (Check, Clock) {
    match i
    case EnvFile =>
      var (s, d) := Look(env, Candidates(env.config), c);
      (EnvCheck(env.config, s), d)
    case JaitDir =>
      var (r, d) := Bounded(env, c, Exists(env.config.jaitDir), env.host.exists_(env.config.jaitDir, c.now));
      (StateCheck("jait-dir", "state-directory-missing", r), d)
    case Database =>
      var (r, d) := Bounded(env, c, Exists(env.config.database), env.host.exists_(env.config.database, c.now));
      (StateCheck("database", "database-missing", r), d)
    case Node =>
      var (r, d) := Bounded(env, c, Process(NodeVersion), env.host.process(NodeVersion, c.now));
      (NodeCheck(env.config, r), d)
    case BunTool =>
      var (r, d) := Bounded(env, c, Process(Bun), env.host.process(Bun, c.now));
      (ToolCheck("bun", "bun-install", r), d)
    case PlaywrightTool =>
      var (r, d) := Bounded(env, c, Process(Playwright), env.host.process(Playwright, c.now));
      (ToolCheck("playwright", "playwright-install", r), d)
    case GraphifyTool =>
      var (r, d) := Bounded(env, c, Graphify, env.host.graphify(c.now));
      (GraphifyCheck(r), d)
    case CodexTool =>
      var (r, d) := Bounded(env, c, Process(Codex), env.host.process(Codex, c.now));
      (ToolCheck("provider-codex", "codex-install", r), d)
    case ClaudeTool =>
      var (r, d) := Bounded(env, c, Process(Claude), env.host.process(Claude, c.now));
      (ToolCheck("provider-claude-code", "claude-install", r), d)
    case Gateway =>
      (match PortOf(env.config)
       case Some(p) =>
         var (r, d) := Bounded(env, c, Health(p), env.host.health(p, c.now));
         (StateCheck("gateway-health", "gateway-start", r), d)
       case None => (Seen("gateway-health", Fail, Some("port-invalid")), c))
  }

  /** The checks of a plan, one after another. */
  function RunPlan(env: Env, plan: seq<Item>, c: Clock): (seq<Check>, Clock) {
    if plan == [] then ([], c)
    else
      var (front, d) := RunPlan(env, plan[..|plan| - 1], c);
      var (last, e) := RunItem(env, plan[|plan| - 1], d);
      (front + [last], e)
  }

  function CountOf(checks: seq<Check>, status: Status): nat {
    if checks == [] then 0
    else CountOf(checks[..|checks| - 1], status) + if checks[|checks| - 1].status == status then 1 else 0
  }

  datatype Report = Report(checks: seq<Check>, ok: bool, passes: nat, warnings: nat, failures: nat)

  function ReportOf(checks: seq<Check>): Report {
    var failures := CountOf(checks, Fail);
    Report(checks, failures == 0, CountOf(checks, Pass), CountOf(checks, Warn), failures)
  }
}
