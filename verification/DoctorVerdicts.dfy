/** Which effect each doctor check runs, what becomes of its answer, and which answers pass, warn or fail. */
module DoctorVerdicts {
  import opened Prelude
  import opened Text
  import opened JsText
  import opened JsInt
  import opened Doctor

  // ----- one effect -----

  /** The effect answers before it is left: nothing was cancelled up to then, and no limit passed. */
  predicate InTime<T>(env: Env, now: nat, reply: Reply<T>) {
    && reply.takes.Some? && reply.takes.value <= CHECK_TIMEOUT
    && now < env.deadline && now + reply.takes.value <= env.deadline
    && (env.cancelAt.Some? ==> now + reply.takes.value < env.cancelAt.value)
  }

  /** The answer is used exactly if it comes in time. Without it the issue is a cancellation if that came
      first, else a deadline. */
  lemma AnswerIsUsed<T>(env: Env, c: Clock, effect: Effect, reply: Reply<T>)
    ensures var r := Bounded(env, c, effect, reply).0;
            var limit := if env.deadline <= c.now + CHECK_TIMEOUT then env.deadline else c.now + CHECK_TIMEOUT;
            && (InTime(env, c.now, reply) ==> r == reply.result)
            && (!InTime(env, c.now, reply) ==>
                  r == Err(if env.cancelAt.Some? && (env.cancelAt.value <= c.now
                              || (c.now < env.deadline && env.cancelAt.value <= limit
                                  && (reply.takes.Some? ==> env.cancelAt.value <= c.now + reply.takes.value)))
                           then Issue(Skipped, "cancelled") else Issue(Unknown, "deadline-exceeded")))
  {
  }

  // ----- which effects a check runs -----

  /** The effects that belong to a check. */
  predicate Belongs(env: Env, i: Item, e: Effect) {
    match i
    case EnvFile => exists p :: p in Candidates(env.config) && e == Exists(env.config.absolute(p))
    case JaitDir => e == Exists(env.config.jaitDir)
    case Database => e == Exists(env.config.database)
    case Node => e == Process(NodeVersion)
    case BunTool => e == Process(Bun)
    case PlaywrightTool => e == Process(Playwright)
    case GraphifyTool => e == Graphify
    case CodexTool => e == Process(Codex)
    case ClaudeTool => e == Process(Claude)
    case Gateway => PortOf(env.config).Some? && e == Health(PortOf(env.config).value)
  }

  /** The log goes on, by effects of the check. */
  ghost predicate Goes(env: Env, i: Item, c: Clock, d: Clock) {
    && |c.log| <= |d.log| && d.log[..|c.log|] == c.log
    && forall k :: |c.log| <= k < |d.log| ==> Belongs(env, i, d.log[k].effect)
  }

  lemma BoundedGoes<T>(env: Env, i: Item, c: Clock, effect: Effect, reply: Reply<T>)
    requires Belongs(env, i, effect)
    ensures Goes(env, i, c, Bounded(env, c, effect, reply).1)
  {
    hide Belongs;
  }

  lemma {:induction false} LookGoes(env: Env, candidates: seq<string>, c: Clock)
    requires forall p :: p in candidates ==> p in Candidates(env.config)
    ensures Goes(env, EnvFile, c, Look(env, candidates, c).1)
    decreases |candidates|
  {
    if candidates != [] {
      var path := env.config.absolute(candidates[0]);
      var reply := env.host.exists_(path, c.now);
      assert candidates[0] in candidates;
      assert Belongs(env, EnvFile, Exists(path));
      BoundedGoes(env, EnvFile, c, Exists(path), reply);
      hide Belongs, Bounded;
      var (r, d) := Bounded(env, c, Exists(path), reply);
      if r == Ok(false) {
        LookGoes(env, candidates[1..], d);
        var e := Look(env, candidates[1..], d).1;
        assert e.log[..|c.log|] == e.log[..|d.log|][..|c.log|];
        forall k | |c.log| <= k < |e.log| ensures Belongs(env, EnvFile, e.log[k].effect) {
          if k < |d.log| {
            assert e.log[k] == e.log[..|d.log|][k];
          }
        }
      }
    }
  }

  /** A check starts no effects but its own. */
  lemma OwnEffectsOnly(env: Env, i: Item, c: Clock)
    ensures Goes(env, i, c, RunItem(env, i, c).1)
  {
    hide Bounded, Look, Belongs, Goes, NodeVersionOf, OutputIssue, PortOf, Candidates;
    match i
    case EnvFile => LookGoes(env, Candidates(env.config), c);
    case JaitDir => OneGoes(env, i, c, Exists(env.config.jaitDir), env.host.exists_(env.config.jaitDir, c.now));
    case Database => OneGoes(env, i, c, Exists(env.config.database), env.host.exists_(env.config.database, c.now));
    case Node => OneGoes(env, i, c, Process(NodeVersion), env.host.process(NodeVersion, c.now));
    case BunTool => OneGoes(env, i, c, Process(Bun), env.host.process(Bun, c.now));
    case PlaywrightTool => OneGoes(env, i, c, Process(Playwright), env.host.process(Playwright, c.now));
    case GraphifyTool => OneGoes(env, i, c, Graphify, env.host.graphify(c.now));
    case CodexTool => OneGoes(env, i, c, Process(Codex), env.host.process(Codex, c.now));
    case ClaudeTool => OneGoes(env, i, c, Process(Claude), env.host.process(Claude, c.now));
    case Gateway =>
      if PortOf(env.config).Some? {
        var p := PortOf(env.config).value;
        OneGoes(env, i, c, Health(p), env.host.health(p, c.now));
      } else {
        NothingGoes(env, i, c);
      }
  }

  lemma OneGoes<T>(env: Env, i: Item, c: Clock, effect: Effect, reply: Reply<T>)
    requires match i
             case EnvFile => false
             case JaitDir => effect == Exists(env.config.jaitDir)
             case Database => effect == Exists(env.config.database)
             case Node => effect == Process(NodeVersion)
             case BunTool => effect == Process(Bun)
             case PlaywrightTool => effect == Process(Playwright)
             case GraphifyTool => effect == Graphify
             case CodexTool => effect == Process(Codex)
             case ClaudeTool => effect == Process(Claude)
             case Gateway => PortOf(env.config).Some? && effect == Health(PortOf(env.config).value)
    ensures Goes(env, i, c, Bounded(env, c, effect, reply).1)
  {
    hide PortOf, Goes;
    BoundedGoes(env, i, c, effect, reply);
  }

  lemma NothingGoes(env: Env, i: Item, c: Clock)
    ensures Goes(env, i, c, c)
  {
    hide Belongs;
    assert c.log[..|c.log|] == c.log;
  }

  // ----- the environment file -----

  /** What the effect for a candidate comes to at some time. */
  function AskFor(env: Env, candidate: string, c: Clock): (Result<bool, Issue>, Clock) {
    var path := env.config.absolute(candidate);
    Bounded(env, c, Exists(path), env.host.exists_(path, c.now))
  }

  /** The time after the first `k` candidates. */
  function TimeAfter(env: Env, candidates: seq<string>, k: nat, c: Clock): Clock
    requires k <= |candidates|
  {
    if k == 0 then c else AskFor(env, candidates[k - 1], TimeAfter(env, candidates, k - 1, c)).1
  }

  function AnswerAt(env: Env, candidates: seq<string>, k: nat, c: Clock): Result<bool, Issue>
    requires k < |candidates|
  {
    AskFor(env, candidates[k], TimeAfter(env, candidates, k, c)).0
  }

  lemma {:induction false} TimeAfterFirst(env: Env, candidates: seq<string>, k: nat, c: Clock)
    requires candidates != [] && k < |candidates|
    ensures TimeAfter(env, candidates, k + 1, c) == TimeAfter(env, candidates[1..], k, AskFor(env, candidates[0], c).1)
  {
    hide AskFor;
    if k > 0 {
      TimeAfterFirst(env, candidates, k - 1, c);
      assert candidates[1..][k - 1] == candidates[k];
    } else {
      assert TimeAfter(env, candidates, 0, c) == c;
    }
  }

  /** The search stops at the first candidate whose answer is not a plain no: found if it is a yes, stopped
      if it is an issue. */
  lemma {:induction false} LookMeans(env: Env, candidates: seq<string>, c: Clock)
    ensures match Look(env, candidates, c).0
            case Missing => forall k :: 0 <= k < |candidates| ==> AnswerAt(env, candidates, k, c) == Ok(false)
            case Found(p) =>
              exists k :: 0 <= k < |candidates| && candidates[k] == p && AnswerAt(env, candidates, k, c) == Ok(true)
                          && forall j :: 0 <= j < k ==> AnswerAt(env, candidates, j, c) == Ok(false)
            case Stopped(issue) =>
              exists k :: 0 <= k < |candidates| && AnswerAt(env, candidates, k, c) == Err(issue)
                          && forall j :: 0 <= j < k ==> AnswerAt(env, candidates, j, c) == Ok(false)
    decreases |candidates|
  {
    if candidates != [] {
      var (r, d) := AskFor(env, candidates[0], c);
      var rest := candidates[1..];
      assert AnswerAt(env, candidates, 0, c) == r;
      assert Look(env, candidates, c) == match r
                                         case Ok(true) => (Found(candidates[0]), d)
                                         case Ok(false) => Look(env, rest, d)
                                         case Err(issue) => (Stopped(issue), d);
      forall k | 0 <= k < |rest| ensures AnswerAt(env, candidates, k + 1, c) == AnswerAt(env, rest, k, d) {
        TimeAfterFirst(env, candidates, k, c);
      }
      if r == Ok(false) {
        LookMeans(env, rest, d);
        hide AskFor, TimeAfter, AnswerAt, Look;
        LookOn(env, candidates, c, d);
      }
    }
  }

  lemma LookOn(env: Env, candidates: seq<string>, c: Clock, d: Clock)
    requires candidates != [] && AnswerAt(env, candidates, 0, c) == Ok(false)
    requires forall k :: 0 <= k < |candidates| - 1 ==> AnswerAt(env, candidates, k + 1, c) == AnswerAt(env, candidates[1..], k, d)
    ensures forall k :: 0 <= k < |candidates| ==>
              AnswerAt(env, candidates, k, c) == if k == 0 then Ok(false) else AnswerAt(env, candidates[1..], k - 1, d)
  {
    hide AnswerAt;
    forall k | 0 < k < |candidates|
      ensures AnswerAt(env, candidates, k, c) == AnswerAt(env, candidates[1..], k - 1, d)
    {
      assert AnswerAt(env, candidates, (k - 1) + 1, c) == AnswerAt(env, candidates[1..], k - 1, d);
    }
  }

  /** The candidates are the given file, if there is one, then the ones of the project and of the home. */
  lemma CandidatesExactly(config: Config)
    ensures var c := Candidates(config);
            var given := config.envPath.Some? && config.envPath.value != "";
            && |c| == (if given then 3 else 2)
            && (given ==> c[0] == config.envPath.value)
            && c[|c| - 2] == config.cwdEnv && c[|c| - 1] == config.homeEnv
  {
  }

  // ----- the verdicts -----

  /** A check that could not be made: a warning with the issue, and no remedy. */
  predicate Undecided(check: Check, issue: Issue) {
    check.status == Warn && check.observation == issue.observation && check.issueCode == Some(issue.code) && check.fix == None
  }

  /** A check that was made. */
  predicate Decided(check: Check, status: Status, fix: Option<string>) {
    check.status == status && check.fix == fix && check.observation == Observed && check.issueCode == None
  }

  lemma EnvFileVerdict(env: Env, c: Clock)
    ensures var check := RunItem(env, EnvFile, c).0;
            check.id == "env-file"
            && match Look(env, Candidates(env.config), c).0
               case Found(_) => Decided(check, Pass, None)
               case Stopped(issue) => Undecided(check, issue)
               case Missing =>
                 if env.config.envPath == None || env.config.envPath == Some("") then Decided(check, Warn, Some("env-missing"))
                 else Decided(check, Fail, Some("env-configured-missing"))
  {
    hide Look, Candidates;
  }

  /** The two paths of the state: there, or not there, which is a warning. */
  lemma StateVerdict(env: Env, i: Item, c: Clock)
    requires i == JaitDir || i == Database
    ensures var path := if i == JaitDir then env.config.jaitDir else env.config.database;
            var check := RunItem(env, i, c).0;
            check.id == (if i == JaitDir then "jait-dir" else "database")
            && match Bounded(env, c, Exists(path), env.host.exists_(path, c.now)).0
               case Ok(true) => Decided(check, Pass, None)
               case Ok(false) => Decided(check, Warn, Some(if i == JaitDir then "state-directory-missing" else "database-missing"))
               case Err(issue) => Undecided(check, issue)
  {
    hide Bounded;
  }

  /** The process ended by itself with an exit code and without too much output. */
  predicate Clean(p: ProcessResult) {
    !p.cancelled && !p.timedOut && !p.truncated && p.outputLength <= 4096 && p.exitCode.Some?
  }

  /** The issue of a process that did not. */
  predicate Unclean(p: ProcessResult, issue: Issue) {
    if p.cancelled then issue == Issue(Skipped, "cancelled")
    else if p.timedOut then issue == Issue(Unknown, "process-timeout")
    else if p.truncated || p.outputLength > 4096 then issue == Issue(Unknown, "process-output-limit")
    else issue == Issue(Error, "process-signal")
  }

  function ProbeOf(i: Item): Probe {
    match i
    case BunTool => Bun
    case PlaywrightTool => Playwright
    case CodexTool => Codex
    case ClaudeTool => Claude
    case _ => NodeVersion
  }

  /** A tool is there if its probe exits with 0 and missing, which is a warning, if with 1. */
  lemma ToolVerdict(env: Env, i: Item, c: Clock)
    requires i == BunTool || i == PlaywrightTool || i == CodexTool || i == ClaudeTool
    ensures var check := RunItem(env, i, c).0;
            match Bounded(env, c, Process(ProbeOf(i)), env.host.process(ProbeOf(i), c.now)).0
            case Err(issue) => Undecided(check, issue)
            case Ok(p) =>
              && (Clean(p) && p.exitCode == Some(0) ==> Decided(check, Pass, None))
              && (Clean(p) && p.exitCode == Some(1) ==> check.fix.Some? && Decided(check, Warn, check.fix))
              && (Clean(p) && p.exitCode != Some(0) && p.exitCode != Some(1) ==> Undecided(check, Issue(Error, "probe-exit-error")))
              && (!Clean(p) ==> exists issue :: Unclean(p, issue) && Undecided(check, issue))
  {
    hide Bounded;
    var r := Bounded(env, c, Process(ProbeOf(i)), env.host.process(ProbeOf(i), c.now)).0;
    if r.Ok? && !Clean(r.value) {
      var issue := OutputIssue(r.value).value;
      assert Unclean(r.value, issue);
    }
  }

  /** The names and remedies of the tools. */
  lemma ToolNames(env: Env, c: Clock)
    ensures RunItem(env, BunTool, c).0.id == "bun" && RunItem(env, PlaywrightTool, c).0.id == "playwright"
    ensures RunItem(env, CodexTool, c).0.id == "provider-codex" && RunItem(env, ClaudeTool, c).0.id == "provider-claude-code"
    ensures RunItem(env, BunTool, c).0.fix in {None, Some("bun-install")}
    ensures RunItem(env, PlaywrightTool, c).0.fix in {None, Some("playwright-install")}
    ensures RunItem(env, CodexTool, c).0.fix in {None, Some("codex-install")}
    ensures RunItem(env, ClaudeTool, c).0.fix in {None, Some("claude-install")}
  {
    hide Bounded, OutputIssue;
  }

  /** The process printed a version, and nothing but white space around it. */
  predicate Prints(p: ProcessResult, v: string) {
    Clean(p) && p.exitCode == Some(0) && p.stdout.Some? && v == Trim(p.stdout.value, EcmaSpace) && IsVersion(v)
  }

  /** Why a process printed no version. */
  predicate NoVersion(p: ProcessResult, issue: Issue) {
    if !Clean(p) then Unclean(p, issue)
    else if p.exitCode != Some(0) then issue == Issue(Error, "node-probe-exit")
    else if p.stdout == None then issue == Issue(Error, "node-version-encoding")
    else issue == Issue(Unknown, "node-version-malformed")
  }

  /** Node passes with a version high enough, and fails with a lower one or without an executable. */
  lemma NodeVerdict(env: Env, c: Clock)
    ensures var check := RunItem(env, Node, c).0;
            check.id == "node-version"
            && match Bounded(env, c, Process(NodeVersion), env.host.process(NodeVersion, c.now)).0
               case Err(issue) =>
                 if issue.code == "executable-not-found" then Decided(check, Fail, Some("node-install")) else Undecided(check, issue)
               case Ok(p) =>
                 && (forall v :: Prints(p, v) ==>
                       if env.config.atLeast(v) then Decided(check, Pass, None) else Decided(check, Fail, Some("node-upgrade")))
                 && ((forall v :: !Prints(p, v)) ==> exists issue :: Undecided(check, issue) && NoVersion(p, issue))
  {
    hide Bounded, IsVersion, Trim;
    var r := Bounded(env, c, Process(NodeVersion), env.host.process(NodeVersion, c.now)).0;
    if r.Ok? {
      var n := NodeVersionOf(r.value);
      if n.Err? {
        assert Undecided(RunItem(env, Node, c).0, n.error) && NoVersion(r.value, n.error);
      } else {
        assert Prints(r.value, n.value);
      }
    }
  }

  lemma GraphifyVerdict(env: Env, c: Clock)
    ensures var check := RunItem(env, GraphifyTool, c).0;
            check.id == "graphify-runtime"
            && match Bounded(env, c, Graphify, env.host.graphify(c.now)).0
               case Ok(true) => Decided(check, Pass, None)
               case Ok(false) => Decided(check, Fail, Some("graphify-provision"))
               case Err(issue) => Undecided(check, issue)
  {
    hide Bounded;
  }

  /** The gateway: an invalid port fails without asking, no answer on a valid one is a warning. The port is
      the given one, else that of the environment, else 8000. */
  lemma GatewayVerdict(env: Env, c: Clock)
    ensures var config := env.config;
            var text := match config.port
                        case Some(p) => p
                        case None => match config.envPort case Some(p) => p case None => "8000";
            var (check, d) := RunItem(env, Gateway, c);
            check.id == "gateway-health"
            && match ParsePort(text, config.round)
               case None => Decided(check, Fail, Some("port-invalid")) && d == c
               case Some(p) =>
                 match Bounded(env, c, Health(p), env.host.health(p, c.now)).0
                 case Ok(true) => Decided(check, Pass, None)
                 case Ok(false) => Decided(check, Warn, Some("gateway-start"))
                 case Err(issue) => Undecided(check, issue)
  {
    hide Bounded, ParsePort;
  }

  // ----- versions -----

  /** Three numbers with dots between them. */
  function Numbers(a: nat, b: nat, c: nat): string {
    Padded(a, 1) + ['.'] + (Padded(b, 1) + ['.'] + Padded(c, 1))
  }

  predicate Plain(t: string) {
    forall k :: 0 <= k < |t| ==> IsDigit(t[k]) || t[k] == '.'
  }

  lemma ThreeSplit(x: string, y: string, z: string)
    requires '.' !in x && '.' !in y && '.' !in z
    ensures Split(x + ['.'] + (y + ['.'] + z), '.') == [x, y, z]
  {
    hide Split;
    SplitConcat(x, y + ['.'] + z, '.');
    SplitConcat(y, z, '.');
    SplitWhole(x, '.');
    SplitWhole(y, '.');
    SplitWhole(z, '.');
    assert [x] + ([y] + [z]) == [x, y, z];
  }

  lemma ThreePlain(x: string, y: string, z: string)
    requires AllDigits(x) && AllDigits(y) && AllDigits(z)
    ensures Plain(x + ['.'] + (y + ['.'] + z))
  {
  }

  /** Digits between dots, a `v` in front or not, and a tail after '-' or '+' are a version. */
  lemma VersionReads(v: bool, a: nat, b: nat, c: nat, tail: string)
    requires tail != "" ==> tail[0] == '-' || tail[0] == '+'
    requires forall i :: 0 <= i < |tail| ==> VersionChar(tail[i])
    requires 1 + |Numbers(a, b, c)| + |tail| <= 256
    ensures IsVersion((if v then ['v'] else []) + Numbers(a, b, c) + tail)
  {
    var x, y, z := Padded(a, 1), Padded(b, 1), Padded(c, 1);
    hide Padded;
    assert x != "" && y != "" && z != "" && AllDigits(x) && AllDigits(y) && AllDigits(z);
    assert Numbers(a, b, c) == x + ['.'] + (y + ['.'] + z);
    hide Numbers, IsVersion;
    ThreeParts(v, x, y, z, tail);
  }

  lemma ThreeParts(v: bool, x: string, y: string, z: string, tail: string)
    requires tail != "" ==> tail[0] == '-' || tail[0] == '+'
    requires forall i :: 0 <= i < |tail| ==> VersionChar(tail[i])
    requires x != "" && y != "" && z != "" && AllDigits(x) && AllDigits(y) && AllDigits(z)
    requires 1 + |x + ['.'] + (y + ['.'] + z)| + |tail| <= 256
    ensures IsVersion((if v then ['v'] else []) + (x + ['.'] + (y + ['.'] + z)) + tail)
  {
    ThreeSplit(x, y, z);
    ThreePlain(x, y, z);
    var numbers := x + ['.'] + (y + ['.'] + z);
    assert numbers[0] == x[0];
    var core := (if v then ['v'] else []) + numbers;
    CoreChars(v, numbers);
    CoreOf(core, tail);
    hide Core, Split, Plain;
    assert v ==> core[0] == 'v' && core[1..] == numbers;
    assert !v ==> core == numbers;
    var text := core + tail;
    assert forall i :: 0 <= i < |text| ==> VersionChar(text[i]);
  }

  lemma CoreChars(v: bool, numbers: string)
    requires Plain(numbers)
    ensures var core := (if v then ['v'] else []) + numbers;
            && '-' !in core && '+' !in core && forall i :: 0 <= i < |core| ==> VersionChar(core[i])
  {
  }

  lemma CoreOf(core: string, tail: string)
    requires '-' !in core && '+' !in core && (tail != "" ==> tail[0] == '-' || tail[0] == '+')
    ensures Core(core + tail) == core
  {
    SplitWhole(core, '-');
    SplitWhole(core, '+');
    if tail == "" {
      assert core + tail == core;
    } else if tail[0] == '-' {
      assert core + tail == core + ['-'] + tail[1..];
      SplitConcat(core, tail[1..], '-');
    } else {
      var before := Split(core + tail, '-')[0];
      FirstPiece(core, tail, '-');
      assert before[|core|..] != "" && before == core + ['+'] + before[|core| + 1..];
      SplitConcat(core, before[|core| + 1..], '+');
    }
  }

  /** The first piece goes at least to the first separator. */
  lemma {:induction false} FirstPiece(core: string, tail: string, sep: char)
    requires sep !in core && tail != "" && tail[0] != sep
    ensures var first := Split(core + tail, sep)[0];
            |first| > |core| && first[..|core|] == core && first[|core|] == tail[0]
    decreases |core|
  {
    if core == "" {
      assert core + tail == tail;
    } else {
      assert (core + tail)[1..] == core[1..] + tail;
      FirstPiece(core[1..], tail, sep);
    }
  }
}
