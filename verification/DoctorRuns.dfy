/** The doctor as it runs, and what every run promises. */
module DoctorRuns {
  import opened Prelude
  import opened Doctor

  // ----- the run -----

  class DoctorRun {
    const env: Env
    var now: nat
    ghost var log: seq<Started>
    var checks: seq<Check>

    ghost function View(): Clock
      reads this
    {
      Clock(now, log)
    }

    ghost function State(): (seq<Check>, Clock)
      reads this
    {
      (checks, View())
    }

    constructor (host: Host, config: Config, cancelAt: Option<nat>, start: nat)
      ensures env == Env(host, config, cancelAt, start + REPORT_TIMEOUT)
      ensures View() == Clock(start, []) && checks == []
    {
      env := Env(host, config, cancelAt, start + REPORT_TIMEOUT);
      now, log, checks := start, [], [];
    }

    /** Start an effect unless it is too late, and wait for the first of three things: cancellation, its
        answer, and the time limit. Cancellation goes first when two come at once. */
    method Await<T>(effect: Effect, reply: Reply<T>) returns (r: Result<T, Issue>)
      modifies this`now, this`log
      ensures (r, View()) == Bounded(env, old(View()), effect, reply)
    {
      if CancelledBy(env, now) {
        return Err(CANCELLED);
      }
      if env.deadline <= now {
        return Err(LATE);
      }
      var remaining := env.deadline - now;
      var limit := now + (if remaining <= CHECK_TIMEOUT then remaining else CHECK_TIMEOUT);
      var at := now;
      if reply.takes.Some? && at + reply.takes.value <= limit {
        r, now := reply.result, at + reply.takes.value;
      } else {
        r, now := Err(LATE), limit;
      }
      if CancelledBy(env, now) {
        r, now := Err(CANCELLED), env.cancelAt.value;
      }
      log := log + [Started(effect, at, now)];
    }

    method CheckEnvFile()
      modifies this`now, this`log, this`checks
      ensures State() == Then(env, old(State()), EnvFile)
    {
      var found: Option<string> := None;
      var envIssue: Option<Issue> := None;
      var candidates := Candidates(env.config);
      var i := 0;
      ghost var all := Look(env, candidates, View());
      while i < |candidates| && found == None && envIssue == None
        modifies this`now, this`log
        invariant i <= |candidates| && (found == None || envIssue == None)
        invariant found == None && envIssue == None ==> all == Look(env, candidates[i..], View())
        invariant found.Some? ==> all == (Found(found.value), View())
        invariant envIssue.Some? ==> all == (Stopped(envIssue.value), View())
      {
        var path := env.config.absolute(candidates[i]);
        assert candidates[i..][0] == candidates[i] && candidates[i..][1..] == candidates[i + 1..];
        var r := Await(Exists(path), env.host.exists_(path, now));
        match r {
          case Ok(there) =>
            if there {
              found := Some(candidates[i]);
            }
          case Err(issue) => envIssue := Some(issue);
        }
        i := i + 1;
      }
      var search :=
        if found.Some? then Found(found.value) else if envIssue.Some? then Stopped(envIssue.value) else Missing;
      checks := checks + [EnvCheck(env.config, search)];
    }

    method CheckState(i: Item, path: string, fix: string)
      requires (i == JaitDir && path == env.config.jaitDir && fix == "state-directory-missing")
            || (i == Database && path == env.config.database && fix == "database-missing")
      modifies this`now, this`log, this`checks
      ensures State() == Then(env, old(State()), i)
    {
      var r := Await(Exists(path), env.host.exists_(path, now));
      checks := checks + [StateCheck(IdOf(i), fix, r)];
    }

    method CheckNode()
      modifies this`now, this`log, this`checks
      ensures State() == Then(env, old(State()), Node)
    {
      var r := Await(Process(NodeVersion), env.host.process(NodeVersion, now));
      checks := checks + [NodeCheck(env.config, r)];
    }

    method Availability(i: Item, probe: Probe, fix: string)
      requires Tool(i, probe, fix)
      modifies this`now, this`log, this`checks
      ensures State() == Then(env, old(State()), i)
    {
      var r := Await(Process(probe), env.host.process(probe, now));
      checks := checks + [ToolCheck(IdOf(i), fix, r)];
    }

    method CheckGraphify()
      modifies this`now, this`log, this`checks
      ensures State() == Then(env, old(State()), GraphifyTool)
    {
      var r := Await(Graphify, env.host.graphify(now));
      checks := checks + [GraphifyCheck(r)];
    }

    method CheckGateway()
      modifies this`now, this`log, this`checks
      ensures State() == Then(env, old(State()), Gateway)
    {
      var port := PortOf(env.config);
      if port.Some? {
        var r := Await(Health(port.value), env.host.health(port.value, now));
        checks := checks + [StateCheck("gateway-health", "gateway-start", r)];
      } else {
        checks := checks + [Seen("gateway-health", Fail, Some("port-invalid"))];
      }
    }

    method Run() returns (r: Result<Report, Issue>)
      requires checks == []
      modifies this`now, this`log, this`checks
      ensures env.config.problem.Some? ==> r == Err(env.config.problem.value) && View() == old(View()) && checks == []
      ensures env.config.problem.None? ==>
        && State() == RunPlan(env, PLAN, old(View()))
        && r == Ok(ReportOf(checks))
    {
      hide RunItem, RunPlan, Then, Part, ReportOf, Tool;
      if env.config.problem.Some? {
        return Err(env.config.problem.value);
      }
      ghost var c := View();
      PlanStarts(env, c);
      PlanItems();
      Tools();
      CheckEnvFile();
      PlanStep(env, 0, c);
      CheckState(JaitDir, env.config.jaitDir, "state-directory-missing");
      PlanStep(env, 1, c);
      CheckState(Database, env.config.database, "database-missing");
      PlanStep(env, 2, c);
      CheckNode();
      PlanStep(env, 3, c);
      Availability(BunTool, Bun, "bun-install");
      PlanStep(env, 4, c);
      Availability(PlaywrightTool, Playwright, "playwright-install");
      PlanStep(env, 5, c);
      CheckGraphify();
      PlanStep(env, 6, c);
      Availability(CodexTool, Codex, "codex-install");
      PlanStep(env, 7, c);
      Availability(ClaudeTool, Claude, "claude-install");
      PlanStep(env, 8, c);
      CheckGateway();
      PlanStep(env, 9, c);
      r := Ok(ReportOf(checks));
    }
  }

  /** One more check. */
  function Then(env: Env, state: (seq<Check>, Clock), i: Item): (seq<Check>, Clock) {
    var (check, d) := RunItem(env, i, state.1);
    (state.0 + [check], d)
  }

  predicate Tool(i: Item, probe: Probe, fix: string) {
    match i
    case BunTool => probe == Bun && fix == "bun-install"
    case PlaywrightTool => probe == Playwright && fix == "playwright-install"
    case CodexTool => probe == Codex && fix == "codex-install"
    case ClaudeTool => probe == Claude && fix == "claude-install"
    case _ => false
  }

  lemma Tools()
    ensures Tool(BunTool, Bun, "bun-install") && Tool(PlaywrightTool, Playwright, "playwright-install")
    ensures Tool(CodexTool, Codex, "codex-install") && Tool(ClaudeTool, Claude, "claude-install")
  {
  }

  ghost function Part(env: Env, k: nat, c: Clock): (seq<Check>, Clock)
    requires k <= 10
  {
    RunPlan(env, PLAN[..k], c)
  }

  lemma PlanItems()
    ensures PLAN[0] == EnvFile && PLAN[1] == JaitDir && PLAN[2] == Database && PLAN[3] == Node && PLAN[4] == BunTool
    ensures PLAN[5] == PlaywrightTool && PLAN[6] == GraphifyTool && PLAN[7] == CodexTool && PLAN[8] == ClaudeTool
    ensures PLAN[9] == Gateway
  {
  }

  lemma PlanStarts(env: Env, c: Clock)
    ensures Part(env, 0, c) == ([], c)
  {
  }

  lemma PlanStep(env: Env, k: nat, c: Clock)
    requires k < 10
    ensures Part(env, k + 1, c) == Then(env, Part(env, k, c), PLAN[k])
    ensures k == 9 ==> Part(env, k + 1, c) == RunPlan(env, PLAN, c)
  {
    hide RunItem;
    assert PLAN[..k + 1][..k] == PLAN[..k];
    assert PLAN[..10] == PLAN;
  }

  // ----- time -----

  function Max(a: nat, b: nat): nat {
    if a >= b then a else b
  }

  /** An effect starts before the deadline and before any cancellation, and is left in time. */
  predicate InTime(env: Env, s: Started) {
    && s.at < env.deadline && !CancelledBy(env, s.at)
    && s.at <= s.until <= Min(s.at + CHECK_TIMEOUT, env.deadline)
    && (env.cancelAt.Some? ==> s.until <= env.cancelAt.value)
  }

  /** The effects so far are in time and one after another, and the clock stops at the deadline and at
      the cancellation. */
  ghost predicate Orderly(env: Env, start: nat, c: Clock) {
    && start <= c.now <= Max(start, env.deadline)
    && (env.cancelAt.Some? ==> c.now <= Max(start, env.cancelAt.value))
    && (forall k :: 0 <= k < |c.log| ==> InTime(env, c.log[k]) && start <= c.log[k].at && c.log[k].until <= c.now)
    && forall j, k :: 0 <= j < k < |c.log| ==> c.log[j].until <= c.log[k].at
  }

  lemma BoundedKeeps<T>(env: Env, start: nat, c: Clock, effect: Effect, reply: Reply<T>)
    requires Orderly(env, start, c)
    ensures var d := Bounded(env, c, effect, reply).1;
            Orderly(env, start, d) && |c.log| <= |d.log| <= |c.log| + 1
  {
  }

  lemma {:induction false} LookKeeps(env: Env, start: nat, candidates: seq<string>, c: Clock)
    requires Orderly(env, start, c)
    ensures var d := Look(env, candidates, c).1;
            Orderly(env, start, d) && |c.log| <= |d.log| <= |c.log| + |candidates|
    decreases |candidates|
  {
    hide Orderly, Bounded;
    if candidates != [] {
      var path := env.config.absolute(candidates[0]);
      var reply := env.host.exists_(path, c.now);
      BoundedKeeps(env, start, c, Exists(path), reply);
      if Bounded(env, c, Exists(path), reply).0 == Ok(false) {
        LookKeeps(env, start, candidates[1..], Bounded(env, c, Exists(path), reply).1);
      }
    }
  }

  lemma ItemKeeps(env: Env, start: nat, i: Item, c: Clock)
    requires Orderly(env, start, c)
    ensures var (check, d) := RunItem(env, i, c);
            && Orderly(env, start, d) && check.id == IdOf(i)
            && |d.log| <= |c.log| + (if i.EnvFile? then 3 else 1)
  {
    hide Orderly, Bounded, Look, NodeVersionOf, OutputIssue, PortOf;
    match i
    case EnvFile => LookKeeps(env, start, Candidates(env.config), c);
    case JaitDir => BoundedKeeps(env, start, c, Exists(env.config.jaitDir), env.host.exists_(env.config.jaitDir, c.now));
    case Database => BoundedKeeps(env, start, c, Exists(env.config.database), env.host.exists_(env.config.database, c.now));
    case Node => BoundedKeeps(env, start, c, Process(NodeVersion), env.host.process(NodeVersion, c.now));
    case BunTool => BoundedKeeps(env, start, c, Process(Bun), env.host.process(Bun, c.now));
    case PlaywrightTool => BoundedKeeps(env, start, c, Process(Playwright), env.host.process(Playwright, c.now));
    case GraphifyTool => BoundedKeeps(env, start, c, Graphify, env.host.graphify(c.now));
    case CodexTool => BoundedKeeps(env, start, c, Process(Codex), env.host.process(Codex, c.now));
    case ClaudeTool => BoundedKeeps(env, start, c, Process(Claude), env.host.process(Claude, c.now));
    case Gateway =>
      if PortOf(env.config).Some? {
        var p := PortOf(env.config).value;
        BoundedKeeps(env, start, c, Health(p), env.host.health(p, c.now));
      }
  }

  function EnvItems(plan: seq<Item>): nat {
    if plan == [] then 0 else EnvItems(plan[..|plan| - 1]) + if plan[|plan| - 1].EnvFile? then 1 else 0
  }

  lemma {:induction false} PlanKeeps(env: Env, start: nat, plan: seq<Item>, c: Clock)
    requires Orderly(env, start, c)
    ensures var (checks, d) := RunPlan(env, plan, c);
            && Orderly(env, start, d)
            && |checks| == |plan| && (forall k :: 0 <= k < |plan| ==> checks[k].id == IdOf(plan[k]))
            && |d.log| <= |c.log| + |plan| + 2 * EnvItems(plan)
  {
    hide Orderly, RunItem;
    if plan != [] {
      var front := plan[..|plan| - 1];
      PlanKeeps(env, start, front, c);
      ItemKeeps(env, start, plan[|plan| - 1], RunPlan(env, front, c).1);
    }
  }

  predicate FreshRun(env: Env, start: nat) {
    env.deadline == start + REPORT_TIMEOUT
  }

  /** Whatever the effects do and whenever it is cancelled: ten checks in their order, an end within
      thirty seconds and not after a cancellation, and at most twelve effects, all in time. */
  lemma EveryRun(env: Env, start: nat)
    requires FreshRun(env, start)
    ensures var (checks, d) := RunPlan(env, PLAN, Clock(start, []));
            && |checks| == 10 && (forall k :: 0 <= k < 10 ==> checks[k].id == IdOf(PLAN[k]))
            && start <= d.now <= start + REPORT_TIMEOUT
            && (env.cancelAt.Some? ==> d.now <= Max(start, env.cancelAt.value))
            && |d.log| <= 12
            && (forall k :: 0 <= k < |d.log| ==> InTime(env, d.log[k]))
            && forall j, k :: 0 <= j < k < |d.log| ==> d.log[j].until <= d.log[k].at
  {
    PlanKeeps(env, start, PLAN, Clock(start, []));
    OneEnvItem();
  }

  lemma OneEnvItem()
    ensures EnvItems(PLAN) == 1
  {
    var p := PLAN;
    assert p[..9][..8] == p[..8] && p[..8][..7] == p[..7] && p[..7][..6] == p[..6];
    assert p[..6][..5] == p[..5] && p[..5][..4] == p[..4] && p[..4][..3] == p[..3];
    assert p[..3][..2] == p[..2] && p[..2][..1] == p[..1] && p[..1][..0] == [];
    assert EnvItems([]) == 0;
    assert EnvItems(p[..1]) == 1;
    assert EnvItems(p[..2]) == 1;
    assert EnvItems(p[..3]) == 1;
    assert EnvItems(p[..4]) == 1;
    assert EnvItems(p[..5]) == 1;
    assert EnvItems(p[..6]) == 1;
    assert EnvItems(p[..7]) == 1;
    assert EnvItems(p[..8]) == 1;
    assert EnvItems(p[..9]) == 1;
  }

  // ----- the counts -----

  lemma {:induction false} CountsAdd(checks: seq<Check>)
    ensures CountOf(checks, Pass) + CountOf(checks, Warn) + CountOf(checks, Fail) == |checks|
    ensures CountOf(checks, Fail) == 0 <==> forall k :: 0 <= k < |checks| ==> checks[k].status != Fail
  {
    if checks != [] {
      var front := checks[..|checks| - 1];
      CountsAdd(front);
      assert forall k :: 0 <= k < |front| ==> front[k] == checks[k];
    }
  }

  /** The places of the checks with a status. */
  function Having(checks: seq<Check>, status: Status): set<nat> {
    set k: nat | k < |checks| && checks[k].status == status
  }

  lemma {:induction false} CountMeans(checks: seq<Check>, status: Status)
    ensures CountOf(checks, status) == |Having(checks, status)|
  {
    if checks != [] {
      var front, last := checks[..|checks| - 1], |checks| - 1;
      CountMeans(front, status);
      if checks[last].status == status {
        assert Having(checks, status) == Having(front, status) + {last};
      } else {
        assert Having(checks, status) == Having(front, status);
      }
    } else {
      assert Having(checks, status) == {};
    }
  }

  /** The three counts of a report make up its ten checks, and it is ok exactly when none failed. */
  lemma EveryReport(env: Env, start: nat)
    requires FreshRun(env, start)
    ensures var checks := RunPlan(env, PLAN, Clock(start, [])).0;
            var r := ReportOf(checks);
            && r.passes + r.warnings + r.failures == 10
            && r.passes == |Having(checks, Pass)| && r.warnings == |Having(checks, Warn)| && r.failures == |Having(checks, Fail)|
            && (r.ok <==> forall k :: 0 <= k < |checks| ==> checks[k].status != Fail)
  {
    EveryRun(env, start);
    var checks := RunPlan(env, PLAN, Clock(start, [])).0;
    hide RunPlan;
    CountsAdd(checks);
    CountMeans(checks, Pass);
    CountMeans(checks, Warn);
    CountMeans(checks, Fail);
  }

  // ----- answers -----

  /** The last effect of `c` answered before it was left. */
  predicate LastAnswered(env: Env, c: Clock) {
    && |c.log| > 0
    && var s := c.log[|c.log| - 1];
       match s.effect
       case Exists(p) => env.host.exists_(p, s.at).takes == Some(s.until - s.at)
       case Process(p) => env.host.process(p, s.at).takes == Some(s.until - s.at)
       case Graphify => env.host.graphify(s.at).takes == Some(s.until - s.at)
       case Health(p) => env.host.health(p, s.at).takes == Some(s.until - s.at)
  }

  lemma BoundedAnswers<T>(env: Env, c: Clock, effect: Effect, reply: Reply<T>)
    requires Bounded(env, c, effect, reply).0.Ok?
    ensures var d := Bounded(env, c, effect, reply).1;
            && |d.log| == |c.log| + 1
            && var s := d.log[|d.log| - 1];
               s.effect == effect && s.at == c.now && reply.takes == Some(s.until - s.at)
  {
  }

  lemma {:induction false} LookAnswers(env: Env, candidates: seq<string>, c: Clock)
    requires Look(env, candidates, c).0.Found?
    ensures var d := Look(env, candidates, c).1; |d.log| > |c.log| && LastAnswered(env, d)
    decreases |candidates|
  {
    hide Bounded;
    var path := env.config.absolute(candidates[0]);
    var reply := env.host.exists_(path, c.now);
    BoundedAnswers(env, c, Exists(path), reply);
    if Bounded(env, c, Exists(path), reply).0 == Ok(false) {
      LookAnswers(env, candidates[1..], Bounded(env, c, Exists(path), reply).1);
    }
  }

  /** No check passes unless an effect of its own was started and answered in time. */
  lemma NoPassWithoutAnswer(env: Env, i: Item, c: Clock)
    requires RunItem(env, i, c).0.status == Pass
    ensures var d := RunItem(env, i, c).1; |d.log| > |c.log| && LastAnswered(env, d)
  {
    hide Bounded, Look, NodeVersionOf, OutputIssue, PortOf;
    match i
    case EnvFile => LookAnswers(env, Candidates(env.config), c);
    case JaitDir => BoundedAnswers(env, c, Exists(env.config.jaitDir), env.host.exists_(env.config.jaitDir, c.now));
    case Database => BoundedAnswers(env, c, Exists(env.config.database), env.host.exists_(env.config.database, c.now));
    case Node => BoundedAnswers(env, c, Process(NodeVersion), env.host.process(NodeVersion, c.now));
    case BunTool => BoundedAnswers(env, c, Process(Bun), env.host.process(Bun, c.now));
    case PlaywrightTool => BoundedAnswers(env, c, Process(Playwright), env.host.process(Playwright, c.now));
    case GraphifyTool => BoundedAnswers(env, c, Graphify, env.host.graphify(c.now));
    case CodexTool => BoundedAnswers(env, c, Process(Codex), env.host.process(Codex, c.now));
    case ClaudeTool => BoundedAnswers(env, c, Process(Claude), env.host.process(Claude, c.now));
    case Gateway =>
      var p := PortOf(env.config).value;
      BoundedAnswers(env, c, Health(p), env.host.health(p, c.now));
  }

  // ----- cancellation -----

  lemma BoundedCancelled<T>(env: Env, c: Clock, effect: Effect, reply: Reply<T>)
    requires CancelledBy(env, c.now)
    ensures Bounded(env, c, effect, reply) == (Err(CANCELLED), c)
  {
  }

  /** Once cancelled, a check starts nothing and is skipped; only an invalid port still fails. */
  lemma ItemCancelled(env: Env, i: Item, c: Clock)
    requires CancelledBy(env, c.now)
    ensures RunItem(env, i, c) ==
            (if i == Gateway && PortOf(env.config).None? then Seen(IdOf(i), Fail, Some("port-invalid"))
             else Incomplete(IdOf(i), CANCELLED), c)
  {
    hide PortOf;
    if i == EnvFile {
      var cs := Candidates(env.config);
      BoundedCancelled(env, c, Exists(env.config.absolute(cs[0])), env.host.exists_(env.config.absolute(cs[0]), c.now));
    }
  }

  lemma {:induction false} PlanCancelled(env: Env, plan: seq<Item>, c: Clock)
    requires CancelledBy(env, c.now)
    ensures var (checks, d) := RunPlan(env, plan, c);
            && d == c && |checks| == |plan|
            && forall k :: 0 <= k < |plan| ==> checks[k] == RunItem(env, plan[k], c).0
  {
    hide RunItem;
    if plan != [] {
      PlanCancelled(env, plan[..|plan| - 1], c);
      ItemCancelled(env, plan[|plan| - 1], c);
    }
  }

  /** A run that is cancelled before it starts touches nothing and takes no time, and is ok exactly
      when the port is valid. */
  lemma CancelledRun(env: Env, start: nat)
    requires CancelledBy(env, start)
    ensures var (checks, d) := RunPlan(env, PLAN, Clock(start, []));
            && d == Clock(start, [])
            && (ReportOf(checks).ok <==> PortOf(env.config).Some?)
  {
    hide RunItem, PortOf;
    var c := Clock(start, []);
    PlanCancelled(env, PLAN, c);
    var checks := RunPlan(env, PLAN, c).0;
    CountsAdd(checks);
    forall k | 0 <= k < 10 ensures checks[k].status == Fail <==> PLAN[k] == Gateway && PortOf(env.config).None? {
      ItemCancelled(env, PLAN[k], c);
    }
    assert PLAN[9] == Gateway;
  }
}
