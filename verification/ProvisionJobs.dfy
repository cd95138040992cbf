/**
  Provisioning jobs (src/lib/super-admin.ts): the job status machine, the two-person rule, and
  the execution of a plan step by step through the daemon (ops/mc-provisioner-daemon.js,
  src/lib/provisioner-client.ts) or through sudo (src/lib/command.ts).

  A machine step is one stretch between awaits. Runners of different jobs interleave freely and
  a crash may drop all of them at any point.
 */
module ProvisionJobs {
  import AllowList
  import opened Options

  // ---- Running one command ----------------------------------------------------

  /** How a spawned process ends; `locked` says its stderr names the passwd lock. */
  datatype Child = Closed(code: Option<int>, timedOut: bool, locked: bool) | SpawnError

  datatype RunResult = RunResult(ok: bool, code: Option<int>, locked: bool)

  /** run() of the daemon */
  function DaemonRun(c: Child): RunResult {
    match c
    case Closed(code, timedOut, locked) =>
      RunResult(!timedOut && code == Some(0), if timedOut then Some(124) else code, locked)
    case SpawnError => RunResult(false, Some(1), false)
  }

  /** What the daemon reports of a process: ok only for a clean exit, 124 for a timeout, 1 for no process. */
  lemma DaemonRunExactly(c: Child)
    ensures DaemonRun(c).ok <==> CleanExit(c)
    ensures c.Closed? ==> DaemonRun(c).code == (if c.timedOut then Some(124) else c.code)
    ensures c.SpawnError? ==> DaemonRun(c) == RunResult(false, Some(1), false)
  {
  }

  predicate Transient(command: string, r: RunResult) {
    !r.ok && AllowList.CommandName(command) == "useradd" && r.locked
  }

  function MaxAttempts(command: string): (n: nat)
    ensures 1 <= n <= 6
  {
    if AllowList.CommandName(command) == "useradd" then 6 else 1
  }

  /** The result that ends the retries: the first that is not a lock failure, or the last one. */
  function Settled(command: string, children: seq<Child>): RunResult
    requires |children| >= 1
  {
    var r := DaemonRun(children[0]);
    if |children| == 1 || !Transient(command, r) then r else Settled(command, children[1..])
  }

  method RunWithRetry(command: string, children: seq<Child>) returns (last: RunResult, used: nat)
    requires |children| == MaxAttempts(command)
    ensures 1 <= used <= MaxAttempts(command)
    ensures last == DaemonRun(children[used - 1]) == Settled(command, children)
    ensures forall k | 0 <= k < used - 1 :: Transient(command, DaemonRun(children[k]))
    ensures last.ok || !Transient(command, last) || used == MaxAttempts(command)
  {
    var attempt := 1;
    while true
      invariant 1 <= attempt <= MaxAttempts(command)
      invariant forall k | 0 <= k < attempt - 1 :: Transient(command, DaemonRun(children[k]))
      invariant Settled(command, children) == Settled(command, children[attempt - 1..])
      decreases MaxAttempts(command) - attempt
    {
      last := DaemonRun(children[attempt - 1]);
      if last.ok || !Transient(command, last) || attempt == MaxAttempts(command) {
        return last, attempt;
      }
      assert children[attempt - 1..][1..] == children[attempt..];
      attempt := attempt + 1;
    }
  }

  /** How the attempts at a command end, as many as any command may take. */
  type Children = c: seq<Child> | |c| == 6
    witness [SpawnError, SpawnError, SpawnError, SpawnError, SpawnError, SpawnError]

  datatype Response = Response(ok: bool, code: Option<int>, skipped: bool)

  /** The daemon's answer to one request. */
  function Answer(env: AllowList.Env, command: string, args: seq<string>, dryRun: bool, children: Children): Response {
    if AllowList.ValidateCommand(env, command, args) != AllowList.Accepted then Response(false, None, false)
    else if dryRun then Response(true, Some(0), true)
    else
      var r := Settled(command, children[..MaxAttempts(command)]);
      Response(r.ok, r.code, false)
  }

  datatype StepOutcome = Thrown | Result(code: int, skipped: bool)

  /** What the world answers while a step runs. */
  datatype World = World(env: AllowList.Env, daemonMode: bool, reachable: bool, children: Children)

  datatype JobStep = JobStep(key: string, command: string, args: seq<string>, requiresRoot: bool)

  /** runProvisionStep, through the socket client or through runCommand. */
  function RunStep(step: JobStep, dryRun: bool, w: World): StepOutcome {
    if step.command == "" then Thrown
    else if step.requiresRoot && w.daemonMode then
      var a := Answer(w.env, step.command, step.args, dryRun, w.children);
      if !w.reachable || !a.ok then Thrown
      else Result(if a.code.Some? then a.code.value else 1, a.skipped)
    else if dryRun then Result(0, true)
    else if w.children[0].Closed? && w.children[0].code == Some(0) then Result(0, false)
    else Thrown
  }

  lemma {:induction false} SettledOkIsZero(command: string, children: seq<Child>)
    requires |children| >= 1 && Settled(command, children).ok
    ensures Settled(command, children).code == Some(0)
  {
    if |children| > 1 && Transient(command, DaemonRun(children[0])) {
      SettledOkIsZero(command, children[1..]);
    }
  }

  /** The process ended by itself with exit code 0. */
  predicate CleanExit(c: Child) {
    c.Closed? && c.code == Some(0) && !c.timedOut
  }

  predicate LockFailure(c: Child) {
    c.Closed? && c.locked && !CleanExit(c)
  }

  /** Some attempt ends well after nothing but lock failures; only useradd has more than one. */
  ghost predicate EndsWell(command: string, children: Children) {
    exists k :: 0 <= k < (if AllowList.Names(command, "useradd") then 6 else 1)
           && CleanExit(children[k]) && forall j | 0 <= j < k :: LockFailure(children[j])
  }

  ghost predicate Succeeds(children: seq<Child>) {
    exists k :: 0 <= k < |children| && CleanExit(children[k]) && forall j | 0 <= j < k :: LockFailure(children[j])
  }

  lemma {:induction false} SettledSucceeds(command: string, children: seq<Child>)
    requires |children| >= 1 && (AllowList.CommandName(command) == "useradd" || |children| == 1)
    ensures Settled(command, children).ok <==> Succeeds(children)
  {
    hide AllowList.CommandName;
    if |children| > 1 {
      var rest := children[1..];
      SettledSucceeds(command, rest);
      if Succeeds(rest) && LockFailure(children[0]) {
        var k :| 0 <= k < |rest| && CleanExit(rest[k]) && forall j | 0 <= j < k :: LockFailure(rest[j]);
        assert CleanExit(children[k + 1]);
        assert forall j | 0 < j < k + 1 :: children[j] == rest[j - 1];
      }
      if Succeeds(children) && !CleanExit(children[0]) {
        var k :| 0 <= k < |children| && CleanExit(children[k]) && forall j | 0 <= j < k :: LockFailure(children[j]);
        assert CleanExit(rest[k - 1]) && LockFailure(children[0]);
        assert forall j | 0 <= j < k - 1 :: rest[j] == children[j + 1];
      }
    }
  }

  lemma SettledEndsWell(command: string, children: Children)
    ensures Settled(command, children[..MaxAttempts(command)]).ok <==> EndsWell(command, children)
  {
    hide AllowList.CommandName, AllowList.Names, Settled;
    AllowList.NamesExactly(command, "useradd");
    SettledSucceeds(command, children[..MaxAttempts(command)]);
    assert forall k | 0 <= k < MaxAttempts(command) :: children[..MaxAttempts(command)][k] == children[k];
    if EndsWell(command, children) {
      var k :| 0 <= k < MaxAttempts(command) && CleanExit(children[k])
            && forall j | 0 <= j < k :: LockFailure(children[j]);
      assert CleanExit(children[..MaxAttempts(command)][k]);
    }
  }

  /**
    The step goes through: through the daemon if it answers, permits the command and, in a live
    run, the command ends well; through sudo if the process exits with code 0; a dry run outside
    the daemon always.
   */
  ghost predicate Works(step: JobStep, dryRun: bool, w: World) {
    && step.command != ""
    && if step.requiresRoot && w.daemonMode then
         w.reachable && AllowList.Permitted(w.env, step.command, step.args)
         && (dryRun || EndsWell(step.command, w.children))
       else
         dryRun || (w.children[0].Closed? && w.children[0].code == Some(0))
  }

  /** A step that works has exit code 0 and was skipped exactly in a dry run; any other step throws. */
  lemma StepExactly(step: JobStep, dryRun: bool, w: World)
    ensures RunStep(step, dryRun, w) == if Works(step, dryRun, w) then Result(0, dryRun) else Thrown
  {
    hide AllowList.ValidateCommand, AllowList.CommandName, AllowList.Permitted, EndsWell, Settled;
    if step.requiresRoot && w.daemonMode {
      AllowList.CommandsExactly(w.env, step.command, step.args);
      SettledEndsWell(step.command, w.children);
      if EndsWell(step.command, w.children) {
        SettledOkIsZero(step.command, w.children[..MaxAttempts(step.command)]);
      }
    }
  }

  // ---- State ------------------------------------------------------------------

  datatype Status = Queued | Approved | Running | Completed | Failed | Rejected | Cancelled

  datatype StepResult = StepResult(key: string, ok: bool, skipped: bool)

  datatype Job = Job(
    status: Status, dryRun: bool, requestDryRun: bool, requestedBy: string, approvedBy: string,
    bootstrap: bool, plan: seq<JobStep>, result: Option<seq<StepResult>>)

  datatype Runner = Runner(
    job: nat, actor: string, allowExec: bool, dryRun: bool, plan: seq<JobStep>, done: seq<StepResult>)

  datatype LogEntry = ApprovedBy(job: nat, actor: string) | Started(job: nat, approver: string, actor: string)

  datatype State = State(jobs: map<nat, Job>, runners: map<nat, Runner>, log: seq<LogEntry>)

  datatype Action = Approve | Reject | Cancel

  datatype Event =
    | Create(job: nat, dryRun: bool, requestDryRun: bool, requestedBy: string, bootstrap: bool, plan: seq<JobStep>)
    | Transition(job: nat, actor: string, action: Action)
    | Start(job: nat, actor: string, runner: nat, allowExec: bool, artifactsOk: bool)
    | Advance(runner: nat, world: World)
    | Crash

  const EMPTY := State(map[], map[], [])

  // ---- Steps ------------------------------------------------------------------

  predicate Allowed(status: Status, action: Action) {
    match action
    case Approve => status == Queued || status == Rejected || status == Failed
    case Reject => status == Queued || status == Approved || status == Failed
    case Cancel => status == Queued || status == Approved || status == Failed || status == Rejected
  }

  function Transitioned(j: Job, actor: string, action: Action): Job {
    match action
    case Approve => j.(status := Approved, approvedBy := actor)
    case Reject => j.(status := Rejected)
    case Cancel => j.(status := Cancelled)
  }

  /** The checks of executeProvisionJob before the job is marked running. */
  predicate MayStart(j: Job, actor: string, artifactsOk: bool) {
    && j.status == Approved
    && j.plan != []
    && j.requestDryRun == j.dryRun
    && j.approvedBy != ""
    && (!j.dryRun ==> j.approvedBy != j.requestedBy && j.approvedBy != actor)
    && (j.bootstrap ==> artifactsOk)
  }

  predicate Enabled(s: State, e: Event) {
    match e
    case Create(id, _, _, _, _, _) => id !in s.jobs
    case Transition(id, _, action) => id in s.jobs && Allowed(s.jobs[id].status, action)
    case Start(id, actor, r, _, artifactsOk) =>
      r !in s.runners && id in s.jobs && MayStart(s.jobs[id], actor, artifactsOk)
    case Advance(r, w) =>
      r in s.runners && s.runners[r].job in s.jobs && |s.runners[r].done| < |s.runners[r].plan|
    case Crash => true
  }

  function NextOutcome(r: Runner, w: World): StepOutcome
    requires |r.done| < |r.plan|
  {
    if !r.dryRun && !r.allowExec then Thrown else RunStep(r.plan[|r.done|], r.dryRun, w)
  }

  function WithResult(r: Runner, o: StepOutcome): seq<StepResult>
    requires |r.done| < |r.plan| && o.Result?
  {
    r.done + [StepResult(r.plan[|r.done|].key, o.code == 0, o.skipped)]
  }

  function Advanced(s: State, r: nat, w: World): State
    requires Enabled(s, Advance(r, w))
  {
    var runner := s.runners[r];
    var job := s.jobs[runner.job];
    var o := NextOutcome(runner, w);
    if o.Thrown? then
      s.(jobs := s.jobs[runner.job := job.(status := Failed, result := Some(runner.done))], runners := s.runners - {r})
    else
      var done := WithResult(runner, o);
      if |done| < |runner.plan| then s.(runners := s.runners[r := runner.(done := done)])
      else s.(jobs := s.jobs[runner.job := job.(status := Completed, result := Some(done))], runners := s.runners - {r})
  }

  function Step(s: State, e: Event): State {
    if !Enabled(s, e) then s else
    match e
    case Create(id, dryRun, requestDryRun, requestedBy, bootstrap, plan) =>
      s.(jobs := s.jobs[id := Job(Queued, dryRun, requestDryRun, requestedBy, "", bootstrap, plan, None)])
    case Transition(id, actor, action) =>
      s.(jobs := s.jobs[id := Transitioned(s.jobs[id], actor, action)],
         log := if action == Approve then s.log + [ApprovedBy(id, actor)] else s.log)
    case Start(id, actor, r, allowExec, _) =>
      var j := s.jobs[id];
      State(s.jobs[id := j.(status := Running)],
            s.runners[r := Runner(id, actor, allowExec, j.dryRun, j.plan, [])],
            s.log + [Started(id, j.approvedBy, actor)])
    case Advance(r, w) => Advanced(s, r, w)
    case Crash => s.(runners := map[])
  }

  function Run(s: State, es: seq<Event>): State
    decreases |es|
  {
    if es == [] then s else Run(Step(s, es[0]), es[1..])
  }

  // ---- Invariant --------------------------------------------------------------

  /** Results that follow the plan from its start, each of them ok, skipped exactly in a dry run. */
  predicate OkPrefix(done: seq<StepResult>, plan: seq<JobStep>, dryRun: bool) {
    && |done| <= |plan|
    && forall i | 0 <= i < |done| :: done[i] == StepResult(plan[i].key, true, dryRun)
  }

  predicate RunnerOk(s: State, r: nat)
    requires r in s.runners
  {
    var runner := s.runners[r];
    && runner.job in s.jobs
    && s.jobs[runner.job].status == Running
    && runner.plan == s.jobs[runner.job].plan && runner.dryRun == s.jobs[runner.job].dryRun
    && |runner.done| < |runner.plan| && OkPrefix(runner.done, runner.plan, runner.dryRun)
  }

  predicate JobOk(j: Job) {
    && (j.status == Completed ==>
          j.result.Some? && |j.result.value| == |j.plan| && OkPrefix(j.result.value, j.plan, j.dryRun))
    && (j.status == Failed ==>
          j.result.Some? && |j.result.value| < |j.plan| && OkPrefix(j.result.value, j.plan, j.dryRun))
  }

  /** The latest approval or start of a job. */
  function Latest(log: seq<LogEntry>, job: nat): Option<LogEntry> {
    if log == [] then None
    else if log[|log| - 1].job == job then Some(log[|log| - 1])
    else Latest(log[..|log| - 1], job)
  }

  /** Every start is preceded by an approval of its own, by the approver it names. */
  predicate StartsApproved(log: seq<LogEntry>) {
    forall k | 0 <= k < |log| && log[k].Started? ::
      Latest(log[..k], log[k].job) == Some(ApprovedBy(log[k].job, log[k].approver))
  }

  predicate TwoPersons(s: State) {
    forall k | 0 <= k < |s.log| && s.log[k].Started? ::
      var e := s.log[k];
      e.job in s.jobs
      && (!s.jobs[e.job].dryRun ==> e.approver != e.actor && e.approver != s.jobs[e.job].requestedBy)
  }

  predicate WasStarted(status: Status) {
    status == Running || status == Completed || status == Failed
  }

  /** A job that runs or ran was started, under the approval it still carries, since its last approval. */
  predicate StartLogged(s: State) {
    forall j | j in s.jobs && WasStarted(s.jobs[j].status) ::
      var latest := Latest(s.log, j);
      latest.Some? && latest.value.Started? && latest.value.approver == s.jobs[j].approvedBy
  }

  predicate Inv(s: State) {
    && StartLogged(s)
    && (forall r | r in s.runners :: RunnerOk(s, r))
    && (forall r1, r2 | r1 in s.runners && r2 in s.runners && r1 != r2 :: s.runners[r1].job != s.runners[r2].job)
    && (forall j | j in s.jobs :: JobOk(s.jobs[j]))
    && (forall j | j in s.jobs && s.jobs[j].status == Approved ::
          Latest(s.log, j) == Some(ApprovedBy(j, s.jobs[j].approvedBy)))
    && StartsApproved(s.log)
    && TwoPersons(s)
  }

  lemma StartsApprovedAppend(log: seq<LogEntry>, e: LogEntry)
    requires StartsApproved(log)
    requires e.Started? ==> Latest(log, e.job) == Some(ApprovedBy(e.job, e.approver))
    ensures StartsApproved(log + [e])
  {
    var log' := log + [e];
    forall k | 0 <= k < |log'| && log'[k].Started?
      ensures Latest(log'[..k], log'[k].job) == Some(ApprovedBy(log'[k].job, log'[k].approver))
    {
      assert log'[..k] == log[..k];
      assert log[..|log|] == log;
    }
  }

  lemma LatestAppend(log: seq<LogEntry>, e: LogEntry, job: nat)
    ensures Latest(log + [e], job) == if e.job == job then Some(e) else Latest(log, job)
  {
    assert (log + [e])[..|log|] == log;
  }

  lemma LogStep(s: State, e: Event)
    requires Inv(s) && Enabled(s, e)
    ensures var s' := Step(s, e);
            && StartsApproved(s'.log)
            && forall j | j in s'.jobs && s'.jobs[j].status == Approved ::
                 Latest(s'.log, j) == Some(ApprovedBy(j, s'.jobs[j].approvedBy))
  {
    hide RunStep, OkPrefix, JobOk, RunnerOk, TwoPersons, StartsApproved, Latest;
    var s' := Step(s, e);
    if e.Transition? && e.action == Approve {
      StartsApprovedAppend(s.log, ApprovedBy(e.job, e.actor));
    } else if e.Start? {
      StartsApprovedAppend(s.log, Started(e.job, s.jobs[e.job].approvedBy, e.actor));
    }
    forall j | j in s'.jobs && s'.jobs[j].status == Approved
      ensures Latest(s'.log, j) == Some(ApprovedBy(j, s'.jobs[j].approvedBy))
    {
      if s'.log != s.log {
        LatestAppend(s.log, s'.log[|s.log|], j);
      }
    }
  }

  lemma StartLoggedStep(s: State, e: Event)
    requires Inv(s) && Enabled(s, e)
    ensures StartLogged(Step(s, e))
  {
    hide RunStep, OkPrefix, JobOk, StartsApproved, Latest, TwoPersons;
    if e.Advance? {
      assert RunnerOk(s, e.runner);
    }
    var s' := Step(s, e);
    if s'.log != s.log {
      var last := s'.log[|s.log|];
      forall j | j in s'.jobs ensures Latest(s'.log, j) == if last.job == j then Some(last) else Latest(s.log, j) {
        LatestAppend(s.log, last, j);
      }
    }
  }

  lemma TwoPersonsStep(s: State, e: Event)
    requires Inv(s) && Enabled(s, e)
    ensures TwoPersons(Step(s, e))
  {
    hide RunStep, OkPrefix, JobOk, StartsApproved, Latest;
    if e.Advance? {
      assert RunnerOk(s, e.runner);
    }
    var s' := Step(s, e);
    forall k | 0 <= k < |s'.log| && s'.log[k].Started?
      ensures s'.log[k].job in s'.jobs
      ensures !s'.jobs[s'.log[k].job].dryRun ==>
                s'.log[k].approver != s'.log[k].actor && s'.log[k].approver != s'.jobs[s'.log[k].job].requestedBy
    {
      assert k < |s.log| ==> s'.log[k] == s.log[k];
    }
  }

  lemma AdvanceKeepsRunners(s: State, r: nat, w: World)
    requires Inv(s) && Enabled(s, Advance(r, w))
    ensures var s' := Step(s, Advance(r, w));
            && (forall q | q in s'.runners :: RunnerOk(s', q))
            && JobOk(s'.jobs[s.runners[r].job])
  {
    hide RunStep, Latest, StartsApproved, TwoPersons;
    var runner := s.runners[r];
    assert RunnerOk(s, r);
    if NextOutcome(runner, w).Result? {
      StepExactly(runner.plan[|runner.done|], runner.dryRun, w);
    }
    var s' := Step(s, Advance(r, w));
    forall q | q in s'.runners ensures RunnerOk(s', q) {
      assert RunnerOk(s, q);
    }
  }

  lemma OthersKeepRunners(s: State, e: Event)
    requires Inv(s) && Enabled(s, e) && !e.Advance?
    ensures var s' := Step(s, e); forall q | q in s'.runners :: RunnerOk(s', q)
  {
    hide RunStep, Latest, StartsApproved, TwoPersons;
    var s' := Step(s, e);
    forall q | q in s'.runners ensures RunnerOk(s', q) {
      if q in s.runners {
        assert RunnerOk(s, q);
      }
    }
  }

  lemma StepKeepsSingleRunners(s: State, e: Event)
    requires Inv(s) && Enabled(s, e)
    ensures var s' := Step(s, e);
            forall r1, r2 | r1 in s'.runners && r2 in s'.runners && r1 != r2 :: s'.runners[r1].job != s'.runners[r2].job
  {
    hide RunStep, Latest, StartsApproved, TwoPersons, OkPrefix, JobOk;
    forall r | r in s.runners ensures s.jobs[s.runners[r].job].status == Running {
      assert RunnerOk(s, r);
    }
  }

  lemma StepKeepsJobs(s: State, e: Event)
    requires Inv(s) && Enabled(s, e)
    ensures var s' := Step(s, e); forall j | j in s'.jobs :: JobOk(s'.jobs[j])
  {
    hide RunStep, Latest, StartsApproved, TwoPersons, OkPrefix, RunnerOk;
    if e.Advance? {
      AdvanceKeepsRunners(s, e.runner, e.world);
    }
  }

  lemma StepKeepsInv(s: State, e: Event)
    requires Inv(s)
    ensures Inv(Step(s, e))
  {
    hide Latest, StartsApproved, StartLogged, TwoPersons, RunnerOk, JobOk, Advanced, MayStart;
    if Enabled(s, e) {
      LogStep(s, e);
      StartLoggedStep(s, e);
      TwoPersonsStep(s, e);
      StepKeepsSingleRunners(s, e);
      StepKeepsJobs(s, e);
      if e.Advance? {
        AdvanceKeepsRunners(s, e.runner, e.world);
      } else {
        OthersKeepRunners(s, e);
      }
    }
  }

  lemma {:induction false} RunKeepsInv(s: State, es: seq<Event>)
    requires Inv(s)
    ensures Inv(Run(s, es))
    decreases |es|
  {
    if es != [] {
      StepKeepsInv(s, es[0]);
      RunKeepsInv(Step(s, es[0]), es[1..]);
    }
  }

  // ---- Results over whole runs ------------------------------------------------

  /**
    In every run: at most one runner is in flight per job; between any two starts of a job lies an
    approval, namely the one the later start names; and a live job's approver is neither its
    requester nor its runner.
   */
  lemma StartsInEveryRun(es: seq<Event>)
    ensures var s := Run(EMPTY, es);
            && (forall r1, r2 | r1 in s.runners && r2 in s.runners && r1 != r2 ::
                  s.runners[r1].job != s.runners[r2].job)
            && (forall i, k | 0 <= i < k < |s.log|
                              && s.log[i].Started? && s.log[k].Started? && s.log[i].job == s.log[k].job ::
                  exists a :: i < a < k && s.log[a] == ApprovedBy(s.log[k].job, s.log[k].approver))
            && (forall k | 0 <= k < |s.log| && s.log[k].Started? ::
                  Latest(s.log[..k], s.log[k].job) == Some(ApprovedBy(s.log[k].job, s.log[k].approver)))
            && (forall k | 0 <= k < |s.log| && s.log[k].Started? ::
                  s.log[k].job in s.jobs
                  && (!s.jobs[s.log[k].job].dryRun ==>
                        s.log[k].approver != s.log[k].actor && s.log[k].approver != s.jobs[s.log[k].job].requestedBy))
  {
    RunKeepsInv(EMPTY, es);
    var log := Run(EMPTY, es).log;
    forall i, k | 0 <= i < k < |log| && log[i].Started? && log[k].Started? && log[i].job == log[k].job
      ensures exists a :: i < a < k && log[a] == ApprovedBy(log[k].job, log[k].approver)
    {
      LatestFrom(log[..k], log[k].job, i);
      var a :| i <= a < k && log[..k][a] == Latest(log[..k], log[k].job).value;
      assert log[a] == ApprovedBy(log[k].job, log[k].approver);
    }
  }

  /**
    In every run a live job that is running, completed or failed carries an approval by somebody
    other than its requester, and was started under it by somebody else again.
   */
  lemma LiveJobsInEveryRun(es: seq<Event>, id: nat)
    requires id in Run(EMPTY, es).jobs
    requires var j := Run(EMPTY, es).jobs[id]; WasStarted(j.status) && !j.dryRun
    ensures var s := Run(EMPTY, es); var j := s.jobs[id];
            && j.approvedBy != j.requestedBy
            && exists k :: 0 <= k < |s.log| && s.log[k].Started? && s.log[k].job == id
                   && s.log[k].approver == j.approvedBy && s.log[k].actor != j.approvedBy
  {
    RunKeepsInv(EMPTY, es);
    var s := Run(EMPTY, es);
    LatestIsEntry(s.log, id);
    var k :| 0 <= k < |s.log| && s.log[k] == Latest(s.log, id).value;
    assert s.log[k].Started?;
  }

  lemma {:induction false} LatestIsEntry(log: seq<LogEntry>, job: nat)
    ensures Latest(log, job).Some? ==>
              Latest(log, job).value.job == job && exists k :: 0 <= k < |log| && log[k] == Latest(log, job).value
  {
    if log != [] {
      var n := |log| - 1;
      LatestIsEntry(log[..n], job);
      if log[n].job == job {
        assert log[n] == Latest(log, job).value;
      } else if Latest(log[..n], job).Some? {
        var k :| 0 <= k < n && log[..n][k] == Latest(log[..n], job).value;
        assert log[k] == Latest(log, job).value;
      }
    }
  }

  lemma {:induction false} LatestFrom(log: seq<LogEntry>, job: nat, i: nat)
    requires i < |log| && log[i].job == job
    ensures Latest(log, job).Some? && exists a :: i <= a < |log| && log[a] == Latest(log, job).value
  {
    var n := |log| - 1;
    if log[n].job == job {
      assert log[n] == Latest(log, job).value;
    } else {
      LatestFrom(log[..n], job, i);
      var a :| i <= a < n && log[..n][a] == Latest(log[..n], job).value;
      assert log[a] == Latest(log, job).value;
    }
  }

  /**
    In every run a completed job's recorded steps are its plan's keys in order, each ok, and
    skipped exactly in a dry run; a failed job's are a strict prefix of that.
   */
  lemma ResultsInEveryRun(es: seq<Event>, id: nat)
    requires id in Run(EMPTY, es).jobs
    ensures var j := Run(EMPTY, es).jobs[id];
            && (j.status == Completed ==>
                  j.result.Some? && |j.result.value| == |j.plan|
                  && forall i | 0 <= i < |j.plan| :: j.result.value[i] == StepResult(j.plan[i].key, true, j.dryRun))
            && (j.status == Failed ==>
                  j.result.Some? && |j.result.value| < |j.plan|
                  && forall i | 0 <= i < |j.result.value| ::
                       j.result.value[i] == StepResult(j.plan[i].key, true, j.dryRun))
  {
    RunKeepsInv(EMPTY, es);
    assert JobOk(Run(EMPTY, es).jobs[id]);
  }

  predicate Terminal(status: Status) {
    status == Completed || status == Cancelled
  }

  /** Completed and cancelled are never left; plan, dry-run flag and requester never change. */
  lemma {:induction false} JobForever(s: State, es: seq<Event>, id: nat)
    requires Inv(s) && id in s.jobs
    ensures id in Run(s, es).jobs
    ensures var a, b := s.jobs[id], Run(s, es).jobs[id];
            && b.plan == a.plan && b.dryRun == a.dryRun && b.requestDryRun == a.requestDryRun
            && b.requestedBy == a.requestedBy
            && (Terminal(a.status) ==> b == a)
    decreases |es|
  {
    if es != [] {
      StepKeepsInv(s, es[0]);
      JobStaysInStep(s, es[0], id);
      JobForever(Step(s, es[0]), es[1..], id);
    }
  }

  lemma JobStaysInStep(s: State, e: Event, id: nat)
    requires Inv(s) && id in s.jobs
    ensures id in Step(s, e).jobs
    ensures var a, b := s.jobs[id], Step(s, e).jobs[id];
            && b.plan == a.plan && b.dryRun == a.dryRun && b.requestDryRun == a.requestDryRun
            && b.requestedBy == a.requestedBy
            && (Terminal(a.status) ==> b == a)
  {
    hide RunStep, Latest, StartsApproved, TwoPersons, OkPrefix, JobOk;
    if Enabled(s, e) && e.Advance? {
      assert RunnerOk(s, e.runner);
    }
  }

  // ---- Approving and starting -------------------------------------------------

  /** Only this job's row may differ. */
  predicate OtherJobsKept(s: State, s': State, id: nat) {
    s'.jobs.Keys == s.jobs.Keys && forall j | j in s.jobs && j != id :: s'.jobs[j] == s.jobs[j]
  }

  /**
    Running, completed and cancelled jobs are immutable; any other job can be cancelled; all of
    them but an approved one can be approved, and all of them but a rejected one rejected.
   */
  lemma TransitionExactly(s: State, id: nat, actor: string, action: Action)
    ensures var s' := Step(s, Transition(id, actor, action));
            if id !in s.jobs || s.jobs[id].status in {Running, Completed, Cancelled}
               || (action == Approve && s.jobs[id].status == Approved)
               || (action == Reject && s.jobs[id].status == Rejected)
            then s' == s
            else
              var j, j' := s.jobs[id], s'.jobs[id];
              && OtherJobsKept(s, s', id) && s'.runners == s.runners
              && j' == j.(status := j'.status, approvedBy := j'.approvedBy)
              && (action == Approve ==>
                    j'.status == Approved && j'.approvedBy == actor && s'.log == s.log + [ApprovedBy(id, actor)])
              && (action == Reject ==> j'.status == Rejected && j'.approvedBy == j.approvedBy && s'.log == s.log)
              && (action == Cancel ==> j'.status == Cancelled && j'.approvedBy == j.approvedBy && s'.log == s.log)
  {
  }

  /**
    A job starts exactly when it is approved by somebody, has steps, its dry-run metadata match, a
    bootstrap's artifacts could be written and, live only, its approver is neither requester nor
    runner; a dry run may be started by its own approver.
   */
  lemma StartExactly(s: State, id: nat, actor: string, r: nat, allowExec: bool, artifactsOk: bool)
    requires r !in s.runners
    ensures var s' := Step(s, Start(id, actor, r, allowExec, artifactsOk));
            if id in s.jobs && s.jobs[id].status == Approved && |s.jobs[id].plan| > 0
               && s.jobs[id].requestDryRun == s.jobs[id].dryRun && s.jobs[id].approvedBy != ""
               && (s.jobs[id].dryRun || s.jobs[id].approvedBy !in {s.jobs[id].requestedBy, actor})
               && (artifactsOk || !s.jobs[id].bootstrap)
            then
              var j, runner := s.jobs[id], s'.runners[r];
              && OtherJobsKept(s, s', id) && s'.jobs[id] == j.(status := Running)
              && s'.runners.Keys == s.runners.Keys + {r} && (forall q | q in s.runners :: s'.runners[q] == s.runners[q])
              && runner.job == id && runner.actor == actor && runner.allowExec == allowExec
              && runner.dryRun == j.dryRun && runner.plan == j.plan && runner.done == []
              && s'.log == s.log + [Started(id, j.approvedBy, actor)]
            else s' == s
  {
  }

  lemma CreateExactly(
    s: State, id: nat, dryRun: bool, requestDryRun: bool, requestedBy: string, bootstrap: bool, plan: seq<JobStep>)
    requires id !in s.jobs
    ensures var s' := Step(s, Create(id, dryRun, requestDryRun, requestedBy, bootstrap, plan));
            && s'.runners == s.runners && s'.log == s.log && s'.jobs.Keys == s.jobs.Keys + {id}
            && (forall j | j in s.jobs :: s'.jobs[j] == s.jobs[j])
            && s'.jobs[id] == Job(Queued, dryRun, requestDryRun, requestedBy, "", bootstrap, plan, None)
  {
  }

  /** A job that failed or was rejected can be approved again and then started. */
  lemma SecondChance(s: State, id: nat, approver: string, actor: string, r: nat, allowExec: bool)
    requires id in s.jobs && s.jobs[id].status in {Failed, Rejected} && r !in s.runners
    requires s.jobs[id].plan != [] && s.jobs[id].requestDryRun == s.jobs[id].dryRun && approver != ""
    requires s.jobs[id].dryRun || approver !in {s.jobs[id].requestedBy, actor}
    ensures var s' := Run(s, [Transition(id, approver, Approve), Start(id, actor, r, allowExec, true)]);
            && id in s'.jobs && s'.jobs[id].status == Running && s'.jobs[id].approvedBy == approver
            && r in s'.runners && s'.runners[r].job == id && s'.runners[r].done == []
  {
    var es := [Transition(id, approver, Approve), Start(id, actor, r, allowExec, true)];
    var approved := Step(s, es[0]);
    TransitionExactly(s, id, approver, Approve);
    StartExactly(approved, id, actor, r, allowExec, true);
    assert es[1..] == [es[1]] && es[1..][1..] == [];
    assert Run(s, es) == Run(approved, [es[1]]);
    assert Run(approved, [es[1]]) == Run(Step(approved, es[1]), []);
  }

  // ---- Executing --------------------------------------------------------------

  predicate OtherRunnersKept(s: State, s': State, r: nat) {
    && (forall q | q in s.runners && q != r :: q in s'.runners && s'.runners[q] == s.runners[q])
    && forall q | q in s'.runners && q != r :: q in s.runners
  }

  /** The runner may execute, and its next step works. */
  ghost predicate GoesOn(runner: Runner, w: World)
    requires |runner.done| < |runner.plan|
  {
    (runner.dryRun || runner.allowExec) && Works(runner.plan[|runner.done|], runner.dryRun, w)
  }

  /**
    One resumption: a step that works is recorded, and the last of them completes the job;
    otherwise the job fails with what was recorded before.
   */
  lemma AdvanceExactly(s: State, r: nat, w: World)
    requires Inv(s) && r in s.runners
    ensures var runner, s' := s.runners[r], Step(s, Advance(r, w));
            var id, k := runner.job, |runner.done|;
            && id in s.jobs && k < |runner.plan| && OtherJobsKept(s, s', id) && s'.log == s.log
            && OtherRunnersKept(s, s', r)
            && if GoesOn(runner, w) then
                 var done := runner.done + [StepResult(runner.plan[k].key, true, runner.dryRun)];
                 if k + 1 < |runner.plan| then
                   s'.jobs == s.jobs && r in s'.runners && s'.runners[r] == runner.(done := done)
                 else
                   r !in s'.runners && s'.jobs[id] == s.jobs[id].(status := Completed, result := Some(done))
               else
                 r !in s'.runners && s'.jobs[id] == s.jobs[id].(status := Failed, result := Some(runner.done))
  {
    hide RunStep, Works, Latest, StartsApproved, TwoPersons, StartLogged;
    var runner := s.runners[r];
    assert RunnerOk(s, r);
    StepExactly(runner.plan[|runner.done|], runner.dryRun, w);
  }

  /** How often a run resumes runner r. */
  function Resumptions(es: seq<Event>, r: nat): nat {
    if es == [] then 0
    else (if es[0].Advance? && es[0].runner == r then 1 else 0) + Resumptions(es[1..], r)
  }

  predicate Resumes(e: Event, r: nat) {
    e.Advance? && e.runner == r
  }

  /** No crash, and whenever runner r is resumed the step it has come to works. */
  ghost predicate Supports(es: seq<Event>, r: nat, plan: seq<JobStep>, k: nat, dryRun: bool)
    decreases |es|
  {
    es != [] ==>
      && !es[0].Crash?
      && (Resumes(es[0], r) && k < |plan| ==> Works(plan[k], dryRun, es[0].world))
      && Supports(es[1..], r, plan, if Resumes(es[0], r) then k + 1 else k, dryRun)
  }

  /** Events of other jobs and runners, and attempts to touch this job, leave a runner as it is. */
  lemma OthersLeaveRunner(s: State, e: Event, r: nat)
    requires Inv(s) && r in s.runners
    requires !e.Crash? && !Resumes(e, r)
    ensures r in Step(s, e).runners && Step(s, e).runners[r] == s.runners[r]
  {
    hide RunStep, RunnerOk, JobOk;
  }

  lemma RunnersAreOk(s: State, r: nat)
    requires Inv(s) && r in s.runners
    ensures RunnerOk(s, r)
  {
  }

  /**
    A started job that may execute completes exactly in those runs that resume it once per
    remaining step, however other jobs' events lie in between, as long as its steps work and
    nothing crashes; until then each resumption has recorded one step.
   */
  lemma {:induction false} WorkingJobCompletes(s: State, r: nat, es: seq<Event>)
    requires Inv(s) && r in s.runners && (s.runners[r].dryRun || s.runners[r].allowExec)
    requires Supports(es, r, s.runners[r].plan, |s.runners[r].done|, s.runners[r].dryRun)
    ensures var id, left, s' := s.runners[r].job, |s.runners[r].plan| - |s.runners[r].done|, Run(s, es);
            && id in s'.jobs
            && (s'.jobs[id].status == Completed <==> Resumptions(es, r) >= left)
            && (Resumptions(es, r) < left ==>
                  r in s'.runners && s'.runners[r].job == id
                  && |s'.runners[r].done| == |s.runners[r].done| + Resumptions(es, r))
    decreases |es|
  {
    hide Advanced, Enabled, Step, Inv, Works;
    var runner := s.runners[r];
    RunnersAreOk(s, r);
    if es != [] {
      var e, s' := es[0], Step(s, es[0]);
      StepKeepsInv(s, e);
      if Resumes(e, r) {
        AdvanceExactly(s, r, e.world);
        if |runner.done| + 1 == |runner.plan| {
          JobForever(s', es[1..], runner.job);
        } else {
          WorkingJobCompletes(s', r, es[1..]);
        }
      } else {
        OthersLeaveRunner(s, e, r);
        WorkingJobCompletes(s', r, es[1..]);
      }
    }
  }

  // ---- The execution switch ---------------------------------------------------

  /** A live runner whose process was started with execution switched off has recorded nothing. */
  predicate SwitchedOffIdle(s: State) {
    forall r | r in s.runners && !s.runners[r].dryRun && !s.runners[r].allowExec :: s.runners[r].done == []
  }

  lemma StepKeepsIdle(s: State, e: Event)
    requires Inv(s) && SwitchedOffIdle(s)
    ensures SwitchedOffIdle(Step(s, e))
  {
    hide RunStep, Inv, Works, MayStart;
    if Enabled(s, e) && e.Advance? {
      AdvanceExactly(s, e.runner, e.world);
    }
  }

  lemma {:induction false} RunKeepsIdle(s: State, es: seq<Event>)
    requires Inv(s) && SwitchedOffIdle(s)
    ensures SwitchedOffIdle(Run(s, es))
    decreases |es|
  {
    if es != [] {
      StepKeepsInv(s, es[0]);
      StepKeepsIdle(s, es[0]);
      RunKeepsIdle(Step(s, es[0]), es[1..]);
    }
  }

  /**
    In every run a live runner without MC_SUPER_PROVISION_EXEC never records a step, and its first
    resumption fails the job with an empty result, whatever the world would have answered.
   */
  lemma ExecutionDisabled(es: seq<Event>, r: nat, w: World)
    requires r in Run(EMPTY, es).runners
    requires var runner := Run(EMPTY, es).runners[r]; !runner.dryRun && !runner.allowExec
    ensures var s, s' := Run(EMPTY, es), Step(Run(EMPTY, es), Advance(r, w)); var id := s.runners[r].job;
            && s.runners[r].done == [] && r !in s'.runners
            && id in s'.jobs && s'.jobs[id].status == Failed && s'.jobs[id].result == Some([])
  {
    hide Inv, Step, Works;
    EmptyInv();
    RunKeepsInv(EMPTY, es);
    RunKeepsIdle(EMPTY, es);
    AdvanceExactly(Run(EMPTY, es), r, w);
  }

  /** A live runner that may execute records its next step exactly when that step works. */
  lemma ExecutionEnabled(es: seq<Event>, r: nat, w: World)
    requires r in Run(EMPTY, es).runners
    requires var runner := Run(EMPTY, es).runners[r]; !runner.dryRun && runner.allowExec
    ensures var s, s' := Run(EMPTY, es), Step(Run(EMPTY, es), Advance(r, w));
            var id, k := s.runners[r].job, |s.runners[r].done|;
            && k < |s.runners[r].plan| && id in s'.jobs
            && (Works(s.runners[r].plan[k], false, w) <==>
                  (r in s'.runners && |s'.runners[r].done| == k + 1) || s'.jobs[id].status == Completed)
            && (!Works(s.runners[r].plan[k], false, w) <==> s'.jobs[id].status == Failed)
  {
    hide Step, Works;
    EmptyInv();
    RunKeepsInv(EMPTY, es);
    RunnersAreOk(Run(EMPTY, es), r);
    hide Inv;
    AdvanceExactly(Run(EMPTY, es), r, w);
  }

  lemma EmptyInv()
    ensures Inv(EMPTY) && SwitchedOffIdle(EMPTY)
  {
  }

  // ---- Crashes ----------------------------------------------------------------

  /** A crash drops the runners and leaves the table as it is. */
  lemma CrashExactly(s: State)
    ensures Step(s, Crash).jobs == s.jobs && Step(s, Crash).log == s.log && Step(s, Crash).runners == map[]
  {
  }

  predicate Abandoned(s: State, id: nat) {
    id in s.jobs && s.jobs[id].status == Running && forall r | r in s.runners :: s.runners[r].job != id
  }

  /** A running job whose runner is gone stays running for good: nobody can end, restart or cancel it. */
  lemma {:induction false} AbandonedForever(s: State, es: seq<Event>, id: nat)
    requires Inv(s) && Abandoned(s, id)
    ensures Abandoned(Run(s, es), id) && Run(s, es).jobs[id] == s.jobs[id]
    decreases |es|
  {
    hide RunStep, Inv, MayStart;
    if es != [] {
      StepKeepsInv(s, es[0]);
      AbandonedStays(s, es[0], id);
      AbandonedForever(Step(s, es[0]), es[1..], id);
    }
  }

  lemma AbandonedStays(s: State, e: Event, id: nat)
    requires Abandoned(s, id)
    ensures Abandoned(Step(s, e), id) && Step(s, e).jobs[id] == s.jobs[id]
  {
    hide RunStep;
  }

  /** So a crash strands exactly the jobs that were running. */
  lemma CrashStrands(es: seq<Event>, later: seq<Event>, id: nat)
    requires id in Run(EMPTY, es).jobs && Run(EMPTY, es).jobs[id].status == Running
    ensures var s := Run(EMPTY, es); var end := Run(Step(s, Crash), later);
            id in end.jobs && end.jobs[id] == s.jobs[id]
  {
    EmptyInv();
    RunKeepsInv(EMPTY, es);
    StepKeepsInv(Run(EMPTY, es), Crash);
    AbandonedForever(Step(Run(EMPTY, es), Crash), later, id);
  }

  // ---- A dry run through the daemon -------------------------------------------

  function JobPlan(plan: seq<AllowList.PlanStep>): (r: seq<JobStep>)
    ensures |r| == |plan|
  {
    seq(|plan|, i requires 0 <= i < |plan| => JobStep(plan[i].key, plan[i].command, plan[i].args, true))
  }

  predicate DaemonUp(w: World, env: AllowList.Env) {
    w.env == env && w.daemonMode && w.reachable
  }

  /** No crash, and the daemon answers whenever runner r is resumed. */
  predicate Serves(es: seq<Event>, r: nat, env: AllowList.Env) {
    forall e | e in es :: !e.Crash? && (Resumes(e, r) ==> DaemonUp(e.world, env))
  }

  lemma AcceptedStepWorks(env: AllowList.Env, step: AllowList.PlanStep, w: World)
    requires AllowList.StepAccepted(env, step) && DaemonUp(w, env)
    ensures Works(JobStep(step.key, step.command, step.args, true), true, w)
  {
    hide AllowList.ValidateInstall, AllowList.ValidateCp, AllowList.ValidateChown, AllowList.ValidateRm;
    hide AllowList.ValidateSystemctl, AllowList.CommandName, AllowList.Permitted;
    AllowList.CommandsExactly(env, step.command, step.args);
  }

  lemma {:induction false} AcceptedPlanSupported(
    es: seq<Event>, r: nat, env: AllowList.Env, plan: seq<AllowList.PlanStep>, k: nat)
    requires AllowList.PlanAccepted(env, plan) && Serves(es, r, env)
    ensures Supports(es, r, JobPlan(plan), k, true)
    decreases |es|
  {
    hide Works, AllowList.StepAccepted;
    if es != [] {
      assert es[0] in es && Serves(es[1..], r, env);
      if Resumes(es[0], r) && k < |plan| {
        AcceptedStepWorks(env, plan[k], es[0].world);
      }
      AcceptedPlanSupported(es[1..], r, env, plan, if Resumes(es[0], r) then k + 1 else k);
    }
  }

  /**
    A started dry run whose plan the allow-list accepts completes exactly in those runs that
    resume it once per remaining step, as long as the daemon answers and nothing crashes; so the
    planner and the daemon agree end to end.
   */
  lemma AcceptedDryRunCompletes(
    s: State, r: nat, env: AllowList.Env, plan: seq<AllowList.PlanStep>, es: seq<Event>)
    requires Inv(s) && r in s.runners && s.runners[r].dryRun
    requires s.runners[r].plan == JobPlan(plan) && AllowList.PlanAccepted(env, plan)
    requires Serves(es, r, env)
    ensures s.runners[r].job in Run(s, es).jobs
    ensures Run(s, es).jobs[s.runners[r].job].status == Completed
       <==> Resumptions(es, r) >= |plan| - |s.runners[r].done|
  {
    hide AllowList.PlanAccepted, Inv, Run, Serves, Supports;
    AcceptedPlanSupported(es, r, env, plan, |s.runners[r].done|);
    WorkingJobCompletes(s, r, es);
  }

  /**
    In every run that starts a dry run of the planner's own bootstrap of an accepted request, in a
    deployment that satisfies DeploymentOk, the job completes exactly when it is resumed ten times.
   */
  lemma BootstrapDryRunCompletes(
    before: seq<Event>, start: Event, es: seq<Event>, env: AllowList.Env, request: AllowList.BootstrapRequest,
    trim: string -> string, lower: string -> string)
    requires start.Start? && Enabled(Run(EMPTY, before), start)
    requires AllowList.AcceptRequest(env, request, trim, lower).Some?
    requires var tenant := AllowList.AcceptRequest(env, request, trim, lower).value;
             var job := Run(EMPTY, before).jobs[start.job];
             && AllowList.DeploymentOk(env, tenant.slug)
             && job.dryRun && job.plan == JobPlan(AllowList.BootstrapPlan(env, tenant))
    requires Serves(es, start.runner, env)
    ensures var s' := Run(Step(Run(EMPTY, before), start), es);
            && start.job in s'.jobs
            && (s'.jobs[start.job].status == Completed <==> Resumptions(es, start.runner) >= 10)
  {
    hide AllowList.PlanAccepted, AllowList.DeploymentOk, Inv, Run;
    var s := Run(EMPTY, before);
    var tenant := AllowList.AcceptRequest(env, request, trim, lower).value;
    assert Inv(s) by {
      EmptyInv();
      RunKeepsInv(EMPTY, before);
    }
    StepKeepsInv(s, start);
    AllowList.BootstrapPlanAccepted(env, request, trim, lower);
    AcceptedDryRunCompletes(Step(s, start), start.runner, env, AllowList.BootstrapPlan(env, tenant), es);
  }

  // ---- The job table, updated in place ----------------------------------------

  class JobStore {
    var jobs: map<nat, Job>
    var runners: map<nat, Runner>
    ghost var log: seq<LogEntry>

    ghost function Snapshot(): State
      reads this
    {
      State(jobs, runners, log)
    }

    constructor ()
      ensures Snapshot() == EMPTY
    {
      jobs, runners, log := map[], map[], [];
    }

    /** transitionProvisionJobStatus; `ok` is false where the source throws. */
    method TransitionStatus(id: nat, actor: string, action: Action) returns (ok: bool)
      modifies this
      ensures ok == Enabled(old(Snapshot()), Transition(id, actor, action))
      ensures Snapshot() == Step(old(Snapshot()), Transition(id, actor, action))
    {
      if id !in jobs {
        return false;
      }
      var job := jobs[id];
      if job.status == Running || job.status == Completed || job.status == Cancelled {
        return false;
      }
      match action {
        case Approve =>
          if job.status != Queued && job.status != Rejected && job.status != Failed {
            return false;
          }
          jobs := jobs[id := job.(status := Approved, approvedBy := actor)];
          log := log + [ApprovedBy(id, actor)];
        case Reject =>
          if job.status != Queued && job.status != Approved && job.status != Failed {
            return false;
          }
          jobs := jobs[id := job.(status := Rejected)];
        case Cancel =>
          jobs := jobs[id := job.(status := Cancelled)];
      }
      ok := true;
    }

    /** executeProvisionJob up to its first await. */
    method StartJob(id: nat, actor: string, r: nat, allowExec: bool, artifactsOk: bool) returns (ok: bool)
      requires r !in runners
      modifies this
      ensures ok == Enabled(old(Snapshot()), Start(id, actor, r, allowExec, artifactsOk))
      ensures Snapshot() == Step(old(Snapshot()), Start(id, actor, r, allowExec, artifactsOk))
    {
      if id !in jobs {
        return false;
      }
      var job := jobs[id];
      if job.status != Approved || job.plan == [] || job.requestDryRun != job.dryRun || job.approvedBy == "" {
        return false;
      }
      if !job.dryRun {
        if job.approvedBy == job.requestedBy || job.approvedBy == actor {
          return false;
        }
      }
      if job.bootstrap && !artifactsOk {
        return false;
      }
      jobs := jobs[id := job.(status := Running)];
      runners := runners[r := Runner(id, actor, allowExec, job.dryRun, job.plan, [])];
      log := log + [Started(id, job.approvedBy, actor)];
      ok := true;
    }

    /** One resumption of executeProvisionJob: a step's outcome arrives. */
    method ResumeJob(r: nat, w: World)
      requires Enabled(Snapshot(), Advance(r, w))
      modifies this
      ensures Snapshot() == Step(old(Snapshot()), Advance(r, w))
    {
      hide RunStep;
      var runner := runners[r];
      var step := runner.plan[|runner.done|];
      var outcome := if !runner.dryRun && !runner.allowExec then Thrown else RunStep(step, runner.dryRun, w);
      if outcome.Thrown? {
        jobs := jobs[runner.job := jobs[runner.job].(status := Failed, result := Some(runner.done))];
        runners := runners - {r};
        return;
      }
      runner := runner.(done := runner.done + [StepResult(step.key, outcome.code == 0, outcome.skipped)]);
      runners := runners[r := runner];
      if |runner.done| == |runner.plan| {
        jobs := jobs[runner.job := jobs[runner.job].(status := Completed, result := Some(runner.done))];
        runners := runners - {r};
      }
    }
  }
}
