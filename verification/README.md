# Verification of the JAIS Mission Control server cores

A Dafny 4.11 model of the server-side state machines of Mission Control, with proofs of what they
keep over every run. `dafny verify dfyconfig.toml` checks the whole project.

| file | what it models |
|---|---|
| `Webhooks.dfy` | the webhook retry queue, the circuit breaker, pruning and backoff |
| `ProvisionJobs.dfy` | provisioning jobs: status machine, two-person rule, step execution |
| `Paths.dfy`, `AllowList.dfy` | POSIX path joining; the daemon's allow-list against the planner's commands |
| `Scheduler.dfy` | the task table under overlapping ticks |
| `RateLimit.dfy` | the fixed-window rate limiter, its cleanup, the client address |
| `AgentSync.dfy` | config sync, its preview, writing one agent back with a deep merge |
| `Migrations.dfy` | the migration runner under crashes |
| `AuthSessions.dfy` | login sessions with the lazy purge |
| `Transcripts.dfy` | the transcript fold and the session upsert |
| `Options.dfy` | the optional value the others share |

How the model is built:

- One machine step is one stretch of code between two awaits. Steps of different requests, sweeps,
  ticks and runners interleave in any order; a step whose guard fails changes nothing. `Run` folds
  `Step` over an event list, and the results quantify over all event lists.
- Each machine has a class whose methods update the tables in place, statement by statement. Their
  contracts equate the new state with `Step` of the old one, which ties the code's own form to the
  function the run-level results are about.
- HTTP answers, process exits, the jitter draw, the clock and database nondeterminism (which rows
  `LIMIT` returns, how ties in `ORDER BY` fall) are inputs of the events. The clock does not run
  backwards. Where the code reads whole seconds, so does the model.
- A webhook delivery is named by the order in which it was launched, not by its SQLite row id; only
  the identity of ids is used by the code. The claimed rows of one sweep may be posted in any order
  and at any later time, which includes the code's one-after-the-other order. The webhooks matching
  one event are fired one by one, which includes firing them all at once.
- A launched delivery waits, flies and is then recorded or lost; the phases are the model's, so that
  it is posted only once (`NoDoublePost`) is a fact about the model, not a result.
- Manual redelivery and test deliveries are part of the machine. They are marked as not automatic.
  Most bounds on attempts are about automatic deliveries; `BelowMaxExactly` says when the bound
  covers the manual ones too.
- What the daemon allows is described a second time, as a language of orders (`Order`, `Says`,
  `Allowed`) that does not follow the branches of the checking code; `CommandsExactly` shows that
  the two agree, and the plans are read in the same language.
- Creating a webhook and editing the events it subscribes to have no event of their own. A webhook
  that is created later, or whose subscriptions change, is one that is disabled at first and
  subscribed to `*`: enabling it stands for the creation, and which events are fired to it is up to
  the run.

Assumptions, each a guard, a type or a `requires`: `MAX_RETRIES >= 1`; fresh random session tokens
and user ids that are not reused; application and daemon read the home root and the workspace name
alike, trimming both; one Node process. Template path, repository root and data directory are
modelled as two readings each, because only the application trims the template path and the
repository root, and unset variables fall back to different directories. A rate limit of zero still
lets the first request of a window through, so the limiter's bounds use a quota of at least one.

Findings made exact rather than assumed away:

- The regular-expression and the path-equality form of the tenant directories agree exactly when
  the home root resolves to something other than `/` and `.`, and the workspace name is a plain
  relative path (`FormsAgreeExactly`).
- A bootstrap plan passes the allow-list exactly when the home root resolves to such a directory,
  both sides read the same template path, the same unit template and the same data directory, and
  the template path is neither the unit template nor the tenant's own gateway env artifact
  (`BootstrapPlanAccepted`). A trailing space in `MISSION_CONTROL_REPO_ROOT` breaks the second
  equality.
- A decommission plan that removes directories passes exactly when the home root is such a directory
  and the workspace name is plain or leads from the tenant's home to a state directory, the same
  tenant's or another's; `../bob/.openclaw` is such a name (`DecommissionPlanAccepted`,
  `ClimbingWorkspaceAccepted`).
- The redelivery endpoint makes no check of the attempt number. Attempts stay below `MAX_RETRIES` in
  exactly the runs in which every redelivered row's attempt is below `MAX_RETRIES - 1`
  (`BelowMaxExactly`), and for every maximum some run reaches it (`ManualRedeliveryReachesMax`).
- A job that is running when the process crashes stays running for good (`CrashStrands`).
- `root` has the form of a tenant's user name, so the daemon also accepts root-owned directories at
  the places of a tenant called root (`RootOwnedExactly`).
- Two starts of a task can really lie closer together than its interval (`StartsCanCrowd`), but only
  by as much as the earlier tick was late in reaching the task (`StartsSpaced`).
- Slugs of 29 to 32 characters are valid, but the user name derived from them is rejected
  (`DefaultUserAccepted`).
- In any span of one window length a client gets at most twice its quota less one, and that bound is
  reached (`AtMostTwoQuotasPerSpan`, `BoundReachedInRun`).
- The deep merge is associative on exactly the triples of `Associates`; writing an agent back is
  idempotent exactly when its id is not a structure; a second sync is quiet exactly when agents
  mapped to one name agree.

## Model

| member | source | states |
|---|---|---|
| Webhooks.DelayWithinJitter | src/lib/webhooks.ts:49-53 | whatever the random draw, a retry delay stays within 20% of its base, rounding included |
| Webhooks.DelaysIncrease | src/lib/webhooks.ts:30-53 | the delays of attempts 0 to 4 strictly increase whatever the draws |
| Webhooks.BackoffSchedule | src/lib/webhooks.ts:30-31 | the base delays are 30 seconds, 5 minutes, 30 minutes, 2 hours, and 8 hours for every later attempt |
| Webhooks.DelayFollowsDraw | src/lib/webhooks.ts:49-53 | the delay grows with the random draw, from four fifths of its base through the base itself |
| Webhooks.FireQueues | src/lib/webhooks.ts:127-154 | firing an event at a webhook queues exactly one delivery, automatic, attempt 0, without parent, with that event and payload, if the webhook is enabled and subscribed to the event or to everything, and none otherwise; all else stays |
| Webhooks.RootsAreLaunches | src/lib/webhooks.ts:127-154 | in every run the automatic deliveries without a parent are exactly the run's firings at enabled subscribed webhooks, in order, and the manual ones exactly its tests |
| Webhooks.TestQueues | src/lib/webhooks.ts:160-167 | a test delivery is queued for any existing webhook, enabled or not, and is never retried |
| Webhooks.RedeliverQueues | src/app/api/webhooks/retry/route.ts:22-56 | a manual redelivery queues the row's event and payload (the whole stored body if the payload was null) for its webhook, as a manual child with the next attempt number |
| Webhooks.ClaimQueues | src/lib/webhooks.ts:321-354 | a sweep clears exactly the selected rows and queues one automatic child for each in the same order, with the row's event and payload and the next attempt number |
| Webhooks.PostSends | src/lib/webhooks.ts:175-209 | any waiting delivery can be posted; only then is its body stamped |
| Webhooks.FinishRecords | src/lib/webhooks.ts:225-287 | recording a result adds the row unless it is pruned, schedules exactly the automatic failures that are not the last attempt within 20% of their delay, counts or clears only for automatic results, and touches nothing else |
| Webhooks.ResponseRecordable | src/lib/webhooks.ts:225-287 | every result of a delivery in flight to an existing webhook can be recorded |
| Webhooks.AdministrationSteps | src/app/api/webhooks/route.ts:91-182 | switching, resetting and removing a webhook, and losing a recording, change exactly what they name |
| Webhooks.RunKeepsChains | src/lib/webhooks.ts:169-364 | every run, overlapping sweeps and deliveries included, keeps: an automatic delivery's attempt is below the maximum and its parent is a recorded, failed, already claimed delivery of the same webhook, event and payload with the preceding attempt number, claimed no sooner than its delay; only non-final automatic failures wait for a retry; no two automatic deliveries share a parent |
| Webhooks.NoDoubleClaim | src/lib/webhooks.ts:303-325 | whatever happens between two retry sweeps, no row is claimed by both |
| Webhooks.RowsInEveryRun | src/lib/webhooks.ts:230-276 | in every run, automatic rows have attempt below MAX_RETRIES, waiting rows are automatic non-final failures, and a row has at most one automatic retry child |
| Webhooks.BelowMaxStep | src/app/api/webhooks/retry/route.ts:52-56 | a step from a reachable state keeps every attempt, manual ones included, below MAX_RETRIES if and only if it does not redeliver a row whose attempt is already MAX_RETRIES - 1 |
| Webhooks.BelowMaxExactly | src/lib/webhooks.ts:160-167 | in a run all attempts stay below MAX_RETRIES if and only if every manual redelivery meets a row whose attempt is below MAX_RETRIES - 1 |
| Webhooks.RedeliveryChain | src/app/api/webhooks/retry/route.ts:22-56 | for every n and every webhook, redelivering the latest row again and again records attempt number n |
| Webhooks.ManualRedeliveryReachesMax | src/app/api/webhooks/retry/route.ts:52-56 | for every MAX_RETRIES and every webhook some run records a row whose attempt is MAX_RETRIES |
| Webhooks.ChainShape | src/lib/webhooks.ts:341-354 | attempt k has exactly k ancestors numbered k-1 down to 0, all recorded failures of the same webhook and event, with the root's payload if that is not null |
| Webhooks.ChainTiming | src/lib/webhooks.ts:262-266 | attempt k is claimed no sooner than the sum of the k shortest delays after the first failure was recorded |
| Webhooks.FinalAttemptDelay | src/lib/webhooks.ts:300-309 | with five attempts, in every run the last is claimed at least 7464 seconds after the event's first failure |
| Webhooks.AtMostMaxDeliveriesPerEvent | src/lib/webhooks.ts:254-276 | in every run one event causes at most MAX_RETRIES automatic deliveries to a webhook |
| Webhooks.RetriesTerminate | src/lib/webhooks.ts:262-275 | in every run all automatic deliveries number at most MAX_RETRIES times the fired events, so retrying terminates |
| Webhooks.StreakIsTrailingFailures | src/lib/webhooks.ts:255-260 | the streak kept by the breaker is the maximal run of failures at the end of a webhook's results |
| Webhooks.FailureCounterExact | src/lib/webhooks.ts:254-260 | in every run consecutive_failures counts exactly the retryable failures since the last retryable success or circuit reset |
| Webhooks.TripsExactly | src/lib/webhooks.ts:262-273 | recording a result disables the webhook exactly when an automatic last attempt failed and the last MAX_RETRIES retryable results since a reset all failed |
| Webhooks.MustTrip | src/lib/webhooks.ts:267-273 | when an event's last attempt fails with no success or reset of the webhook since its first failure, the breaker trips |
| Webhooks.DisabledStaysQuiet | src/lib/webhooks.ts:133-135 | after a trip, until an administrator re-enables the webhook, no run queues anything automatic for it beyond what was already launched or claimed |
| Webhooks.RetryIsClaimed | src/lib/webhooks.ts:262-325 | a failed attempt that was not the last is due again within 120% of its base delay if its row survives pruning and the webhook is enabled, and then a sweep that is not full claims it and queues the next attempt |
| Webhooks.ResultsFollowEvents | src/lib/webhooks.ts:254-260 | a webhook's results grow by exactly its retryable results in order, and start anew on a circuit reset |
| Webhooks.BatchExists | src/lib/webhooks.ts:303-310 | some batch always meets what the sweep's query may return |
| Webhooks.PruneExists | src/lib/webhooks.ts:278-284 | some set of rows always meets what keeping the newest 200 may delete |
| Webhooks.EveryRun | src/lib/webhooks.ts:278-284 | every run keeps the chain and breaker invariants and at most 200 rows per webhook |
| Webhooks.RetryStore.RecordResult | src/lib/webhooks.ts:225-287 | recording a result in place, statement by statement, is the Finish step |
| Webhooks.RetryStore.ClaimDue | src/lib/webhooks.ts:321-354 | clearing the selected rows in a loop and queueing their retries is the Claim step |
| ProvisionJobs.RunWithRetry | ops/mc-provisioner-daemon.js:189-210 | the retry loop returns the first result that is not a passwd-lock failure of useradd, or the last of its attempts, of which useradd has six and others one |
| ProvisionJobs.StepExactly | src/lib/super-admin.ts:653-693 | a step that works has exit code 0 and was skipped exactly in a dry run, any other throws; it works through the daemon if that answers, permits the command and, live, the command ends with a clean exit after lock failures only, and through sudo exactly on exit code 0 |
| ProvisionJobs.DaemonRunExactly | ops/mc-provisioner-daemon.js:153-187 | a process counts as ok only for exit code 0 without a timeout; a timeout reports 124, a failed spawn 1 |
| ProvisionJobs.AdvanceExactly | src/lib/super-admin.ts:762-862 | a resumption that may execute and whose step works records exactly that step and completes the job with the last; any other fails the job with what was recorded; other jobs and runners stay |
| ProvisionJobs.ExecutionDisabled | src/lib/super-admin.ts:784-786 | in every run a live runner without the execution switch has recorded nothing, and its first resumption fails the job with an empty result, whatever the world would have answered |
| ProvisionJobs.ExecutionEnabled | src/lib/super-admin.ts:784-794 | in every run a live runner with the switch records its next step exactly when that step works, and fails the job exactly when not |
| ProvisionJobs.WorkingJobCompletes | src/lib/super-admin.ts:761-818 | in every run without a crash, other jobs' events interleaved, a job that may execute and whose steps work completes if and only if it is resumed once per remaining step; before that each resumption has recorded one step |
| ProvisionJobs.TransitionExactly | src/lib/super-admin.ts:565-640 | running, completed and cancelled jobs are immutable; any other can be cancelled, approved unless approved, rejected unless rejected; approving stores the approver, nothing else changes |
| ProvisionJobs.StartExactly | src/lib/super-admin.ts:695-757 | a job starts if and only if it is approved by somebody, has steps, its dry-run metadata match, a bootstrap's artifacts could be written and, live only, its approver is neither requester nor runner |
| ProvisionJobs.SecondChance | src/lib/super-admin.ts:570-584 | a failed or rejected job can be approved again and then started afresh |
| ProvisionJobs.CrashStrands | src/lib/super-admin.ts:737-741 | a job that is running when the process crashes stays exactly as it is in every later run: nothing ends, restarts or cancels it |
| ProvisionJobs.SettledOkIsZero | ops/mc-provisioner-daemon.js:168-176 | an ok answer of the daemon always carries exit code 0 |
| ProvisionJobs.StartsInEveryRun | src/lib/super-admin.ts:695-741 | in every run at most one runner is in flight per job; each start follows an approval of its own, the one it names, with an approval between any two starts; a live job's approver is neither its requester nor its runner |
| ProvisionJobs.ResultsInEveryRun | src/lib/super-admin.ts:759-854 | in every run a completed job's steps are its plan's keys in order, each ok and skipped exactly in a dry run; a failed job's are a strict prefix of that |
| ProvisionJobs.JobForever | src/lib/super-admin.ts:553-651 | completed and cancelled are never left; plan, dry-run flag and requester never change |
| ProvisionJobs.StepKeepsInv | src/lib/super-admin.ts:737-862 | every step, crashes included, keeps the runner, result, approval and two-person invariants |
| ProvisionJobs.LiveJobsInEveryRun | src/lib/super-admin.ts:711-731 | in every run a live job that is running, completed or failed carries an approval by someone other than its requester and was started under it by someone other than the approver |
| ProvisionJobs.AcceptedDryRunCompletes | src/lib/super-admin.ts:761-818 | in every run without a crash, other jobs' events interleaved, a started dry run of an accepted plan is completed at the end if and only if it was resumed at least once per remaining step, the daemon answering each time |
| ProvisionJobs.BootstrapDryRunCompletes | src/lib/super-admin.ts:80-166 | the planner's own bootstrap of any accepted request, started as a dry run in any reachable state under the deployment condition, completes if and only if it is resumed ten times |
| ProvisionJobs.JobStore.TransitionStatus | src/lib/super-admin.ts:553-651 | approving, rejecting and cancelling in place succeeds exactly when allowed and is the Transition step |
| ProvisionJobs.JobStore.StartJob | src/lib/super-admin.ts:695-757 | starting in place succeeds exactly when the checks pass and is the Start step |
| ProvisionJobs.JobStore.ResumeJob | src/lib/super-admin.ts:762-862 | one resumption in place records the step, completes or fails the job as the Advance step |
| AllowList.FormsAgree | ops/mc-provisioner-daemon.js:114-119 | for a real home root and a plain workspace name, `rm -rf` and tenant-owned `install` accept the same directories |
| AllowList.FormsAgreeExactly | ops/mc-provisioner-daemon.js:53-66 | the two forms accept the same directories for all targets if and only if the home root is real and the workspace name is a plain path |
| AllowList.RmExactly | ops/mc-provisioner-daemon.js:103-123 | for a real home root and a plain workspace name, `rm` is allowed for exactly the env file, state directory and workspace of some safe user |
| AllowList.CommandsExactly | ops/mc-provisioner-daemon.js:41-151 | a command line is accepted if and only if it says one of the ten orders of the daemon's language, program, flags and all, and that order is allowed for this environment; every other program is refused |
| AllowList.RootOwnedExactly | ops/mc-provisioner-daemon.js:53-66 | a root-owned directory is accepted exactly for the tenants directory and for the two directories of a tenant called root |
| AllowList.AlphabetsExactly | ops/mc-provisioner-daemon.js:27-29 | user names and slugs by length and alphabet |
| AllowList.TenantDir | src/lib/super-admin.ts:393-394 | the joined tenant directory is the joined root, the user and the suffix, separated by slashes, unless the root resolves to nothing |
| AllowList.SeedAccepted | ops/mc-provisioner-daemon.js:72-78 | the template copy is accepted exactly when both sides read the same template and the root is real |
| AllowList.UnitCopyAccepted | ops/mc-provisioner-daemon.js:79-83 | the unit template copy is accepted exactly when both sides arrive at one unit template path and that is not also the openclaw template |
| AllowList.EnvCopyAccepted | ops/mc-provisioner-daemon.js:84-89 | the tenant env copy is accepted exactly when both sides arrive at one artifact directory and the source is not also the openclaw template |
| AllowList.BootstrapPlanAccepted | src/lib/super-admin.ts:80-166 | every command of the plan of every accepted tenant request passes the allow-list if and only if the deployment condition holds: a real home root, equal template, unit template and artifact directory on both sides, and a template that is neither of the other two sources |
| AllowList.RemoveWorkspaceAccepted | ops/mc-provisioner-daemon.js:114-119 | under a real home root the planned workspace directory may be removed if and only if the workspace name is plain or leads to the state directory of some safe user |
| AllowList.ClimbingWorkspaceAccepted | ops/mc-provisioner-daemon.js:114-119 | for every pair of tenants, a workspace name that climbs into the other's state directory is not plain and its removal is accepted |
| AllowList.DecommissionPlanAccepted | src/lib/super-admin.ts:168-227 | for every workspace name and all flags, every command of the decommission plan passes if and only if no state directory is removed, or the root is real and the workspace name is plain or leads to a state directory |
| AllowList.AcceptExactly | src/lib/super-admin.ts:354-394 | a tenant request is accepted if and only if a template is set, the slug and the given or derived user are valid, the display name is not blank, the gateway port is given and both ports lie in 1024 to 65535; the tenant gets the two directories below its home |
| AllowList.BootstrapSays | src/lib/super-admin.ts:80-166 | the bootstrap plan says exactly ten orders: the user, its two directories, the seeded template, ownership of its home, the shared directory and unit, the tenant's env file, a reload, and the gateway enabled last |
| AllowList.DecommissionSays | src/lib/super-admin.ts:168-227 | the decommission plan says exactly: gateway disabled, env file removed, then the user or the two directories as asked |
| AllowList.DecommissionUndoes | src/lib/super-admin.ts:168-227 | an order is in the decommission plan if and only if it takes back an order of the bootstrap plan and is asked for: always the gateway and env file, the user by one flag, the directories by the other if the user stays |
| AllowList.ConfiguredPlaces | ops/mc-provisioner-daemon.js:11-16 | unit template and artifacts lie at their fixed places below what the configured directories normalise to |
| AllowList.DefaultUserAccepted | src/lib/super-admin.ts:375-378 | the user name derived from a valid slug is valid if and only if the slug has at most 28 characters |
| Paths.JoinPosixUnder | src/lib/super-admin.ts:48-51 | joining plain parts under a root appends them to the normalised root, or stands alone when the root resolves to nothing |
| Paths.PathJoinExtend | src/lib/super-admin.ts:91-91 | joining a further plain part appends it after a slash |
| Paths.NormalizeTwice | src/lib/super-admin.ts:48-51 | normalising a path changes neither what it resolves to nor, a second time, the path |
| Scheduler.NextDailyMs | src/lib/scheduler.ts:275-283 | the wait is positive, at most a day, and ends at the given hour UTC |
| Scheduler.NextDailyIsFirst | src/lib/scheduler.ts:275-283 | no earlier moment after now is at that hour |
| Scheduler.StepKeepsInv | src/lib/scheduler.ts:286-317 | every step of overlapping ticks keeps: a running task has exactly one tick inside, stamped like its latest start; an idle one is due an interval after that stamp |
| Scheduler.VisitExactly | src/lib/scheduler.ts:289-301 | a tick starts the task it comes to if and only if it is idle, due by the tick's own clock and switched on, and passes over any other without touching it |
| Scheduler.ReturnExactly | src/lib/scheduler.ts:311-315 | when a task settles it is idle, last run at the tick's clock reading and due an interval later; other tasks and ticks stay |
| Scheduler.SwitchedOffNeverStarts | src/lib/scheduler.ts:293-299 | in every run a task whose setting stays off never starts |
| Scheduler.OneTickPerTask | src/lib/scheduler.ts:289-301 | in every run no two ticks are inside the same task |
| Scheduler.StampsSpaced | src/lib/scheduler.ts:290-314 | in every run the stamps of a task's starts are at least its interval apart, however stale the ticks' clocks |
| Scheduler.StartsSpaced | src/lib/scheduler.ts:289-315 | in every run no start precedes its stamp, a later start of the task comes at least an interval after the earlier stamp, and the real spacing falls short of the interval by at most the earlier tick's delay |
| Scheduler.StartsCanCrowd | src/lib/scheduler.ts:286-317 | for every interval and every delay up to it, some run brings two starts of a task closer together by exactly that delay |
| Scheduler.LastRunIsLatestStart | src/lib/scheduler.ts:311-315 | an idle task's lastRun is the stamp of its latest start and its nextRun an interval later |
| Scheduler.TaskTable.VisitNext | src/lib/scheduler.ts:289-301 | visiting the next task in place is the Visit step and tells whether the task starts |
| Scheduler.TaskTable.FinishTask | src/lib/scheduler.ts:311-315 | the finally block in place is the Return step |
| RateLimit.CleanupInvisible | src/lib/rate-limit.ts:45-66 | cleanups and other clients' requests change no answer: the shared purged store answers like a never-purged counter per client |
| RateLimit.StoreExactly | src/lib/rate-limit.ts:45-66 | a cleanup drops exactly the counters whose window is over; a request opens a new window exactly then and otherwise counts one more, for its client alone |
| RateLimit.QuotaPerWindow | src/lib/rate-limit.ts:61-72 | in the window a request opens, exactly the first maxRequests requests are let through |
| RateLimit.QuotaPerSpan | src/lib/rate-limit.ts:54-75 | from any counter, a span of one window length lets at most twice the quota less one through |
| RateLimit.AtMostTwoQuotasPerSpan | src/lib/rate-limit.ts:54-75 | the same in every run of the shared store, whatever came before, whoever else requests and whenever cleanups happen |
| RateLimit.BoundReached | src/lib/rate-limit.ts:61-72 | for every limit and window a burst attains that bound |
| RateLimit.QuotaPerWindowInRun | src/lib/rate-limit.ts:45-72 | in every run of the shared store, once a client's request finds its window over, exactly the first quota of its requests within the next window length is let through |
| RateLimit.BoundReachedInRun | src/lib/rate-limit.ts:54-75 | for every positive limit, window and client a run of the store attains the bound within one millisecond |
| RateLimit.RateLimiter.Check | src/lib/rate-limit.ts:54-75 | one request answered and counted in place, the test bypass included |
| RateLimit.RateLimiter.CleanUp | src/lib/rate-limit.ts:45-50 | the deletion loop removes exactly the expired entries |
| RateLimit.ExtractClientIp | src/lib/rate-limit.ts:26-39 | the rightmost untrusted forwarded address, else the real-ip header, else unknown |
| AgentSync.MergeSelf | src/lib/agent-sync.ts:244-261 | merging a tree into itself changes nothing |
| AgentSync.MergeTwice | src/lib/agent-sync.ts:244-261 | merging the same source again changes nothing |
| AgentSync.MergeKeepsUntouched | src/lib/agent-sync.ts:243-261 | every target path the source does not touch keeps its value |
| AgentSync.MergeTakesSource | src/lib/agent-sync.ts:246-258 | every non-object value of the source is in the result at its path |
| AgentSync.WriteAgentMerges | src/lib/agent-sync.ts:231-236 | writing an agent keeps every path of the first entry with its id that the agent leaves untouched, has every non-object value of the agent at its path, adds no other path, and leaves the other entries |
| AgentSync.WriteAgentAppends | src/lib/agent-sync.ts:236-238 | without an entry of its id the agent is appended unchanged |
| AgentSync.MapAgentExactly | src/lib/agent-sync.ts:79-86 | the mapped name is the identity's, else the agent's own, else its id; the role is the theme, else agent |
| AgentSync.MergeIntoCovering | src/lib/agent-sync.ts:244-261 | merging gives back the source exactly when the source has every key of the target down to non-objects |
| AgentSync.MergeAssociates | src/lib/agent-sync.ts:244-261 | the merge associates if and only if no middle non-object separates two objects the last of which does not cover the first |
| AgentSync.WriteAgentIdempotent | src/lib/agent-sync.ts:231-238 | writing an agent twice is writing it once if and only if its id is not an array or object |
| AgentSync.WriteAgentLocal | src/lib/agent-sync.ts:231-238 | writing keeps ids unique, leaves every other entry as and where it is, and the entry has the agent's id |
| AgentSync.Preview | src/lib/agent-sync.ts:184-216 | the preview's loops compute the counts, the new and updated names in the configuration's order, and the names only in the table in the order of its rows |
| AgentSync.PreviewListsExactly | src/lib/agent-sync.ts:195-206 | the new names are exactly the configured names without a row, the updated ones exactly those of which some agent differs from the row in role or configuration |
| AgentSync.PreviewPredictsSync | src/lib/agent-sync.ts:132-206 | for distinct mapped names the preview lists exactly the agents the sync creates and updates, in order, and the sync leaves the onlyInMC rows untouched |
| AgentSync.SecondSyncIsQuiet | src/lib/agent-sync.ts:132-156 | an immediate second sync creates and updates nothing if and only if agents mapped to one name agree, and then changes no row |
| AgentSync.RowsAfterSync | src/lib/agent-sync.ts:122-152 | after a sync exactly the old and the configured names have rows; old rows keep their creation time, changed or new rows carry the time of the sync, unconfigured rows stay |
| AgentSync.LastAgentStored | src/lib/agent-sync.ts:132-152 | the row of a name carries role and configuration of the last agent mapped to it |
| AgentSync.AgentTable.UpsertAgent | src/lib/agent-sync.ts:134-152 | one agent upserted in place, with the action taken |
| AgentSync.AgentTable.Sync | src/lib/agent-sync.ts:132-154 | the transaction's loop leaves the synced table and counts exactly the created and updated agents |
| Migrations.RunCutFrom | src/lib/migrations.ts:565-571 | a run cut after any number of commits leaves a longer or equal prefix of the migrations applied |
| Migrations.AlwaysAPrefix | src/lib/migrations.ts:553-572 | after any sequence of cut runs, of older releases too, recorded ids are a prefix of the list and the schema is that prefix applied once each in order |
| Migrations.CompleteThenNoOp | src/lib/migrations.ts:553-572 | an uncut run completes the list and any later run changes nothing |
| Migrations.Database.RunMigrations | src/lib/migrations.ts:561-571 | the loop in place, dying after a given number of commits, is the cut run |
| AuthSessions.ValidatesExactly | src/lib/auth.ts:98-111 | in every run a token validates exactly when it was created less than seven days ago and neither logged out nor deleted with its user since; the purge cannot be seen |
| AuthSessions.HistoryForward | src/lib/auth.ts:78-96 | a token alive by the history is in the table with its user and expiry unless it has expired |
| AuthSessions.HistoryBackward | src/lib/auth.ts:129-137 | every stored session goes back to a creation after which nothing destroyed it |
| AuthSessions.DeletedForever | src/lib/auth.ts:226-231 | in every run a deleted user never has a session again |
| AuthSessions.NewUserLogsIn | src/lib/auth.ts:76-96 | after any run a new user can log in, and the session lasts exactly seven days unless it or the user is removed |
| AuthSessions.SessionStore.CreateSession | src/lib/auth.ts:78-96 | creation with the purge in place is the Create step; it succeeds for existing users and the token then validates |
| AuthSessions.SessionStore.ValidateSession | src/lib/auth.ts:98-111 | validation answers the session's user exactly when the token validates |
| AuthSessions.SessionStore.DestroySession | src/lib/auth.ts:129-132 | logout in place is the Destroy step |
| AuthSessions.SessionStore.DestroyAllUserSessions | src/lib/auth.ts:134-137 | removing a user's sessions in place is the DestroyAll step |
| AuthSessions.SessionStore.RemoveUser | src/lib/auth.ts:226-231 | deleting a user in place is the DeleteUser step and tells whether a row went |
| Transcripts.SplitAnywhere | src/lib/claude-sessions.ts:92-157 | reading a transcript cut at any line equals combining its halves: ids and start time first-wins, model, prompt and end time last-wins, counts and tokens added |
| Transcripts.CombineMonoid | src/lib/claude-sessions.ts:79-90 | pieces may be combined in any grouping, and the initial accumulators are neutral |
| Transcripts.MessagesCounted | src/lib/claude-sessions.ts:121-135 | the message counts are those of the non-sidechain messages of either kind |
| Transcripts.FirstWins | src/lib/claude-sessions.ts:100-117 | session id, branch, directory and start time are those of the first line carrying one |
| Transcripts.LastWins | src/lib/claude-sessions.ts:116-139 | end time, model and prompt are those of the last line carrying one, sidechains counted for the time only, the prompt cut to 500 characters |
| Transcripts.TotalsSummed | src/lib/claude-sessions.ts:141-155 | token and tool counts are totals over the non-sidechain assistant messages, cache tokens counted as input |
| Transcripts.SummaryUnique | src/lib/claude-sessions.ts:79-157 | the description of a transcript's statistics by first, last, counts and totals is met by one value only |
| Transcripts.ParseLines | src/lib/claude-sessions.ts:79-186 | the line loop with its dozen accumulators answers exactly when no line throws and some line carries a session id, and then with the first id, branch, directory and time, the last time, model and prompt, the message counts and the token and tool totals of the lines |
| Transcripts.ActiveAfterSync | src/lib/claude-sessions.ts:272-287 | an empty scan changes nothing; after any other the active rows are exactly the sessions whose last scanned entry is active, and rows that were not scanned otherwise stay |
| Transcripts.RowAfterSync | src/lib/claude-sessions.ts:247-287 | a scanned session's row tells what its last scanned entry says, except that project, directory and first message are those of the row that was there or else of the first scanned entry |
| Transcripts.SessionTable.Sync | src/lib/claude-sessions.ts:272-287 | clearing all flags and upserting in a loop gives the synced table |

## Left out

- User interface, browser hooks and the client-side store: no server-side state.
- HTTP, sockets, processes, files and SQLite itself: nondeterministic event inputs or atomic table updates; a database error in the middle of recording a delivery is modelled only as losing the whole recording.
- Which event types an internal server event is mapped to: the fired event type is an input.
- Which of the daemon's error messages a refused command gets: the model names them, the results say accepted or refused.
- HMAC signatures, password hashing, random tokens and constant-time comparison.
- Response bodies, durations, log, audit and activity text.
- The choice among delivery rows created in the same second when pruning: any choice the query permits.
- Tenant status rows, which the code may set to a remembered status or to error.
- Artifact files written before a bootstrap starts: they enter as whether writing them succeeded.
- Stdout and stderr of steps, and the sleep between useradd attempts.
- Scheduler restarts and manual triggers.
- ProvisionJobs.JobForever: a database error after the UPDATE to completed (src/lib/super-admin.ts:807-855: the tenant's status, the finish event, the audit entry) reaches the catch, which overwrites the job as failed with all its steps recorded; database errors there are not modelled.
- ProvisionJobs.ResultsInEveryRun: by the same unmodelled error a failed job could list its whole plan instead of a strict prefix.
- ProvisionJobs.JobStore.ResumeJob: the loop over the plan is cut at its awaits into one resumption per step, because other requests run in between.
- Order of object keys, and keys such as `__proto__` that JavaScript objects treat specially, in the deep merge; entries of the agents list that are not objects.
- Reading and writing openclaw.json, and the stringified agent configuration, which is an opaque text known not to be empty or `{}` because it always lists isDefault.
- Transcripts.ParseLines: estimated cost (floating point), the active flag's date arithmetic and directory scanning are not modelled; a session's active flag is an input of the upsert.
- Unicode trimming and lower-casing of tenant requests: arbitrary functions in the acceptance checks.
- The body of each migration: an arbitrary function of the schema.
