# Verified models of the asas protocols

This project models the stateful protocols of the asas packages in Dafny and proves
what each of them keeps in every interleaving. `dafny verify dfyconfig.toml` checks it.

Protocols are state machines: a state, the atomic steps, and runs as sequences of
steps, where one step is one committed database transaction or one stretch of code
between two awaits. Main results hold in every state that any run reaches. Code that
updates objects is also written as classes: their methods are proved to do what the
machine's functions say, with others free to act in every gap between two transactions
or awaits.

| subject | modules |
|---|---|
| tool calls of one agent run: the readers/writer barrier and the ordered trace | `TraceLog`, `AgentLoop`, `AgentProofs`, `AgentRules`, `AgentGate` |
| job queue and scheduler: claims, settles, leases, reclaims, ticks | `JobTable`, `JobMachine`, `JobProofs`, `ScheduleProofs`, `JobWorker`, `JobStore` |
| audit log: the hash chain, its verifier, and appending transactions | `AuditChain`, `AuditStore`, `AuditProofs`, `AuditSession` |
| notification outbox: overlapping dispatch passes | `Outbox`, `OutboxProofs`, `OutboxAttempts`, `OutboxRuns`, `OutboxDuplicates`, `OutboxStatus`, `OutboxStore` |
| Oracle client: the versioned read cache | `OracleCache`, `OraclePolicy`, `OracleProofs`, `OracleFreshness`, `OracleClient` |
| lookup seeding: from a file, and from templates to an organisation | `LookupTables`, `LookupSeed`, `LookupProofs`, `LookupRows`, `LookupReruns`, `LookupFiles`, `LookupOrgs`, `LookupSession` |
| layered prompt store | `PromptStore`, `PromptProofs` |

## Where the code does not do what its documentation says

- `MAX_ATTEMPTS` does not bound the attempts of a notification delivery. The count a row
  records is the attempts made, throughout a run, if and only if no pass writes from a
  count it read before another one wrote and none dies with an attempt unwritten
  (`OutboxAttempts.AttemptsExactIff`), and then the bound holds
  (`OutboxAttempts.AttemptsBounded`). Overlapping passes break the first without any
  crash (`OutboxRuns.MaxAttemptsCanBePassed`), and a delivery that kills its worker breaks
  the second and is attempted for ever (`OutboxRuns.CrashesAreNotCounted`). In every run
  the attempts made are the recorded ones plus the drift of overlapping reads, those in
  hand and those lost to crashes (`OutboxAttempts.AttemptsAreAccountedFor`).
- The outbox promises that only a crash between a send and its mark repeats a send. That
  holds if and only if no send and its mark outlast the stale-claim window
  (`OutboxDuplicates.SentOncePlusCrashesIff`), which the code does not enforce: once they
  may take one second longer, a delivery can be sent any number of times without a crash
  (`OutboxDuplicates.SlowSendsAreUnbounded`).
- Lookup seeding says that only a row it did not just write can be short of a `meta`
  key. A row whose labels it heals is just written and can be short too, so a second run
  tops it up and raises the type's version again (`LookupReruns.SecondRunCanChange`,
  `LookupReruns.HealedShortIsChangedAgain`). A second run is quiet if and only if the
  first healed no such row (`LookupReruns.SecondRunIsQuietIff`, and for a whole file
  `LookupFiles.SecondFileRunIsQuietIff`).
- The Oracle cache says that a write makes every cached read stale at once. Its version
  counters expire, a day or the longest time to live after their last raise, and start
  over at 0; version numbers recur, and a slow read can then store a body from before the
  write where later reads find it. Reads are fresh for as long as the first counter lives,
  and for longer if and only if no write makes the resource stale or no body of it is ever
  kept (`OracleFreshness.FreshForIff`, `OracleFreshness.AlwaysFreshIff`); in the host's
  terms, the resource is not cached (`OracleFreshness.AlwaysFreshIffUncached`).
- The prompt store marks a copy `source="cache"` as the last good one; a shipped file's
  copy is cached like an answer and gets the same mark although the registry never
  answered (`PromptProofs.CacheMarkWithoutAFetch`). The mark means the latest answer of
  the registry if and only if the registry answered the call that filled the empty slot
  or a later one (`PromptProofs.CacheMarkIsLastGoodIff`): always without a fallback, and
  always when it answered the first call since the last invalidation.

## Model

| member | source | states |
|---|---|---|
| AgentProofs.InterleavingIsSerial | packages/asas-agent/src/asas_agent/loop.py:203-360 | any interleaving in which all started calls have ended gives the trace, replies, active skill and host state of running the calls one by one in index order, given that read-only tools leave the host alone and activate_skill is not read-only |
| AgentProofs.TraceIsSerialPrefix | packages/asas-agent/src/asas_agent/loop.py:223-239 | at every moment the trace is the serial trace of the calls released so far, ascending in index, and the sink has received exactly it |
| AgentProofs.BodiesDoNotOverlap | packages/asas-agent/src/asas_agent/loop.py:203-262 | of two calls at least one of which is not read-only, the later one's body starts only after the earlier one ended |
| AgentProofs.ExclusiveRunsAlone | packages/asas-agent/src/asas_agent/loop.py:248-258 | in every reachable state, while a call that is not read-only runs, no other call does |
| AgentProofs.LowestCallIsNeverBlocked | packages/asas-agent/src/asas_agent/loop.py:242-262 | while a call is unfinished the lowest-indexed unfinished one can always take its next step, so the waits cannot deadlock, pruning and over-budget calls included |
| AgentProofs.GateOpens | packages/asas-agent/src/asas_agent/loop.py:248-258 | once the events a call waits for are set, every conflicting call before it has ended, although it waits only for the last exclusive call and the reads since |
| AgentProofs.NewWaitsCover | packages/asas-agent/src/asas_agent/loop.py:248-253 | the waits a new call takes cover every conflicting call before it, directly or through an exclusive call it waits for |
| AgentProofs.RunKeeps | packages/asas-agent/src/asas_agent/loop.py:242-360 | the scheduler's invariant (barrier, frontier, world, log) holds after every run |
| AgentRules.TraceKeepsRules | packages/asas-agent/src/asas_agent/loop.py:216-221 | in every run each traced event tells of the call of its index: refused with `denied`, the skill untouched, unless it is activate_skill, always available or a tool of the skill in force; activate_skill makes a known skill active and leaves it otherwise with `unknown_skill`; anything else carries its handler's answer; the skill an event begins under is the one the event before it left |
| AgentRules.HandlersRunIff | packages/asas-agent/src/asas_agent/loop.py:264-343 | in every run, of the traced calls exactly those have run their handler that are not activate_skill and are always available or a tool of the skill their event begins under |
| AgentRules.EnterRules | packages/asas-agent/src/asas_agent/loop.py:264-307 | a call that gets its turn begins its handler exactly if it is offered under the skill in force, and otherwise ends at once with the host untouched |
| AgentRules.WhatStepsTouch | packages/asas-agent/src/asas_agent/loop.py:328-330 | only a running handler touches the host, under the skill it began with, and only activate_skill moves the skill |
| AgentRules.OverBudgetIsUntold | packages/asas-agent/src/asas_agent/loop.py:255-256 | a call past `max_tools` is neither run nor traced, and every other call the trace has reached has one event |
| AgentRules.MayBeginIff | packages/asas-agent/src/asas_agent/loop.py:245-258 | in every reachable state a waiting call may begin if and only if every call before it has ended that is not read-only, or every call before it if it is not read-only itself |
| AgentGate.Gate.Prune | packages/asas-agent/src/asas_agent/loop.py:250 | the pruned list holds exactly the reads that have not ended |
| AgentGate.Gate.Take | packages/asas-agent/src/asas_agent/loop.py:245-258 | taking an index, the waits and a place updates the object to the machine's next state, over-budget calls ending at once |
| AgentGate.Gate.Set | packages/asas-agent/src/asas_agent/loop.py:260-262 | ending a call sets its event and nothing else |
| TraceLog.CallTrace.ReleaseTrace | packages/asas-agent/src/asas_agent/loop.py:231-239 | the releasing loop moves exactly the consecutive held events to trace and sink |
| TraceLog.CallTrace.Observe | packages/asas-agent/src/asas_agent/loop.py:223-225 | observing an event holds it and releases what has become consecutive |
| TraceLog.CallTrace.End | packages/asas-agent/src/asas_agent/loop.py:227-229 | ending an index fills its place only if it is empty, then releases, also when the index was released already |
| TraceLog.ReleaseMirrors | packages/asas-agent/src/asas_agent/loop.py:231-239 | releasing keeps the log a mirror of the calls that have ended, although a released index can be back in `held` |
| TraceLog.ClosedMirrors | packages/asas-agent/src/asas_agent/loop.py:223-229 | observing and then ending a call adds exactly its event, once |
| TraceLog.TraceIsOrdered | packages/asas-agent/src/asas_agent/loop.py:223-239 | the trace is strictly increasing in call index and holds each released event exactly once |
| TraceLog.AllClosedAllTraced | packages/asas-agent/src/asas_agent/loop.py:231-239 | once every started call has ended, `traced` is the number of calls |
| JobProofs.WorkerIdIsAToken | packages/asas-jobs/src/asas_jobs/queue.py:130-191 | comparing the worker id decides exactly what a unique claim number would: a settle goes through if and only if the row is still under the claim its handler ran under, and a lapsed claim's settle changes nothing |
| JobProofs.VerdictFitsTheRow | packages/asas-jobs/src/asas_jobs/queue.py:156-191 | a failed attempt whose settle goes through is retried exactly while attempts remain, due again that attempt's backoff later |
| JobProofs.BackoffDoubles | packages/asas-jobs/src/asas_jobs/queue.py:174-176 | the backoff is thirty seconds after the first attempt and doubles with each, up to an hour |
| JobProofs.BackoffDelays | packages/asas-jobs/src/asas_jobs/queue.py:99-105 | over all runs, a job that a failed attempt put back at t is selected again, before another claim, only by clocks that read at least t plus its backoff |
| JobProofs.OnlyDueIsSelected | packages/asas-jobs/src/asas_jobs/queue.py:99-105 | what a worker selects is queued and due by the clock it read |
| JobProofs.DisciplineIsNeeded | packages/asas-jobs/src/asas_jobs/queue.py:140-151 | claim, lapse, reclaim and second claim under one worker id leave a row that a settle of the first claim would meet |
| JobWorker.TwoHandlersBreakTheToken | packages/asas-jobs/src/asas_jobs/runner.py:60-70 | without one job at a time, from any database with a due job of two attempts left there is a run of two handlers of one worker id in which the first one's settle goes through against the second one's claim |
| JobWorker.PassIsARun | packages/asas-jobs/src/asas_jobs/runner.py:60-108 | a worker's statements among the steps of others are part of a run of the job machine, so what holds of every run holds of a pass |
| JobWorker.SelectsAreDue | packages/asas-jobs/src/asas_jobs/queue.py:99-105 | every select of a pass found a queued row whose `run_at` the clock it read had reached |
| JobProofs.TouchesLowerRank | packages/asas-jobs/src/asas_jobs/queue.py:112-232 | every change of a job's row uses up one of the moves it has left, and never its identity |
| JobProofs.EveryJobSettles | packages/asas-jobs/src/asas_jobs/queue.py:57-58 | a job's row changes at most 2 * max_attempts times after enqueue; queued means attempts left, running means within them with claimant and lease, succeeded and failed are absorbing |
| JobProofs.OneActiveJobPerKey | packages/asas-jobs/src/asas_jobs/queue.py:59-84 | at most one active job per (org, kind, dedupe_key), null org as its own class, over all interleavings, and a keyed enqueue returns a job of its own identity |
| JobProofs.ReclaimedRow | packages/asas-jobs/src/asas_jobs/queue.py:199-231 | a reclaim changes a row if and only if it runs under a lapsed lease: failed after its last attempt, queued and due at once before, its claim ended and its attempts kept |
| ScheduleProofs.EachTickWonOnce | packages/asas-jobs/src/asas_jobs/scheduler.py:45-54 | on any clocks, a schedule's values of `next_run_at` strictly increase and each is won at most once, for at most one job |
| ScheduleProofs.JobsAreSpaced | packages/asas-jobs/src/asas_jobs/scheduler.py:46-76 | N jobs of one schedule span at least (N - 1) cadences |
| ScheduleProofs.RowsAreTheWins | packages/asas-jobs/src/asas_jobs/scheduler.py:60-75 | a schedule's job rows are exactly the jobs of its won ticks |
| ScheduleProofs.AtMostOneActive | packages/asas-jobs/src/asas_jobs/scheduler.py:55-59 | with `no_overlap` on throughout, at most one queued or running job per schedule in every reachable state |
| ScheduleProofs.SkippedTickAdvances | packages/asas-jobs/src/asas_jobs/scheduler.py:46-59 | a tick that wins advances the schedule and skips the job exactly when the previous one is active; one that loses changes nothing |
| JobStore.Store.OldestDue | packages/asas-jobs/src/asas_jobs/queue.py:99-105 | a queued row with `run_at <= now` and none of the others of that kind before it, or no queued row has `run_at <= now` |
| JobStore.Store.ClaimNext | packages/asas-jobs/src/asas_jobs/queue.py:87-127 | whatever others do between its statements, the call's own effect is one claim of a still queued row that was the oldest with `run_at <= now` when read (running, under this worker, leased from now, one attempt more), or nothing, in at most five tries |
| JobStore.Store.MarkSucceeded | packages/asas-jobs/src/asas_jobs/queue.py:130-153 | true exactly when the row was this claimant's running row, and only then is it changed |
| JobStore.Store.MarkFailed | packages/asas-jobs/src/asas_jobs/queue.py:156-191 | only this claimant's running row changes: failed for good if dead-lettered or out of attempts as first read, else queued for that attempt's backoff from now, with the error cut to 2000 characters |
| JobStore.Store.ReclaimExpired | packages/asas-jobs/src/asas_jobs/queue.py:194-232 | every running job whose lease has lapsed is failed for good once its attempts are used up and queued again, due at once, before, each with its error; no other row changes, and the result is how many did |
| JobStore.Store.Enqueue | packages/asas-jobs/src/asas_jobs/queue.py:42-84 | refuses non-positive attempts; returns a queued or running job of the same kind, organisation and key at once; else inserts the row asked for, or after a lost insert returns the winner |
| JobStore.Store.Execute | packages/asas-jobs/src/asas_jobs/runner.py:73-108 | one settle of the claimed job: dead letter without a handler, failed after an exception, succeeded otherwise |
| JobStore.Store.Drain | packages/asas-jobs/src/asas_jobs/runner.py:60-70 | the pass does to the database exactly what its claims and settles do, one job at a time, others between any two statements, and ends only at the limit, when asked to stop, or when nothing was due or five claims in a row were lost |
| JobStore.Store.TickSchedules | packages/asas-jobs/src/asas_jobs/scheduler.py:28-76 | every schedule due at the start is ticked once, each as one transaction with others in between, and the result is the number of jobs added |
| JobStore.Store.EnsureSchedule | packages/asas-jobs/src/asas_jobs/scheduler.py:79-140 | creates the missing schedule, or after a lost insert goes on with the winner's; an existing one gets the declared values where it differed, `next_run_at` and `enabled` left |
| AuditChain.VerifyRows | packages/asas-audit/src/asas_audit/chain.py:166-219 | reports exactly the rows that do not link to the one before or whose id, tenant, actor, action, resource, payload and UTC moment do not hash to the stored fingerprint, in order, each with its id, number, action and both hashes, as unlinked or edited; none if and only if the chain is intact |
| AuditChain.UnsoundIs | packages/asas-audit/src/asas_audit/chain.py:185-218 | the reported positions are exactly those whose link or fingerprint is wrong, ascending |
| AuditChain.TailFixesHistory | packages/asas-audit/src/asas_audit/chain.py:123-125 | two intact histories that end in the same hash have the same length and agree in id, actor, action, resource type and id, payload, instant and both hashes of every row |
| AuditChain.DeletionBreaksOrphans | packages/asas-audit/src/asas_audit/chain.py:202-207 | deleting any rows of an intact chain breaks exactly the survivors whose immediate predecessor went, each as unlinked |
| AuditChain.DeletedSuffixStaysIntact | packages/asas-audit/src/asas_audit/chain.py:185-218 | what is left is intact if and only if the deleted rows are a suffix |
| AuditChain.EditsBreakEditedRows | packages/asas-audit/src/asas_audit/chain.py:208-217 | with the stored hashes kept, a row of an intact chain stays sound if and only if its id, actor, action, resource type and id, payload and instant each equal the original's; the others break, each as edited |
| AuditChain.OtherTenantBreaks | packages/asas-audit/src/asas_audit/chain.py:88-113 | no row of an intact chain is sound when verified for another tenant |
| AuditChain.BrokenRowsAreTheBreaks | packages/asas-audit/src/asas_audit/chain.py:202-213 | the rows counted by the deletion results are the rows the verifier reports |
| AuditChain.MomentSurvivesStorage | packages/asas-audit/src/asas_audit/chain.py:64-82 | a normalised moment hashes the same when read back on either engine; without normalising, on SQLite only if it was UTC |
| AuditProofs.EveryStateVerifies | packages/asas-audit/src/asas_audit/service.py:163-181 | in every reachable state of transactions that lock, append, commit or roll back, any tenant's rows as any viewer sees them verify intact |
| AuditProofs.ChainNeverForks | packages/asas-audit/src/asas_audit/service.py:123-155 | no two rows of a tenant, committed or in flight, share a predecessor |
| AuditProofs.ChainHoldsEveryRow | packages/asas-audit/src/asas_audit/service.py:123-155 | every row of a tenant stands in its one chain |
| AuditProofs.TailIsChainEnd | packages/asas-audit/src/asas_audit/service.py:124-130 | the lock holder's tail read, after the flush, finds the last row of the chain |
| AuditProofs.EveryRowRecordsAnEvent | packages/asas-audit/src/asas_audit/service.py:131-155 | in every run each committed row records, column by column, an event appended for its tenant, its moment in UTC |
| AuditSession.Session.Flush | packages/asas-audit/src/asas_audit/service.py:125-128 | pending rows are inserted in order; no tenant's entries change |
| AuditSession.Session.Tail | packages/asas-audit/src/asas_audit/service.py:73-79 | the visible row of the tenant with the greatest `seq`, if any |
| AuditSession.Session.Append | packages/asas-audit/src/asas_audit/service.py:82-160 | the new row records the event in each column, its hash covers all of them and the tenant's last entry as of the lock, rows others committed while it waited and this transaction's own included; other tenants' entries grow only by others' commits, an intact chain stays intact |
| AuditSession.AppendIsARun | packages/asas-audit/src/asas_audit/service.py:123-155 | one append, others taking steps before the lock and before the tail read, is part of a run of the transaction machine and leaves the transaction as Append leaves the session |
| OutboxProofs.OneOwner | packages/asas-notifications/src/asas_notifications/service.py:1147-1164 | if every live send finishes within the stale-claim window, at most one live pass owns a sending row, and an unconditional finish meets the row under that pass's own claim |
| OutboxStatus.FinishMarks | packages/asas-notifications/src/asas_notifications/service.py:1193-1216 | a delivered send leaves its row sent, a skip or a missing adapter skipped, and a failed one written from count n pending with n + 1 attempts, so that the next pass may read it, if and only if that is below MAX_ATTEMPTS, and failed otherwise; no other row changes |
| OutboxStatus.OpenPutsBack | packages/asas-notifications/src/asas_notifications/service.py:1110-1115 | opening a pass puts back exactly the claims older than five minutes and reads only pending rows with attempts left |
| OutboxStatus.StatusIsEarned | packages/asas-notifications/src/asas_notifications/service.py:1193-1216 | in every run a delivery is sent only after an adapter reported it delivered, failed only with MAX_ATTEMPTS recorded, skipped only after a missing adapter or a skip |
| OutboxProofs.SentIsAbsorbing | packages/asas-notifications/src/asas_notifications/service.py:1160-1164 | sent, failed and skipped rows never change again |
| OutboxProofs.DuplicatesNeedCrashes | packages/asas-notifications/src/asas_notifications/service.py:1270-1282 | successful sends of a delivery never exceed one plus the crashes between its send and its mark |
| OutboxDuplicates.SentOncePlusCrashesIff | packages/asas-notifications/src/asas_notifications/service.py:1112-1117 | for any number of seconds that sends and their marks may take: successful sends never exceed one plus the crashes, in every run, if and only if that number is at most `STALE_CLAIM_SECONDS` |
| OutboxDuplicates.SlowSendsAreUnbounded | packages/asas-notifications/src/asas_notifications/service.py:1208-1216 | for every n, if sends may take one second longer than the stale-claim window, some run without a crash sends one delivery n times |
| OutboxAttempts.AttemptsAreAccountedFor | packages/asas-notifications/src/asas_notifications/service.py:1193-1216 | in every run the attempts made of a delivery are exactly those its row records plus the drift, those in hand and those lost to crashes; the row never records more than were made, nor more than MAX_ATTEMPTS |
| OutboxAttempts.NextSendIsPastTheBoundIff | packages/asas-notifications/src/asas_notifications/service.py:1137 | in a timely run the next send is an attempt past MAX_ATTEMPTS if and only if those lost to crashes and the drift reach what the row's count leaves |
| OutboxAttempts.AttemptsBoundedIff | packages/asas-notifications/src/asas_notifications/service.py:1137 | in a timely run MAX_ATTEMPTS bounds the attempts made if and only if those lost to crashes, the drift and the one in hand fit into what the row's count leaves |
| OutboxAttempts.AttemptsExactIff | packages/asas-notifications/src/asas_notifications/service.py:1193-1216 | the recorded attempts and those in hand are the attempts made, throughout a run, if and only if every recording pass held the row's current count and no pass died with an attempt unwritten |
| OutboxAttempts.AttemptsBounded | packages/asas-notifications/src/asas_notifications/service.py:1137 | in a timely run of that kind MAX_ATTEMPTS bounds the attempts made |
| OutboxRuns.MaxAttemptsCanBePassed | packages/asas-notifications/src/asas_notifications/service.py:1208-1216 | for every n a timely run without a crash makes n attempts of a delivery that still waits for its next, its row recording at most one |
| OutboxRuns.CrashesAreNotCounted | packages/asas-notifications/src/asas_notifications/service.py:1112-1117 | for every n a timely run in which no pass writes from an outdated count makes n attempts of a delivery whose row records none, every pass dying before it wrote |
| OutboxStore.Store.OpenPass | packages/asas-notifications/src/asas_notifications/service.py:1106-1144 | stale claims go back to pending, then the lowest eligible ids are read, at most `limit` |
| OutboxStore.Store.Claim | packages/asas-notifications/src/asas_notifications/service.py:1147-1157 | true exactly when this pass took the row from pending |
| OutboxStore.Store.DispatchPending | packages/asas-notifications/src/asas_notifications/service.py:1240-1282 | claims put back and rows read as in OpenPass; then for each row read, if still pending, claimed, sent and marked column by column by what became of the send, and otherwise left to the pass that has it, others running between any two transactions; returns how many it handled |
| OutboxStore.Store.Finish | packages/asas-notifications/src/asas_notifications/service.py:1160-1164 | marks the row by the outcome, from the count the pass read, whatever the row holds |
| OutboxStore.PassIsARun | packages/asas-notifications/src/asas_notifications/service.py:1270-1282 | a pass carried out among others who take steps of their own, from the transaction that opens it to its last mark, is part of a run of the machine, so what holds of every run holds of it |
| OracleProofs.ReadsSeeReturnedWrites | packages/asas-oracle/src/asas_oracle/client.py:506-522 | a read started after a write returned, of a resource declared for the written path's name, answers as the server stood once it had taken that write or later, slow reads in flight or not, while that resource's counter has not expired |
| OracleProofs.ReadsForgetWhatWritesDisplace | packages/asas-oracle/src/asas_oracle/client.py:584-593 | a read started once a write has raised its counters the first time never answers with a body fetched before that write began, even if the write fails |
| OracleProofs.AnswersAreYoung | packages/asas-oracle/src/asas_oracle/client.py:509-522 | expired counters or not, a cached answer was stored less than its resource's time to live ago, an empty one also less than the shorter time, for the same path, query and headers |
| OracleProofs.AnsweredFromCacheIff | packages/asas-oracle/src/asas_oracle/client.py:511-515 | a read that looks is answered from the cache if and only if a body is stored under its key and has been for less than its time |
| OracleProofs.StoresWhatIsKept | packages/asas-oracle/src/asas_oracle/client.py:518-521 | an answer is stored, for its time, if and only if that time is positive |
| OracleProofs.ReadsBegin | packages/asas-oracle/src/asas_oracle/client.py:504-512 | a read goes by the cache exactly if the caller allows it and the host has its resource cached, keyed by version, path, query and headers; otherwise it neither looks nor stores |
| OraclePolicy.ResourceIs | packages/asas-oracle/src/asas_oracle/client.py:170-171 | the resource of a path is the name after its leading slashes, up to the next slash or question mark, and nothing else is |
| OraclePolicy.StaleIs | packages/asas-oracle/src/asas_oracle/client.py:470-474 | a write makes stale what is declared for the first segment of its path, all of it and no more |
| OraclePolicy.RequestIs | packages/asas-oracle/src/asas_oracle/client.py:504-507 | what is sent is the caller's parameters less the empty ones, `onlyData` unless given, and the caller's headers |
| OraclePolicy.CounterTtlIs | packages/asas-oracle/src/asas_oracle/client.py:472-474 | a counter lives a day, or the longest time to live if that is longer |
| OracleFreshness.FreshForIff | packages/asas-oracle/src/asas_oracle/client.py:470-474 | for any number of seconds: in all runs that long, a read of the resource started after a write declared to make it stale returned answers as of that write or later, if and only if the time is shorter than a counter lives, no write is declared to, or no body of it is ever kept |
| OracleFreshness.AlwaysFreshIff | packages/asas-oracle/src/asas_oracle/client.py:470-474 | for a resource that some write makes stale this holds for all time if and only if no body of it is ever kept |
| OracleFreshness.AlwaysFreshIffUncached | packages/asas-oracle/src/asas_oracle/client.py:509-521 | and, if the server ever has items to answer or empty answers are kept, if and only if the resource is not cached |
| OracleFreshness.ExpiredCounterServesOldBody | packages/asas-oracle/src/asas_oracle/client.py:470-474 | for any body that is kept, however briefly, of a resource a write makes stale, there is a run that ends when the counter has just expired and answers a read started after the write returned with that older body |
| OracleProofs.RaisingPutsOutOfReach | packages/asas-oracle/src/asas_oracle/client.py:470-474 | after a raise every body stored for the resource, and every key a read in flight will store under, has a version below the one later reads take |
| OracleClient.MemoryCache.LookUp | packages/asas-oracle/src/asas_oracle/cache.py:42-50 | answers unexpired entries only and drops an expired one |
| OracleClient.MemoryCache.Set | packages/asas-oracle/src/asas_oracle/cache.py:56-58 | stores for a positive time to live only |
| OracleClient.MemoryCache.Incr | packages/asas-oracle/src/asas_oracle/cache.py:64-67 | one more than the live counter, or 1 after an expiry, with a fresh time to live |
| OracleClient.Client.Invalidate | packages/asas-oracle/src/asas_oracle/client.py:470-474 | raises the counter of each stale resource in turn; with nobody else running, the counter of every resource declared for the path's name is then above what it was and nothing else differs |
| OracleClient.Client.Get | packages/asas-oracle/src/asas_oracle/client.py:478-522 | carries out exactly the moves of one read, others running at every await; an error stores nothing |
| OracleClient.UncachedReads | packages/asas-oracle/src/asas_oracle/client.py:504-522 | a read the caller does not let go by the cache, or of a resource that is not cached, is the server's answer, and it leaves the cache to others |
| OracleClient.Client.Write | packages/asas-oracle/src/asas_oracle/client.py:584-604 | raises the counters before the request and again only once the server answered; with nobody else running, every declared counter ends above what it was and nothing else differs |
| OracleClient.ReadIsARun | packages/asas-oracle/src/asas_oracle/client.py:511-522 | a read carried out among others who take steps of their own is part of a run of the machine |
| LookupProofs.SeedFills | packages/asas-lookups/src/asas_lookups/seeding.py:345-405 | each value of the file ends with the row the file gives it, an existing one only healed or topped up and its NULL pointers set to rows of the codes named; every other row is as it was |
| LookupRows.SeedFillsColumns | packages/asas-lookups/src/asas_lookups/seeding.py:247-301 | column by column: a new row has the file's status, default, order, dates, meta, labels and aliases; an old one keeps its columns and gets labels and absent aliases if it had no label, absent `meta` keys if it had one; each pointer is as it was or to the row of the code the file gives |
| LookupRows.LinkFieldIs | packages/asas-lookups/src/asas_lookups/seeding.py:408-455 | one pointer is left if the value has no row, the file names no target or it is set; an error if the target has no row; and else set to it, nothing else moving |
| LookupProofs.SeedingOnlyAdds | packages/asas-lookups/src/asas_lookups/seeding.py:247-301 | from any starting state, failed runs included, no row goes and no existing column, label, alias, `meta` key or non-null pointer changes |
| LookupProofs.VersionTellsChange | packages/asas-lookups/src/asas_lookups/seeding.py:336-342 | the type's version goes up, by one and on that type alone, if and only if some row changed |
| LookupProofs.OnlyScopeRefuses | packages/asas-lookups/src/asas_lookups/seeding.py:75-89 | seeding a loaded type fails exactly when the type exists under another declared scope, and then changes nothing; no link of a loaded file fails |
| LookupReruns.QuietIffComplete | packages/asas-lookups/src/asas_lookups/seeding.py:345-405 | a run changes nothing if and only if every value's row is labelled, lacks no `meta` key and has its pointers |
| LookupReruns.SecondRunIsQuietIff | packages/asas-lookups/src/asas_lookups/seeding.py:398-402 | a second run changes nothing if and only if the first healed no row short of a `meta` key of the file |
| LookupReruns.HealedShortIsChangedAgain | packages/asas-lookups/src/asas_lookups/seeding.py:398-402 | otherwise the second run changes rows and raises the version again |
| LookupReruns.SecondRunCanChange | packages/asas-lookups/src/asas_lookups/seeding.py:257-283 | for any type and value there is a starting state where that happens |
| LookupReruns.ThirdRunIsQuiet | packages/asas-lookups/src/asas_lookups/seeding.py:345-405 | a third run never changes anything |
| LookupFiles.SecondFileRunIsQuietIff | packages/asas-lookups/src/asas_lookups/seeding.py:502-512 | the same for a whole file of types |
| LookupFiles.FilesOnlyAdd | packages/asas-lookups/src/asas_lookups/seeding.py:502-512 | a file only adds, also when one of its types fails |
| LookupOrgs.CopyIsHomomorphic | packages/asas-lookups/src/asas_lookups/seeding.py:173-199 | a new copy is its template with each in-type pointer mapped to the organisation's own row of the same code, never to a template, and pointers out of the type left empty |
| LookupOrgs.LinesAreCopied | packages/asas-lookups/src/asas_lookups/seeding.py:186-199 | for an organisation that had none of the type's codes, the codes above a copy are those above its template, to any height |
| LookupOrgs.RunAddsWhatItReports | packages/asas-lookups/src/asas_lookups/seeding.py:109-208 | a run adds as many rows as it returns, all the organisation's, changes no existing row, and leaves no template without a row |
| LookupOrgs.SecondRunIsQuiet | packages/asas-lookups/src/asas_lookups/seeding.py:109-208 | a second run creates nothing and bumps no version |
| LookupSession.Session.TypeFor | packages/asas-lookups/src/asas_lookups/seeding.py:25-106 | refused if open but not scoped to organisations, or there under another scope than declared; found as it is; or made with the file's columns, for the platform and sorted by label where it gives none |
| LookupSession.Session.ValueFor | packages/asas-lookups/src/asas_lookups/seeding.py:216-301 | inserts a missing value, heals a label-less one, leaves any other |
| LookupSession.Session.TopUp | packages/asas-lookups/src/asas_lookups/seeding.py:463-485 | adds the absent keys and keeps the present ones |
| LookupSession.Session.LinkPass | packages/asas-lookups/src/asas_lookups/seeding.py:408-455 | fills pointers while NULL; a missing target leaves all links undone |
| LookupSession.Session.SeedOne | packages/asas-lookups/src/asas_lookups/seeding.py:345-405 | the loops over a type's values and links compute the specified run |
| LookupSession.Session.SeedFile | packages/asas-lookups/src/asas_lookups/seeding.py:502-512 | one type after the other, up to the first error |
| LookupSession.Session.SeedOrgType | packages/asas-lookups/src/asas_lookups/seeding.py:128-206 | both passes over one type copy its missing templates with their pointers and bump the version if any |
| LookupSession.Session.SeedOrg | packages/asas-lookups/src/asas_lookups/seeding.py:109-208 | every org-scoped type once, returning the number of rows created |
| PromptProofs.NeverRaisesAfterAFetch | packages/asas-llm/src/asas_llm/prompts.py:302-349 | with stale copies allowed, after one answer of the registry and until invalidated, `get` never raises and serves the latest answer of the registry |
| PromptProofs.ServesTheLastCopy | packages/asas-llm/src/asas_llm/prompts.py:327-349 | the same from any call that was served, by the registry or the shipped file: until the next answer every call serves that very copy |
| PromptProofs.FirstLayerServes | packages/asas-llm/src/asas_llm/prompts.py:302-349 | a call is served by the first of fresh copy, registry, older copy if allowed, shipped file; it fails only if none can serve and then lists why in that order; what it got is kept, a failure changes nothing |
| PromptProofs.OneProbePerWindow | packages/asas-llm/src/asas_llm/prompts.py:304-324 | with a monotone clock, outage or not, the registry is asked for a key at most once per `cache_ttl` once something was served |
| PromptProofs.NextProbe | packages/asas-llm/src/asas_llm/prompts.py:307-324 | the next call for a key asks again if and only if the call that last asked had nothing to serve or its window is over |
| PromptProofs.NothingStaleIsServed | packages/asas-llm/src/asas_llm/prompts.py:327-349 | with stale copies off, what is served was given to this call or to one less than a window ago |
| PromptProofs.LogsAreSpaced | packages/asas-llm/src/asas_llm/prompts.py:351-356 | an outage is logged at most once per name in `log_every` seconds |
| PromptProofs.CacheMarkIsLastGoodIff | packages/asas-llm/src/asas_llm/prompts.py:302-340 | with stale copies allowed and sources that do not use the mark themselves, a prompt marked "cache" is the latest uncleared answer of the registry if and only if the registry answered the call that filled the empty slot or a later one; otherwise it is the shipped copy that call was given |
| PromptProofs.CacheMarkWithoutFallback | packages/asas-llm/src/asas_llm/prompts.py:340-349 | in particular always when no fallback is configured |
| PromptProofs.CacheMarkAfterAFirstAnswer | packages/asas-llm/src/asas_llm/prompts.py:302-325 | and always when the registry answered the first call since the last invalidation |
| PromptProofs.CacheMarkWithoutAFetch | packages/asas-llm/src/asas_llm/prompts.py:327-340 | a prompt can carry the mark "cache" although the registry never answered |
| PromptStore.LayeredPromptStore.Get | packages/asas-llm/src/asas_llm/prompts.py:302-325 | serves, asks, caches and logs as specified, asking the registry at most once |
| PromptStore.LayeredPromptStore.Degrade | packages/asas-llm/src/asas_llm/prompts.py:327-349 | the layers in order, and on failure the list of those tried |
| PromptStore.LayeredPromptStore.Invalidate | packages/asas-llm/src/asas_llm/prompts.py:378-384 | drops exactly the keys of the name, or all |

## Left out

- Hashing and encoding: the hash is any function without collisions whose digests are not empty, over digests of any length (a collision-free function into 32 bytes does not exist), and canonical JSON is the payload value itself.
- AuditStore: the SQLite path, whose mutex does not cover the commit, is not modelled; only the Postgres lock, held to the end of the transaction.
- AgentLoop: the ask tool is a tool like any other, run by its own body; `state.record` is not part of the state, because overlapping reads overwrite it in completion order; cancellation and exceptions that end the run are not steps, nor is a question that suspends the run.
- AgentLoop: what a tool does to the host is a sequence of uninterrupted stretches, and a read-only tool is assumed to leave the host as it was, which nothing in the loop enforces.
- JobStore.Store.ClaimNext: `FOR UPDATE SKIP LOCKED` only spares lost updates and is not modelled; a select sees every due row.
- JobStore.Store.Execute: the missing handler's kind is quoted as it is, without the escapes Python's `repr` may add.
- JobMachine: claims, settles and reclaims carry any clock reading; log lines are not modelled.
- ScheduleProofs.AtMostOneActive: holds while `no_overlap` has been on since the schedule was created, because turning it off lets jobs stack and turning it on does not unstack them.
- ScheduleProofs.JobsAreSpaced: for schedules whose cadence changes, the cadence is the least one any of its ticks used.
- Outbox: `bind`, tenant visibility, the notification columns an adapter is handed and the asynchronous twin are not modelled; an adapter is a function of the row.
- Outbox: one clock serves all passes, while the stale cutoff and `claimed_at` are read on different hosts' clocks; skew between them counts against the window.
- OutboxAttempts.AttemptsAreAccountedFor: an attempt is counted when the adapter's outcome is known; a pass that dies inside the adapter's call is not counted as one.
- OutboxProofs.OneOwner: rests on the timing assumption that no send and its mark outlast `STALE_CLAIM_SECONDS`, which the code does not enforce; `OutboxDuplicates.SentOncePlusCrashesIff` says what that costs.
- OracleCache: keys are values, so collisions of the SHA-1 digest or of resource names containing a colon are not modelled; retries, authentication and error classes of a request are one step that takes it or not.
- OracleClient: paging (`iter_collection`), `NullCache` and `clear` are left out; they add no state of their own.
- OracleProofs.ReadsSeeReturnedWrites: needs the counter of that resource not to expire on the way, which holds of every run shorter than a counter's life; the clock of a read between two awaits is one reading, in whole seconds.
- LookupTables: translations and aliases are sequences on their value and get no ids of their own; timestamps are left out.
- LookupSeed: `seed.json` parsing is left out; what the loader refuses is a predicate on the parsed file, and `_link_pass` walks the values in file order instead of a dictionary of those with pointers, which is the same for unique codes.
- PromptStore: `names` and `warm` are left out, and calls are sequential, so two threads that miss at once and both ask are not modelled; time is a real number.
- Access decisions, notification routing and feeds, the schema walker, the HTTP transports, migrations and the command line: settled by reading one function, or input and output.
