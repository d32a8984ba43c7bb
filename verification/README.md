# Verified core of the shopping load-test and chaos tooling

This project models, in Dafny, the parts of the repository whose correctness is
a matter of argument rather than of reading: the connection pool limiter, the
compound-failure load test, the Redis namespace migration, the import rewriter,
the statistics collectors, and a few arithmetic and combinatorial cores. Each
module first gives the behaviour of the code, then proves what it keeps over
every input, every run or every interleaving.

`dafny verify dfyconfig.toml` checks the whole project.

## How it is organised

| file | models |
|---|---|
| `PoolLimiter.dfy` | the limiter as a monitor: a step relation over any number of requests, each with its own limit |
| `LockOrder.dfy` | the phase, failure and metrics locks of the load test: any users, any operations, any interleaving |
| `FailureRegistry.dfy` | the failure dictionary with lazy expiry, refined to its event log |
| `PhaseController.dfy` | the timed phase machine |
| `RetryLoop.dfy`, `SharedMetrics.dfy` | the two retry loops and what they count; the counters as all users share them |
| `CircuitHistory.dfy` | the record of circuit state changes |
| `NamespaceMigration.dfy` | copying typed Redis keys under SCAN |
| `ImportRewriter.dfy`, `ImportMeaning.dfy`, `ImportBlocks.dfy`, `ImportFiles.dfy`, `ImportText.dfy` | grouping and generating imports; what they bind; where they stand; whole files; the text of a line |
| `TestStats.dfy`, `RequestMetrics.dfy`, `Percentiles.dfy`, `Observability.dfy` | the collectors, their bounded windows and their conservation laws |
| `RegressionReport.dfy`, `OrderValidator.dfy`, `ChaosTrigger.dfy`, `OrderNumber.dfy` | report comparison, order validation, the deterministic trigger, order numbers |
| `Common.dfy` | options, sorting, sums over maps, bounded windows, division |

Code that updates an object in place is a class whose methods are proved against
a function of the old state; the run-level results are about that function.

Modelling choices that hold throughout:

- Time is a real number handed in by the caller; where a result needs it, the
  clock is assumed not to run backwards. HTTP and Redis replies are inputs.
- Floats are reals, and an index such as `int(n * 0.95)` is the exact floor of
  `n * 95 / 100`; rounding is not modelled.
- Integers are unbounded, as in Python; `//` on the negated sample limit is
  floor division.

Where the code and its own words disagree, the model follows the code:

- `generate_order_number` documents the example `202401150000042`, fifteen
  characters; the code produces fourteen for ids below a million
  (`OrderNumber.FourteenCharacters`).
- The self-test at `load_tests/metrics/observability_contract.py:886-890`
  expects a failure without `set_stage` to be counted as unknown; it is charged
  to ingress (`Observability.MysteryErrorIsIngress`).
- `should_trigger` speaks of a probability; a value above 1 never fires in
  deterministic mode (`ChaosTrigger.RateWithinFactorTwo`).
- The first phase is timed from the creation of the phase controller, not from
  `initialize`, so a check before `initialize` can put the record out of order
  (`PhaseController.OrderExactly`).
- An exception that escapes a traced block after `record_success` leaves the
  trace a success (`Observability.FailsExactly`).

## Results that are false as first expected, with their exact conditions

- The sample window is bounded by its limit exactly for limits of at least 2
  (`RequestMetrics.BoundExactly`).
- A migrated copy is faithful exactly when a list was returned once and the
  reported TTL was not 0 (`NamespaceMigration.CopyFaithfulExactly`).
- Import rewriting keeps the meaning of every ordering of a symbol list exactly
  when its aliases do not clash (`ImportMeaning.PreservedExactly`).
- It keeps an import where it stood exactly at column 0 or when one module is
  needed; an indented import of two modules leaves its block
  (`ImportBlocks.KeptInPlaceExactly`, `ImportFiles.FunctionBodyBreaks`).
- The pruned registry answers what the event log says exactly when no query has
  pruned a failure that is active now; a monotone clock ensures it
  (`FailureRegistry.RefinesExactly`).
- The limiter moves without its timeouts exactly when all limits are positive
  (`PoolLimiter.ProgressExactly`).
- A recorded circuit change starts from the service's previous state exactly
  when it was not overtaken; the phase lock ensures it
  (`CircuitHistory.LinkedExactly`).
- Order validation is permutation checking exactly when the expected products
  are distinct (`OrderValidator.PermutationCheckExactly`).
- Compounded drift bounds hold exactly for thresholds below 100 percent (upward)
  and up to 100 percent (downward) (`RegressionReport.HigherDriftExactly`,
  `RegressionReport.LowerDriftExactly`).
- Recorded phases follow the plan exactly when no check before `initialize` came
  after the end of the first phase (`PhaseController.OrderExactly`).

## Model

| member | source | states |
|---|---|---|
| `PoolLimiter.RunKeepsInv` | myproject/middleware/chaos_middleware.py:341-383 | Every interleaving of any number of requests keeps the monitor invariant: one lock holder, an exact line of in-flight requests each placed within its own limit, and no un-notified sleeper with room |
| `PoolLimiter.NoLostWakeup` | myproject/middleware/chaos_middleware.py:359-383 | In every reachable state a request asleep and not notified finds the active count at or above its own limit |
| `PoolLimiter.ExactCount` | myproject/middleware/chaos_middleware.py:376-383 | In every reachable state the counter is the number of requests admitted and not yet released |
| `PoolLimiter.BoundedByLatestAdmission` | myproject/middleware/chaos_middleware.py:362-376 | The counter is never negative and never above the limit of the most recently admitted request still in flight |
| `PoolLimiter.BoundedByCommonLimit` | myproject/middleware/chaos_middleware.py:357-376 | If every request asks for at most M connections, no interleaving admits more than M |
| `PoolLimiter.WaitIsMeasured` | myproject/middleware/chaos_middleware.py:357-383 | Every time, limit and count a request's state holds is what the event list says: its wait runs from its first lock event however often it slept, its nap from its last sleep, the counter is admissions less releases |
| `PoolLimiter.DecidedByTheRun` | myproject/middleware/chaos_middleware.py:361-376 | At the head of its loop a request can be admitted exactly when the load is below its limit, sleep exactly when it is not and at most 5 seconds have passed since its first lock, and be refused exactly when more have |
| `PoolLimiter.RefusedOnlyWhenFull` | myproject/middleware/chaos_middleware.py:361-373 | A 503 comes more than five seconds after the request's first lock event, and reports the load at the refusal, at or above the limit the request arrived with; all read off the events |
| `PoolLimiter.NapsEnd` | myproject/middleware/chaos_middleware.py:361-374 | A sleeper fell asleep at most five seconds after its first lock, can time out exactly from one second after its last sleep event, and six seconds after its first lock can always leave its nap |
| `PoolLimiter.NeverStuck` | myproject/middleware/chaos_middleware.py:359-383 | With positive limits some unfinished request can always move without help from the clock, so the timed wait is never what progress depends on |
| `PoolLimiter.ProgressExactly` | myproject/middleware/chaos_middleware.py:357-383 | Over all runs whose limits are acceptable, some unfinished request can always move at once exactly when every acceptable limit is positive |
| `PoolLimiter.StuckWithoutRoom` | myproject/middleware/chaos_middleware.py:357-374 | For every limit below 1, the run in which a lone request with that limit has no step left but the end of its nap |
| `PoolLimiter.NonPositiveNeverAdmitted` | myproject/middleware/chaos_middleware.py:357-376 | A request with a limit below 1 is never admitted, in any interleaving |
| `LockOrder.ScriptDisciplined` | load_tests/scenarios/stage42_compound_failure_chaos_locust.py:681-773 | Any sequence of operations, for every outcome of its HTTP calls, takes the phase lock outermost, never nests failure and metrics locks, and gives every lock back |
| `LockOrder.TakesExactly` | load_tests/scenarios/stage42_compound_failure_chaos_locust.py:487-563 | The phase lock is taken exactly by initialize and check_and_advance_phase, the metrics lock exactly where something is recorded, a failure lock exactly where that controller's registry is used |
| `LockOrder.RunKeepsInv` | load_tests/scenarios/stage42_compound_failure_chaos_locust.py:258-368 | Every interleaving of any number of users keeps mutual exclusion and the lock discipline of what is left to run |
| `LockOrder.NoSelfDeadlock` | load_tests/scenarios/stage42_compound_failure_chaos_locust.py:487-531 | No thread in a reachable state asks for a lock it already holds |
| `LockOrder.WaitChainsAreShort` | load_tests/scenarios/stage42_compound_failure_chaos_locust.py:681-718 | A chain of waiting threads has at most two links, so no circular wait of any length exists |
| `LockOrder.NeverDeadlocked` | load_tests/scenarios/stage42_compound_failure_chaos_locust.py:558-563 | While a thread is unfinished some thread can take its next step |
| `LockOrder.SchedulesComplete` | load_tests/scenarios/stage42_compound_failure_chaos_locust.py:613-636 | Schedules are bounded by the number of lock instructions, and one cannot be extended exactly when it has finished every thread and freed every lock |
| `FailureRegistry.KeyInjective` | load_tests/scenarios/stage42_compound_failure_chaos_locust.py:487-528 | Dictionary keys never collide: equal keys mean the same failure type and the same service, for arbitrary service names |
| `FailureRegistry.PutPlaces` | load_tests/scenarios/stage42_compound_failure_chaos_locust.py:488-493 | A repeated injection keeps the place of its key in the dictionary, a new key goes last |
| `FailureRegistry.ReplayMirrors` | load_tests/scenarios/stage42_compound_failure_chaos_locust.py:487-623 | For every log and every clock the lazily pruned dictionary holds exactly the latest injections that were neither cleared nor found expired by a query since, each under its own key |
| `FailureRegistry.QueryExactly` | load_tests/scenarios/stage42_compound_failure_chaos_locust.py:613-623 | For every log and every clock a query returns the literal type names of exactly the failures with an injection event that no later event repeats or clears, less than 60 * ttl_minutes seconds old now and at every query since; none repeated |
| `FailureRegistry.RefinesExactly` | load_tests/scenarios/stage42_compound_failure_chaos_locust.py:613-623 | A query answers exactly the failures whose latest uncleared injection event is less than 60 * ttl_minutes seconds old if and only if none of them was too old at a query since |
| `FailureRegistry.QueryRefinesLog` | load_tests/scenarios/stage42_compound_failure_chaos_locust.py:613-623 | With a monotone clock that is always so: the answer is the literal type names of exactly the failures with an injection event, not repeated or cleared later, less than 60 * ttl_minutes seconds old |
| `FailureRegistry.ClockMustNotGoBack` | load_tests/scenarios/stage42_compound_failure_chaos_locust.py:616-622 | With a clock that runs back it can fail, for either type and any service: a pruned failure is active again by the log |
| `FailureRegistry.FailureController.InjectTransient` | load_tests/scenarios/stage42_compound_failure_chaos_locust.py:485-495 | Records the injection in the log and the dictionary exactly when the control API accepted it |
| `FailureRegistry.FailureController.BlockService` | load_tests/scenarios/stage42_compound_failure_chaos_locust.py:520-532 | The same for opening a circuit |
| `FailureRegistry.FailureController.AllowService` | load_tests/scenarios/stage42_compound_failure_chaos_locust.py:556-565 | Clears exactly that service's circuit failure, when accepted; a missing key is no error |
| `FailureRegistry.FailureController.CleanupAll` | load_tests/scenarios/stage42_compound_failure_chaos_locust.py:625-636 | Empties the dictionary and logs the cleanup |
| `FailureRegistry.FailureController.Sweep` | load_tests/scenarios/stage42_compound_failure_chaos_locust.py:613-623 | The loop over a snapshot that deletes while it collects leaves exactly the live records, in order, and returns their types |
| `FailureRegistry.FailureController.ActiveTypes` | load_tests/scenarios/stage42_compound_failure_chaos_locust.py:613-623 | The same on the object, stated from the fields of its logged events |
| `PhaseController.PlannedRun` | load_tests/scenarios/stage42_compound_failure_chaos_locust.py:681-718 | For any plan with distinct phase names: after initialize, any interleaving records a prefix of the plan then at most once completed, each entry starts from the previous phase, each action runs at most once and on entry, and completion is no earlier than the sum of durations after creation |
| `PhaseController.PhaseRunSafety` | load_tests/scenarios/stage42_compound_failure_chaos_locust.py:663-718 | The same for the seven phases of the load test, by name, 315 seconds in all |
| `PhaseController.PunctualRun` | load_tests/scenarios/stage42_compound_failure_chaos_locust.py:696-718 | For every sequence of calls, each phase is entered by the first check whose first clock reading is a full duration after the second reading of the call that entered the phase before it (or after creation), neither earlier nor later, and its record is dated by the third reading |
| `PhaseController.EarliestEntries` | load_tests/scenarios/stage42_compound_failure_chaos_locust.py:663-718 | The phases of the load test begin no earlier than 30, 75, 105, 195, 225, 285 and 315 seconds after creation |
| `PhaseController.OrderExactly` | load_tests/scenarios/stage42_compound_failure_chaos_locust.py:673-718 | If checks may come before initialize, the record follows the plan exactly when every such check came before the first phase was over, counted from creation |
| `PhaseController.EarlyCheckBreaksOrder` | load_tests/scenarios/stage42_compound_failure_chaos_locust.py:673-718 | A concrete run where a check 30 seconds after creation, before initialize, records normal load before warmup |
| `PhaseController.CompoundPhaseController.SetPhase` | load_tests/scenarios/stage42_compound_failure_chaos_locust.py:349-362 | Sets the current phase and appends one history entry that names the phase left |
| `PhaseController.CompoundPhaseController.Attach` | load_tests/scenarios/stage42_compound_failure_chaos_locust.py:681-688 | Initialization has effect only once |
| `PhaseController.CompoundPhaseController.Check` | load_tests/scenarios/stage42_compound_failure_chaos_locust.py:696-773 | One check advances by at most one phase, returns the phase entered, and runs its action only when a controller is attached |
| `RetryLoop.Metrics.RecordRequest` | load_tests/scenarios/stage42_compound_failure_chaos_locust.py:258-265 | One request is added to the total and to one of the two outcomes |
| `RetryLoop.Metrics.RecordRetry` | load_tests/scenarios/stage42_compound_failure_chaos_locust.py:297-306 | One retry is added, with the flags it was called with |
| `RetryLoop.Metrics.RecordIdempotency` | load_tests/scenarios/stage42_compound_failure_chaos_locust.py:322-327 | One key is added, and a duplicate when flagged |
| `RetryLoop.Metrics.Attempt` | load_tests/scenarios/stage42_compound_failure_chaos_locust.py:974-1027 | What one attempt adds to every counter, whether the loop goes on, and the nap before it does, for every status |
| `RetryLoop.Metrics.CallWithRetry` | load_tests/scenarios/stage42_compound_failure_chaos_locust.py:1062-1118 | The loop stops after the first reply that is not 503 or 429, or at the limit; the counters move by the closed-form effect of that many attempts; the naps between attempts double |
| `RetryLoop.EffectGrows` | load_tests/scenarios/stage42_compound_failure_chaos_locust.py:971-1027 | The closed form of a call is the sum of what its attempts add |
| `RetryLoop.StopUnique` | load_tests/scenarios/stage42_compound_failure_chaos_locust.py:971-1027 | Where a call stops is determined by the replies |
| `RetryLoop.StopsExactly` | load_tests/scenarios/stage42_compound_failure_chaos_locust.py:983-1027 | In terms of statuses: the loop stops after the first that is accepted or is neither 503 nor 429, or at the limit |
| `RetryLoop.EffectByStatus` | load_tests/scenarios/stage42_compound_failure_chaos_locust.py:983-1027 | Every counter a call moves, from the statuses alone: successes, duplicates, 429s, exhaustion, other errors and retries |
| `RetryLoop.CallBounds` | load_tests/scenarios/stage42_compound_failure_chaos_locust.py:968-1027 | For every reply sequence and limit n: at most n requests, retries at most requests and at least requests less one, retry outcomes at most retries, at most one success, exhaustion only at the limit |
| `RetryLoop.BackoffClosedForm` | load_tests/scenarios/stage42_compound_failure_chaos_locust.py:1004-1017 | The naps of a call add up to delay * (2^k - 1) |
| `RetryLoop.BackoffBound` | load_tests/scenarios/stage42_compound_failure_chaos_locust.py:1094-1108 | Total backoff under limit n is between 0 and delay * (2^(n-1) - 1) |
| `RetryLoop.LoadTestBackoff` | load_tests/scenarios/stage42_compound_failure_chaos_locust.py:968-969 | The two loops of the load test send one to three requests and sleep at most three times their delay |
| `RetryLoop.RunBounds` | load_tests/scenarios/stage42_compound_failure_chaos_locust.py:968-1118 | What any completed retried calls add up to: requests = successes + failures, retry outcomes at most retries, retries at most requests and short of them by at most one a call |
| `SharedMetrics.RunKeepsInv` | load_tests/scenarios/stage42_compound_failure_chaos_locust.py:258-346 | However any number of users interleave between record_* calls, the shared counters read exactly what the users have recorded so far |
| `SharedMetrics.AttemptGood` | load_tests/scenarios/stage42_compound_failure_chaos_locust.py:983-1027 | The record_* calls of one attempt keep every bound after each of them and add up to what the attempt adds |
| `SharedMetrics.TaskGood` | load_tests/scenarios/stage42_compound_failure_chaos_locust.py:898-941 | The same for browsing, health checks and whole retried calls |
| `SharedMetrics.AlwaysBounded` | load_tests/scenarios/stage42_compound_failure_chaos_locust.py:297-327 | In every reachable state, in the middle of calls too: requests = successes + failures, retry_success + retry_exhausted + rate_limit_during_retry <= retry_attempts <= requests, rate_limit_during_retry <= rate_limit_hits <= failures, duplicates <= keys <= successes |
| `SharedMetrics.NothingLost` | load_tests/scenarios/stage42_compound_failure_chaos_locust.py:258-346 | Once all users are done the counters are the sum of their tasks, each as if it had run alone |
| `CircuitHistory.LinkedExactly` | load_tests/scenarios/stage42_compound_failure_chaos_locust.py:274-293 | In every interleaving a recorded change starts from its service's previous state exactly when no change of the service came between its lookup and its record, or the last of those led back to the state looked up |
| `CircuitHistory.LockedLinked` | load_tests/scenarios/stage42_compound_failure_chaos_locust.py:696-766 | Under the phase lock, where the load test makes all its changes, every recorded change starts from the service's previous state, or from the opposite of its own if it is the first |
| `CircuitHistory.UnlockedUnlinked` | load_tests/scenarios/stage42_compound_failure_chaos_locust.py:520-563 | Without that lock two users can record the same change twice, for any service and either direction |
| `NamespaceMigration.Migrator.MigrateKey` | scripts/migrate_namespace.py:90-159 | One scanned key: skipped, listed, copied or counted as an error, with the store, all counters and the list of keys after it, wherever an exception is raised |
| `NamespaceMigration.Migrator.MigratePage` | scripts/migrate_namespace.py:90-159 | The loop over one reply to SCAN visits its keys one after another |
| `NamespaceMigration.Migrator.MigrateKeys` | scripts/migrate_namespace.py:82-162 | The loop over SCAN pages has the effect of visiting the returned keys one after another |
| `NamespaceMigration.TargetExtendsSource` | scripts/migrate_namespace.py:199-206 | Every target prefix main builds properly extends its source prefix |
| `NamespaceMigration.TargetIs` | scripts/migrate_namespace.py:199-206 | With or without its final colon, a source prefix gets the namespace between colons behind it |
| `NamespaceMigration.RenameInjective` | scripts/migrate_namespace.py:98-101 | Renaming is injective on source keys |
| `NamespaceMigration.NeverConsumesExactly` | scripts/migrate_namespace.py:70-101 | No copy is itself picked up for copying, for any key, exactly when the target is not a prefix of the source or equals it and is not empty |
| `NamespaceMigration.MainNeverConsumes` | scripts/migrate_namespace.py:199-206 | So no prefix pair main builds ever copies a copy, whatever the key |
| `NamespaceMigration.Conservation` | scripts/migrate_namespace.py:90-159 | For every page sequence and pattern of exceptions: scanned = migrated + skipped + errors in a real run; a dry run leaves the store alone and lists what it does not skip |
| `NamespaceMigration.Accounting` | scripts/migrate_namespace.py:90-159 | For every page sequence and pattern of exceptions: skipped counts exactly the keys with the target prefix when target extends source, migrated exactly the copies that went through, errors exactly the others, and the listed records are their old names, new names and outcomes in order |
| `NamespaceMigration.CleanAccounting` | scripts/migrate_namespace.py:90-159 | In an error-free run migrated counts every key that was not skipped |
| `NamespaceMigration.CopyMerges` | scripts/migrate_namespace.py:111-143 | What a completed copy leaves, onto anything: strings replaced, hashes and sorted sets overlaid entry by entry, sets united, lists extended, and the expiry of the source if positive |
| `NamespaceMigration.EmptyCopy` | scripts/migrate_namespace.py:123-143 | A copied empty list, set or sorted set writes nothing and at most sets an expiry |
| `NamespaceMigration.LateFailure` | scripts/migrate_namespace.py:107-159 | An exception after the write leaves the merged value with the expiry the write left |
| `NamespaceMigration.FailureLeaves` | scripts/migrate_namespace.py:107-159 | Any other failed copy leaves the store as it was |
| `NamespaceMigration.OutsideUntouched` | scripts/migrate_namespace.py:107-159 | No key outside the target namespace is ever changed, even by failing runs |
| `NamespaceMigration.StoreAfter` | scripts/migrate_namespace.py:82-162 | After an error-free run into an empty target namespace the store holds under every key exactly what is wanted there, for any order and multiplicity of returned keys |
| `NamespaceMigration.MigrationCorrect` | scripts/migrate_namespace.py:82-162 | A complete error-free run gives every source key its copy, a list returned n times n concatenated copies, creates nothing else and changes no other key |
| `NamespaceMigration.CopyFaithfulExactly` | scripts/migrate_namespace.py:111-143 | A copy equals its original, value and expiry, exactly when a list was returned once and the reported TTL was not 0 |
| `NamespaceMigration.ListReturnedTwice` | scripts/migrate_namespace.py:123-129 | A concrete scan that doubles a list |
| `ImportRewriter.GroupSymbols` | scripts/refactor_imports.py:146-154 | Each needed module, and no other, is mapped to its symbols in the order listed |
| `ImportRewriter.GenerateImports` | scripts/refactor_imports.py:157-166 | One statement per group, modules in order, symbols sorted |
| `ImportRewriter.NewImports` | scripts/refactor_imports.py:146-166 | The two loops together compute the rewriting function the other results are about |
| `ImportRewriter.RewriteIs` | scripts/refactor_imports.py:146-166 | What is written, spelled out: one line per module in dictionary order, from base for __init__ and from base.module otherwise, with exactly the symbols of that module, sorted, each as often as listed |
| `ImportRewriter.SelectIs` | scripts/refactor_imports.py:149-153 | One more symbol is appended to the group of its module and to no other |
| `StringOrder.LexIs` | scripts/refactor_imports.py:160-165 | The order used for sorting is dictionary order: at the first difference, the end or the smaller character comes first |
| `ImportRewriter.SymbolsConserved` | scripts/refactor_imports.py:146-166 | Every symbol is imported exactly as often after rewriting as before |
| `ImportRewriter.Canonical` | scripts/refactor_imports.py:157-166 | The output depends only on the multiset of symbols |
| `ImportMeaning.SameBindings` | scripts/refactor_imports.py:146-166 | If the package re-exports each mapped symbol, original and rewritten statements make exactly the same bindings of names to definitions |
| `ImportMeaning.AliasIs` | scripts/refactor_imports.py:198-201 | A symbol written name as alias imports the name and binds the alias; a plain one imports and binds itself |
| `ImportMeaning.MeaningPreserved` | scripts/refactor_imports.py:191-226 | The rewritten statements leave the same namespace behind, for every list whose aliases do not clash |
| `ImportMeaning.ClashBreaksMeaning` | scripts/refactor_imports.py:157-166 | Two symbols given the same alias can change meaning, because sorting changes which one is bound last |
| `ImportMeaning.PreservedExactly` | scripts/refactor_imports.py:146-166 | Every ordering of a symbol list keeps its meaning exactly when no two of its symbols give one name to different imports |
| `ImportBlocks.IndentKeptExactly` | scripts/refactor_imports.py:157-166 | Every line put in place of an import stands where the import stood exactly when that is column 0 or all its symbols come from one module |
| `ImportBlocks.KeptInPlaceExactly` | scripts/refactor_imports.py:191-226 | Wherever an import can stand, executing the new lines under Python's indentation rule has the effect of the import under that same condition and no other |
| `ImportBlocks.NextLineBreaks` | scripts/refactor_imports.py:157-166 | Otherwise the file does not compile as soon as the block has another line |
| `ImportFiles.RewritePass` | scripts/refactor_imports.py:193-226 | One substitution over a file, first line in place and the others at column 0, and the number of statements whose text it changed |
| `ImportFiles.ChangedIs` | scripts/refactor_imports.py:203-204 | The reported count is the number of statements whose text is replaced by another |
| `ImportFiles.ProcessFile` | scripts/refactor_imports.py:169-232 | The new content and the number of reported changes |
| `ImportFiles.NothingReportedExactly` | scripts/refactor_imports.py:203-232 | No change is reported exactly when every import of a known package already has the text the script would write |
| `ImportFiles.Idempotent` | scripts/refactor_imports.py:191-226 | Processing a processed file changes nothing and reports nothing, for any packages none of which lies inside another |
| `ImportFiles.ScriptPackagesIndependent` | scripts/refactor_imports.py:178-189 | The three packages of the script satisfy that condition, whatever their symbol tables |
| `ImportFiles.FileMeaning` | scripts/refactor_imports.py:169-232 | A processed file, blocks of all kinds included, means what the original meant, if every import of a known package stands at column 0 or needs one module, and its aliases do not clash; other imports need nothing |
| `ImportFiles.FunctionBodyBreaks` | scripts/refactor_imports.py:178-226 | A concrete function whose body starts with an import of two modules compiles, and no longer compiles when processed |
| `ImportText.JoinedParse` | scripts/refactor_imports.py:141 | Splitting and stripping what was joined with a comma and a space gives the symbols back |
| `ImportText.RenderParse` | scripts/refactor_imports.py:129-143 | Parsing a generated import line returns its package and its symbols |
| `ImportText.ParenthesisedParse` | scripts/refactor_imports.py:136-143 | The same list in parentheses parses the same |
| `ImportText.JoinSnoc` | scripts/refactor_imports.py:163-165 | One more symbol adds a comma, a space and itself to the line |
| `TestStats.BaseTestStats.SafeIncrement` | load_tests/core/stats.py:33-47 | Moves passed or failed, drops names that are no integers, and otherwise moves a free counter |
| `TestStats.BaseTestStats.RecordScenario` | load_tests/core/stats.py:53-107 | The whole state after recording one scenario result |
| `TestStats.WindowsAgreeWithHistory` | load_tests/core/stats.py:71-107 | Over every run each scenario keeps exactly the last min(count, 1000) times and the last 100 non-empty error messages of its history, and count = success + failed |
| `TestStats.MetadataAgrees` | load_tests/core/stats.py:105-107 | A scenario's metadata holds under every key what it was last given since the last reset |
| `TestStats.CountersConserved` | load_tests/core/stats.py:33-107 | passed and failed are the sums over scenarios, shifted only by explicit increments of those two names |
| `TestStats.FreeCounters` | load_tests/core/stats.py:41-47 | A free counter holds the net increments of its key; counters and inert names never become free counters |
| `RequestMetrics.MetricsCollector.RecordToStats` | load_tests/metrics/custom_metrics.py:196-227 | The statistics object after one request: count, trimmed window, and exactly one outcome counter |
| `RequestMetrics.MetricsCollector.RecordRequest` | load_tests/metrics/custom_metrics.py:167-194 | The whole collector after one request, globally and in its stage |
| `RequestMetrics.WindowIsSuffix` | load_tests/metrics/custom_metrics.py:208-212 | For every integer limit the sample window is a suffix of the history that includes the latest sample |
| `RequestMetrics.WindowLengthIs` | load_tests/metrics/custom_metrics.py:208-212 | The exact window length after n samples: it grows to the limit, then cycles through the upper half |
| `RequestMetrics.SmallLimits` | load_tests/metrics/custom_metrics.py:209-212 | The exact window length for every limit below 2 |
| `RequestMetrics.WindowAgreesWithHistory` | load_tests/metrics/custom_metrics.py:208-212 | For every limit >= 2 the window is that many most recent samples, never above the limit, and at least ceil(limit/2)+1 once trimmed |
| `RequestMetrics.BoundExactly` | load_tests/metrics/custom_metrics.py:209-212 | The bound holds for every history exactly when the limit is at least 2 |
| `RequestMetrics.GlobalAgrees` | load_tests/metrics/custom_metrics.py:187-190 | Every endpoint has seen exactly the requests made to it |
| `RequestMetrics.StageAgrees` | load_tests/metrics/custom_metrics.py:192-194 | Within a stage, exactly the requests made to it in that stage |
| `RequestMetrics.FedCounts` | load_tests/metrics/custom_metrics.py:205-227 | count = success + failure, failure = 4xx + 5xx + exception, and each counter is the number of requests of its class |
| `RequestMetrics.FedByContent` | load_tests/metrics/custom_metrics.py:214-227 | Each counter is the number of requests with an error message, else a status of at least 500, else one from 400 to 499, else none of these |
| `RequestMetrics.FedSamples` | load_tests/metrics/custom_metrics.py:205-212 | An endpoint's samples are the window of the times of its requests |
| `RequestMetrics.RequestsConserved` | load_tests/metrics/custom_metrics.py:187-190 | The request total is the number of requests and the sum of the endpoint counts |
| `RequestMetrics.StagesConserved` | load_tests/metrics/custom_metrics.py:187-194 | Per endpoint the stage counts sum to the global count less the requests made outside any stage |
| `Percentiles.PercentilesOrdered` | load_tests/metrics/custom_metrics.py:40-93 | min <= p50 <= p95 <= p99 <= p99.9 <= max for every non-empty sample list |
| `Percentiles.PercentileIsRank` | load_tests/core/stats.py:140-147 | The percentile is the only value in the data with at least index+1 samples at most it and at least n-index samples at least it |
| `Percentiles.ReportedRanks` | load_tests/metrics/custom_metrics.py:47-72 | p95, p99 and p99.9 are the values of rank min(floor of 95, 99 and 99.9 percent of n, n-1), and 0 without samples |
| `Percentiles.MedianIs` | load_tests/metrics/custom_metrics.py:40-45 | p50 is the value of the middle rank, or the mean of the values of the two middle ranks |
| `Percentiles.PercentileMonotone` | load_tests/core/stats.py:140-147 | A higher percentile never gives a smaller value |
| `Percentiles.MinMaxBound` | load_tests/metrics/custom_metrics.py:81-93 | Minimum and maximum are samples and bound all samples |
| `Observability.FirstMatchIs` | load_tests/metrics/observability_contract.py:104-141 | A message is assigned to the first stage in the table one of whose keywords it contains |
| `Observability.UnknownExactly` | load_tests/metrics/observability_contract.py:104-141 | A message is assigned to no stage exactly when it contains no keyword |
| `Observability.GuessExactly` | load_tests/metrics/observability_contract.py:104-141 | A message is assigned to a stage exactly when one of that stage's listed words occurs in it and no word of an earlier stage does |
| `Observability.FromStatusExactly` | load_tests/metrics/observability_contract.py:84-102 | Which statuses are assigned to which stage, both ways |
| `Observability.ContainsExactly` | load_tests/metrics/observability_contract.py:110-138 | A word occurs in a message exactly when the message is something, the word, and something |
| `Observability.ChargeExactly` | load_tests/metrics/observability_contract.py:200-207 | A failure is charged to its stage if known, else by its status, else by its message |
| `Observability.TraceContext.Set` | load_tests/metrics/observability_contract.py:174-183 | Moves the current stage and logs the transition |
| `Observability.TraceContext.RecordSuccess` | load_tests/metrics/observability_contract.py:185-191 | The trace after a success |
| `Observability.TraceContext.RecordFailure` | load_tests/metrics/observability_contract.py:193-207 | The trace after a failure, with the stage inferred only when the current one is unknown |
| `Observability.ObservabilityMetrics.Record` | load_tests/metrics/observability_contract.py:271-291 | The metrics after recording a trace |
| `Observability.ObservabilityMetrics.RecordUntracedFailure` | load_tests/metrics/observability_contract.py:293-302 | The metrics after a failure without a trace |
| `Observability.ObservabilityMetrics.TraceBlock` | load_tests/metrics/observability_contract.py:412-452 | A traced block adds exactly one record on every exit path: return, exception, or an exit no handler catches |
| `Observability.CountedOnce` | load_tests/metrics/observability_contract.py:271-302 | Over every run requests = traces + untraced = successes + failures, and failures are the failed traces plus the untraced ones |
| `Observability.FirstTracesKept` | load_tests/metrics/observability_contract.py:289-291 | Stored traces are the first min(k, 10000) since the last reset |
| `Observability.ChargedByStage` | load_tests/metrics/observability_contract.py:276-281 | Each stage entry is the number of failed traces charged to that stage |
| `Observability.UnknownCounter` | load_tests/metrics/observability_contract.py:283-285 | The unknown counter equals the unknown stage entry |
| `Observability.FailuresConserved` | load_tests/metrics/observability_contract.py:271-302 | failures = sum of failures by stage + untraced |
| `Observability.FailsExactly` | load_tests/metrics/observability_contract.py:437-452 | A trace fails exactly when its last recorded outcome is a failure, or none was recorded and an exception escaped; the stage charged in each case |
| `Observability.TraceIs` | load_tests/metrics/observability_contract.py:174-207 | Every field of a finished trace from what its block did: times, status, error, stages and the chain of transitions |
| `Observability.ChargeUnknownExactly` | load_tests/metrics/observability_contract.py:193-207 | A failure is charged to unknown exactly when its stage was unknown and neither status nor message is recognised |
| `Observability.UnknownMustBeSet` | load_tests/metrics/observability_contract.py:160-207 | Only a block that itself sets the unknown stage can be charged to it; one that sets no stage is charged to ingress |
| `Observability.MysteryErrorIsIngress` | load_tests/metrics/observability_contract.py:886-890 | The self-test's own example is counted under ingress, not unknown |
| `RegressionReport.ComparisonReport.CompareMetric` | load_tests/reports/comparison.py:167-188 | Appends exactly one alarm, with its change, verdict and direction |
| `RegressionReport.ComparisonReport.Analyze` | load_tests/reports/comparison.py:100-147 | Five alarms, each with its own threshold and direction, replacing the previous ones |
| `RegressionReport.ComparisonReport.GetImprovements` | load_tests/reports/comparison.py:198-207 | The improved metrics in order, none of which is a regression |
| `RegressionReport.SelectedMembers` | load_tests/reports/comparison.py:194-207 | Regressions and improvements are exactly the alarms of their kind and together never more than the alarms |
| `RegressionReport.VerdictsExactly` | load_tests/reports/comparison.py:167-206 | Regression and improvement in terms of the two values: a move by more than the threshold's share of the baseline in the bad or the good direction; from zero any move is a rise of 100 percent |
| `RegressionReport.AlarmsAre` | load_tests/reports/comparison.py:104-147 | Which five metrics are compared, with which values, thresholds and directions |
| `RegressionReport.HigherDrift` | load_tests/reports/comparison.py:167-176 | n quiet comparisons of a non-negative metric give last <= first * (1 + t/100)^n, zero baselines included |
| `RegressionReport.LowerDrift` | load_tests/reports/comparison.py:167-176 | n quiet comparisons where lower is worse give last >= first * (1 - t/100)^n, zero baselines included |
| `RegressionReport.HigherDriftExactly` | load_tests/reports/comparison.py:167-174 | The upper bound holds for all chains exactly when the threshold is below 100 percent |
| `RegressionReport.LowerDriftExactly` | load_tests/reports/comparison.py:167-176 | The lower bound holds for all chains exactly when the threshold is at most 100 percent |
| `RegressionReport.NoRegressionExactly` | load_tests/reports/comparison.py:100-192 | A comparison reports a regression exactly when one of the five metrics regresses |
| `RegressionReport.ReportDrift` | load_tests/reports/comparison.py:100-192 | A chain of reports without regression bounds every metric of the last report by the first, for thresholds below 100 percent, or up to 100 for throughput |
| `OrderValidator.CheckItem` | load_tests/validators/order_validator.py:149-169 | One expected item against the actual ones: missing, wrong quantity of the first of its product, or fine |
| `OrderValidator.ProblemsOfExactly` | load_tests/validators/order_validator.py:153-169 | Missing exactly when no actual item has the product; otherwise the first one that has it decides, and a mismatch reports the expected and then the actual quantity |
| `OrderValidator.ReadIs` | load_tests/validators/order_validator.py:155-156 | The product of an actual item is its product_id if it has one, else the id of its nested product |
| `OrderValidator.ValidateItems` | load_tests/validators/order_validator.py:125-171 | The errors reported, in order, and valid exactly when there are none, that is, when lengths agree and every expected item is the first of its product |
| `OrderValidator.AgreementIsPermutation` | load_tests/validators/order_validator.py:143-171 | With distinct expected products a valid order is a permutation of the expected items (pigeonhole) |
| `OrderValidator.PermutationAgrees` | load_tests/validators/order_validator.py:143-171 | With distinct expected products every permutation is valid |
| `OrderValidator.PlainDuplicate` | load_tests/validators/order_validator.py:149-165 | A repeated expected item can be replaced by an unseen one without the validator noticing |
| `OrderValidator.PermutationCheckExactly` | load_tests/validators/order_validator.py:143-171 | Validation is permutation checking for all orders exactly when the expected products are distinct |
| `OrderValidator.TransitionsExactly` | load_tests/validators/order_validator.py:12-23 | The twelve valid status changes, and no others |
| `OrderValidator.HistoryNeverRepeats` | load_tests/validators/order_validator.py:12-23 | A history of valid status changes never returns to a status and has at most seven entries |
| `OrderValidator.PaidFirst` | load_tests/validators/order_validator.py:12-23 | A history from pending that reaches shipping, delivery or a refund goes through paid |
| `ChaosTrigger.ChaosConfig.ShouldTrigger` | shopping/chaos/config.py:152-165 | Deterministic mode counts the call and fires on multiples; random mode compares the draw and leaves the counter |
| `ChaosTrigger.ChaosConfig.Burst` | shopping/chaos/config.py:158-163 | n deterministic calls fire as often as the counting function says |
| `ChaosTrigger.FiredCount` | shopping/chaos/config.py:158-163 | From counter c, n calls with k = int(1/p) > 0 fire exactly (c+n) div k - c div k times, and never if k is 0 |
| `ChaosTrigger.RateWithinFactorTwo` | shopping/chaos/config.py:160-163 | k > 0 exactly when 0 < p <= 1, and then the rate 1/k lies in [p, 2p) |
| `OrderNumber.DecodesToId` | shopping/signals.py:114-117 | A number starts with its eight-character date, and the digits after it decode to the id, for every id |
| `OrderNumber.NumbersDistinct` | shopping/signals.py:114-117 | Distinct ids give distinct numbers on any two dates |
| `OrderNumber.FourteenCharacters` | shopping/signals.py:114-117 | A number has fourteen characters exactly while the id is below a million |
| `OrderNumber.OrderTable.GenerateOrderNumber` | shopping/signals.py:113-123 | Row and instance change exactly for a newly created order without a number, and to the same value |
| `OrderNumber.OrderTable.GeneratedUnique` | shopping/signals.py:113-123 | Among all rows numbered by the handler, equal numbers mean the same order |

## Left out

Of the modelled files:

- The limiter is a step relation on values rather than a class, since its point is interleaving; requests that bypass it, and a header that is not a number, are not modelled.
- Python's `Condition` is taken to wake a sleeper only by notification or timeout, and scheduling fairness is not modelled: `PoolLimiter.NeverStuck` says that a step exists, not that a particular request is eventually admitted.
- `LockOrder` reduces operations to their lock instructions; the data they touch is in the other modules.
- The load test's response-time lists, per-type error map (one counter stands for it), oscillation count, DLQ observations and overlap events would only add easy counters.
- `SharedMetrics` and `CircuitHistory` are step relations on values, since their point is interleaving; the methods of `RetryLoop.Metrics` are the same record calls on an object.
- Phase actions are recorded when they run; the HTTP calls they make are covered by `FailureRegistry` and `LockOrder`.
- In the migration the clock stands still during a run, prefixes contain no glob characters, and a TTL is what the TTL command reports. The loop ends because the given page sequence ends; whether SCAN ever returns cursor 0 is Redis's affair.
- Import statements are parsed values in `ImportRewriter`, `ImportMeaning` and `ImportFiles`; `ImportText` covers the text of one generated line. An import is a statement of its own with a column; blank lines and comments are not lines of the model. The script also matches inside comments and string literals, after a semicolon or a block header on the same line, and takes a trailing comment for a symbol; that, star imports, other regular-expression details, and reading and writing files are not modelled.
- What the rest of the language does, which lines open blocks, and what a block does to its surroundings are parameters of `ImportBlocks`.
- The three symbol tables enter as arbitrary mappings whose keys contain no space; their contents play no part in the results.
- ImportMeaning.MeaningPreserved: says nothing about lists with clashing aliases, because there it is false; `ImportMeaning.PreservedExactly` gives the exact condition.
- ImportFiles.FileMeaning: says nothing about files with clashing aliases or indented imports of several modules, because there it is false; `ImportMeaning.PreservedExactly` and `ImportBlocks.KeptInPlaceExactly` give the exact conditions.
- `safe_increment` on Python's own double-underscore attribute names, and on attributes of subclasses, is not modelled.
- Timestamps inside recorded errors, trace ids, request names and response times of traces are not modelled, nor are derived averages and rates.
- Percentile arguments are non-negative; a negative one would index from the end of the list.
- Lower-casing of error messages is modelled for ASCII letters.
- The drift bounds are about non-negative metrics, the only ones reports contain.
- OrderNumber.DecodesToId: takes the date as eight characters, as `%Y%m%d` gives for four-digit years.
- The random branch of `should_trigger` takes the draw as a parameter.

Not modelled at all, because they are input and output, configuration, or would only add easy members:

- Payment, order, point and webhook services and tasks.
- Replay handlers, exception handlers, the other chaos middleware, decorators and breakpoints.
- Locust users, seeders, cleaners, runners and HTTP helpers.
- Report rendering, Django settings, admin, URLs, permissions, throttles and migrations.
