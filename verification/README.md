# Relinker's retry core, modelled and proved

Relinker retries Python calls: after each attempt a policy decides whether to try again, how long to
wait first, and how to end. Executions may share a `RetryBudget`, which hands out start times for
retries so that no rolling window holds more of them than allowed. This project models that core and
proves what it guarantees: the budget's slot allocator over whole histories of calls, the state
machine of one execution, the ways to run a policy, the stop and delay strategies, the simulation,
and many executions on one budget.

`dafny verify dfyconfig.toml` checks everything.

## How the model is built

**Time.** The budget counts time in representable values: a time is its index on a grid, and the two
expressions the code uses, "end of window minus period" and "time plus period", are the functions
`sub` and `add` of an `Arith`. Everything about the budget is proved for every `Sound` arithmetic
(monotone, and the rounded sum within one grid step of the true exit point); `Rounding` shows that
exact ticks are sound, and that any increasing grid with spacing that does not shrink and rounding to
nearest is; `BinaryFormats` builds the binary floating-point formats (sections 3.3 and 4.3.1 of IEEE
754-2019), shows that they are such grids, and computes with binary64. One execution counts nanoseconds;
delay trees and randomized backoff use `real`.

**The budget.** `RollingWindow` holds the window, the earliest legal slot as a specification
(`Earliest`) and the block-scanning loop that finds it; `LegalityTests` the second legality test by
bisection. `BudgetState` says what each operation does to the table, `Budget` is the object that is
updated in place and proved against it; its ghost fields `history` and `answers` record every call,
and `Valid()` says that the fields are what that history has made of an empty budget. `BudgetRuns`
and `BudgetLaws` prove what whole histories guarantee, against an archive that never forgets,
`BudgetAnswers` what each answer means in terms of the retained reservations, `Peaks` for which clock
readings capacity holds exactly, `Keys` that the users of different keys do not hear each other, and
`Bursts` the schedule of a burst. Each lock-guarded operation is one step, and the clock reading it works
with is a parameter.

**One execution.** What lies outside the library in one attempt - the user's function, the retry
condition, the event handlers, the delay strategy, the sleeper and every clock reading - is one
`Turn` of a script; each of them may fail. `FlowState` specifies the decisions and the trace they
leave (events, budget calls and answers, completed sleeps), and `RunTurns` is the run over a script of
any length. `Flow`, `Executors` and `Blocks` are the objects and loops of the library, updated in
place and proved equal to that specification. `Decisions` says what one turn comes to in terms
of its script, the stop strategy and the granted slot, and `Runs` carries that to whole runs; `FlowLaws`,
`FlowResults`, `FlowLimits`, `Announcements` and `EntryPoints` prove what every run keeps.

**Many executions.** `Fleet` interleaves any number of planned retries on one exact budget, step by step.
`Interleaving` runs any number of whole executions, each over its own script, on one shared budget, with
the calls of the others between any two of its calls, and shows that every such run is a fleet;
`FleetMembers` has the part about one turn. `Holdings` accounts for every reservation in such a run, and
`Rates` builds the runs that reach the bound on the rate.

**The rest.** `Stops` has the stop trees and their static analyses, `Delays` the explicit-stack
evaluator of additive delays, `Backoff` the randomized backoff and its diagnostic, `Simulation` the
simulated timeline and the execution it stands for.

## What the proofs found

- A budget of a given period and capacity keeps its capacity over every history with given clock readings
  exactly when these have no harmful peak: no reading that lies a period or more after an earlier one, is
  followed by a smaller one, and has more readings below it than the capacity (`CapacityIffNoPeak`). The
  code reads the clock before it takes the lock, so readings can arrive out of order; over the
  reservations the budget still holds, capacity needs no assumption (`RetainedWithinCapacity`).
- The comment in `src/relinker/budget.py:218-221` asks that the two legality tests stay consistent. At any
  time `t` they agree on every legal schedule exactly when the rounded `t + per` serves as the exit point
  of `t`: it is that point, or no reservation at the one time by which they differ could count, because
  that time is not after `t` or subtracting the period does not move it (`TestsAgreeIffSumServes`). Under
  the same condition, and no other, the two answers of a snapshot agree
  (`SnapshotIsCoherentIffSumServes`) and its count of available slots is right
  (`AvailableIsLargestIffSumServes`): `_first_legal_slot` corrects the rounded sum, `_is_legal_slot` does
  not. In binary64, with `per = 0.4`, capacity 1 and a reservation at `0.5`, a snapshot at `0.1` reports
  one slot available and yet a wait for the next one (`TestsDisagree`).
- `_available_at` ends for every schedule exactly when subtracting the period from the current time
  moves it (`AvailableTerminatesIff`); in every binary format and for every period there are times it
  does not move (`CountMayNotEnd`).
- The rate at which retries of whole executions begin is bounded by the budget exactly when no sleep ends
  later than its plan, counted from the clock reading of the plan (`Rates.RateIffNoDrift`); with drift,
  the bound grows by the capacity for each period the drift reaches into (`RetriesKeepRate`), and
  executions reach that bound (`Rates.RateIsAttained`).
- A `before_sleep` event may be followed by `after_giveup` in the same attempt: a decided run announces one
  sleep more than it completes, exactly when the strategy lets the last sleep pass before the handlers and
  stops it after them (`AnnouncedAndCalledOff`, with a script in `AnnouncedInVain`).
- A retry block ends like the direct call over all scripts exactly under the policies that do not return
  results (`BlocksReadLikeDirectIff`): under the others a rejected error leaves the block, where the direct
  call returns the result (`RejectedErrorLeaves`), and that is the only case (`BlockMatchesDirect`).
- `_random_exponential_can_vary` is exact except when the minimum is the one-day ceiling, no maximum is
  set and `base`, `factor` and the number of retries let the backoff exceed the ceiling
  (`CheckIsExactIff`, `CheckIsWrongAtTheCeiling`).

## Model

| member | source | states |
|---|---|---|
| `RollingWindow.FirstSlotAfterWindow` | src/relinker/budget.py:240-248 | the corrected sum is the least time whose open-left window no longer holds `first` |
| `RollingWindow.LegalIffCapacityKept` | src/relinker/budget.py:250-254 | on a schedule within capacity, a slot is legal exactly when taking it keeps every window within capacity |
| `RollingWindow.ForbiddenIsIllegal` | src/relinker/budget.py:226-235 | a time inside the interval a block of `capacity` reservations forbids is illegal |
| `RollingWindow.IllegalIsForbidden` | src/relinker/budget.py:226-235 | every illegal time lies inside the interval of some such block |
| `RollingWindow.LegalIffNoBlockForbids` | src/relinker/budget.py:213-238 | on a sorted schedule a time is legal exactly when no block forbids it |
| `RollingWindow.JumpReducesAhead` | src/relinker/budget.py:235-237 | each jump leaves fewer reservations whose exit lies beyond the candidate: the rescan ends |
| `RollingWindow.JumpIsSafe` | src/relinker/budget.py:235-237 | a jump skips only illegal times |
| `RollingWindow.FirstLegalSlot` | src/relinker/budget.py:213-238 | the scan with jumps ends at the earliest legal slot from the candidate on, after at most one jump per scheduled time and one more scan than jumps |
| `RollingWindow.EarliestDependsOnLegality` | src/relinker/budget.py:213-238 | the earliest slot depends only on which times from the candidate on are legal |
| `LegalityTests.WindowEnds` | src/relinker/budget.py:255-257 | the bisected slice holds exactly the window ends after `t` and before the rounded `t + per` |
| `LegalityTests.IsLegalSlot` | src/relinker/budget.py:250-263 | the bisecting test says legal exactly when the windows ending at those few times have room |
| `LegalityTests.TestsAgree` | src/relinker/budget.py:250-263 | where the rounded sum serves as the exit point, looking at those window ends is enough |
| `LegalityTests.TestsAgreeIffSumServes` | src/relinker/budget.py:213-263 | at every time, the two tests agree on every legal schedule exactly when the rounded sum serves as the exit point |
| `LegalityTests.SnapshotIsCoherentIffSumServes` | src/relinker/budget.py:99-101 | "a slot is available" and "no wait is needed" mean the same on every legal schedule exactly when the rounded sum serves as the exit point |
| `LegalityTests.EarliestPermuted` | src/relinker/budget.py:128-129 | sorting the reservations does not change the slot |
| `LegalityTests.AvailableAt` | src/relinker/budget.py:205-211 | the counting loop with `insort` counts how often the time can be added before the test refuses |
| `LegalityTests.AvailableIsLargest` | src/relinker/budget.py:205-211 | where the rounded sum serves as the exit point, `n` more reservations at the time keep a legal schedule within capacity exactly when `n` is at most the count |
| `LegalityTests.AvailableIsLargestIffSumServes` | src/relinker/budget.py:205-211 | the count is right in this way on every legal schedule exactly when the rounded sum serves as the exit point |
| `LegalityTests.AvailableIsWhereTheTestRefuses` | src/relinker/budget.py:205-211 | on any schedule, the count is the number of reservations at the time after which the bisecting test refuses one more |
| `LegalityTests.AvailableTerminatesIff` | src/relinker/budget.py:205-211 | the counting loop ends for every schedule exactly when the period is not lost in the subtraction |
| `Rounding.ExactIsSound` | src/relinker/budget.py:240-248 | whole ticks meet the contract of the algorithm, with exit point `first + per` |
| `Rounding.NearestRoundingIsSound` | src/relinker/budget.py:240-248 | so does rounding to nearest on any grid whose spacing does not shrink: `nextafter` one step is enough |
| `BinaryFormats.BinaryIsValid` | src/relinker/budget.py:218-221 | binary floating-point formats with ties to even are such grids |
| `BinaryFormats.RoundedSumIsNotTheExit` | src/relinker/budget.py:242-248 | in binary64 `0.1 + 0.4` is `0.5`, and `0.5 - 0.4` is two values below `0.1` |
| `BinaryFormats.TestsDisagree` | src/relinker/budget.py:213-263 | at these times one test calls `0.1` legal and counts a slot, and the other moves on |
| `BinaryFormats.CountMayNotEnd` | src/relinker/budget.py:205-211 | in every binary format and for every period there is a clock reading at which the count does not end for some schedule |
| `BudgetState.GrantKeepsCapacity` | src/relinker/budget.py:129-137 | a granted slot keeps a list within capacity |
| `BudgetState.EarliestIgnoresExpired` | src/relinker/budget.py:157-166 | pruned reservations cannot matter to a slot from the current time on |
| `BudgetState.LiveRemove` | src/relinker/budget.py:140-166 | releasing and pruning commute, because a token names one reservation |
| `BudgetAnswers.ReservationIsFirstFit` | src/relinker/budget.py:112-138 | after any run, a reservation is listed with a new token after what is retained of its key, at the first time from its reading and its requested time on at which it keeps every window within capacity |
| `BudgetAnswers.SnapshotTells` | src/relinker/budget.py:78-110 | after any run, a snapshot counts the retained reservations that have begun and those that have not, and its wait ends at the first time from now on at which one more keeps every window within capacity |
| `BudgetAnswers.SnapshotIsHonoured` | src/relinker/budget.py:100-138 | a reservation right after a snapshot gets the slot that the snapshot named |
| `BudgetAnswers.CountsEachOperation` | src/relinker/budget.py:190-199 | the counter is the number of reservations, releases and snapshots of the run, modulo 100 |
| `BudgetAnswers.EveryHundredthSweeps` | src/relinker/budget.py:168-199 | of the other keys, every hundredth of these drops exactly the wholly expired ones and the rest drop none; an explicit cleanup drops them at any time |
| `BudgetAnswers.ReleaseDropsEmptyKey` | src/relinker/budget.py:140-155 | a release leaves no empty list that it did not find |
| `BudgetAnswers.BlankKeysAreRefused` | src/relinker/budget.py:201-203 | a blank key is refused without a trace, and a key with a visible character is served |
| `Budget.RetryBudget.constructor` | src/relinker/budget.py:58-66 | a new budget is empty and hands out token 1 first |
| `Budget.RetryBudget.Reserve` | src/relinker/budget.py:112-138 | new table, counter and reservation are those of the specification, the slot is the first that fits in with what is retained of the key; a blank key is refused and changes nothing; the history grows by this call |
| `Budget.RetryBudget.Release` | src/relinker/budget.py:140-155 | new table after a release, with the key dropped when nothing is left |
| `Budget.RetryBudget.DeleteFirst` | src/relinker/budget.py:149-152 | the loop deletes the reservation with the token and no other |
| `Budget.RetryBudget.Snapshot` | src/relinker/budget.py:78-110 | the view and the pruned table of the specification, from one reading; the wait ends at the first time at which one more reservation fits in with the pruned table |
| `Budget.RetryBudget.Describe` | src/relinker/budget.py:92-109 | the view of a list does not depend on the order of its times |
| `Budget.RetryBudget.ActiveAndQueued` | src/relinker/budget.py:93-98 | counts of the window ending now and of the future |
| `Budget.RetryBudget.Prune` | src/relinker/budget.py:157-166 | keeps exactly the reservations after the boundary, in order |
| `Budget.RetryBudget.Cleanup` | src/relinker/budget.py:168-177 | removes every expired key and nothing else |
| `Budget.RetryBudget.CleanupExpiredKeys` | src/relinker/budget.py:179-188 | the sweep loop removes exactly the keys all of whose reservations have expired |
| `Budget.RetryBudget.CountOperation` | src/relinker/budget.py:190-199 | every hundredth counted operation sweeps |
| `Budget.RetryBudget.CapacityIsKept` | src/relinker/budget.py:51-66 | of a budget object in use: its retained lists are within capacity, and so is all its history granted and did not release, when its readings have no peak |
| `BudgetRuns.StepAgrees` | src/relinker/budget.py:112-199 | one operation answers like the archive when nothing that matters at its reading was forgotten |
| `BudgetRuns.ForgettingIsInvisible` | src/relinker/budget.py:157-199 | pruning and the amortized sweep change no reservation and no snapshot of any run |
| `BudgetRuns.ArchiveIsOutstanding` | src/relinker/budget.py:112-155 | what the archive holds is what was granted and not released |
| `BudgetRuns.CapacityOverWholeRuns` | src/relinker/budget.py:112-199 | no window ever holds more than `capacity` reservations granted and not released, counting the forgotten ones |
| `BudgetRuns.RetainedWithinCapacity` | src/relinker/budget.py:112-199 | the retained reservations of every key are within capacity whatever the clock readings |
| `Peaks.CapacityIffNoPeak` | src/relinker/budget.py:112-199 | for each period and capacity, all runs with given readings are within capacity exactly when the readings have no peak of that period that more than `capacity` readings lie below |
| `Peaks.PeakBehind` | src/relinker/budget.py:157-199 | whatever the run, an overfull window shows such a peak in its readings |
| `Peaks.PeakBreaksCapacity` | src/relinker/budget.py:140-166 | for every period, capacity and such peak, a run that overfills a window |
| `BudgetLaws.CapacityAtEveryInstant` | src/relinker/budget.py:112-138 | windows that end at any real instant are within capacity |
| `BudgetLaws.ReleaseIsIdempotent` | src/relinker/budget.py:140-155 | after any run, a release takes its own reservation and no other from the budget's lists, which otherwise only lose keys that have wholly expired; a second release takes nothing |
| `Keys.KeysAreIndependent` | docs/maintainers/retry-budget-invariants.md:37-41 | in any run, however calls on all keys alternate, the users of a key hear exactly what they would on a budget of their own |
| `BudgetLaws.SnapshotIsCoherent` | src/relinker/budget.py:92-109 | active and queued make up what is retained, active plus available is at most capacity, and, where the rounded sum serves as the exit point, available is the most that can be reserved now and positive exactly when no wait is needed |
| `Bursts.ExactBatchStart` | src/relinker/budget.py:213-248 | batches of a burst are one period apart when time is exact |
| `Bursts.NextOfBurst` | src/relinker/budget.py:213-238 | after `n` equal requests the earliest slot is that of batch `n / capacity` |
| `Bursts.BurstSchedule` | src/relinker/budget.py:112-138 | of requests on an idle key that may all start at one time, whatever their readings and requested times, number `i` is granted the start of batch `i / capacity`, in any run |
| `Flow.RetryRuntime.BeginAttempt` | src/relinker/internal/runtime.py:34-37 | the attempt number goes up by one, and nothing else changes |
| `Flow.RetryRuntime.Append` | src/relinker/internal/runtime.py:29-29 | the bounded deque grows by the new record, or, when it is as long as its limit, loses its oldest for it |
| `Flow.RetryRuntime.RecordSuccess` | src/relinker/internal/runtime.py:39-56 | one record and one success more |
| `Flow.RetryRuntime.RecordFailure` | src/relinker/internal/runtime.py:58-73 | one record and one failure more |
| `Flow.RetryFlow.constructor` | src/relinker/internal/executor_flow.py:63-71 | a flow starts with nothing attempted, reserved or emitted |
| `Flow.RetryFlow.NextAttempt` | src/relinker/internal/executor_flow.py:78-80 | counts the attempt |
| `Flow.RetryFlow.EnterAttempt` | src/relinker/internal/executor_flow.py:82-85 | announces the attempt, and times it unless a handler failed |
| `Flow.RetryFlow.AfterException` | src/relinker/internal/executor_flow.py:87-122 | state and decision after a raised error, on every path |
| `Flow.RetryFlow.AfterValue` | src/relinker/internal/executor_flow.py:124-147 | state and decision after a returned value, on every path |
| `Flow.RetryFlow.Exhaust` | src/relinker/internal/executor_flow.py:151-176 | the exhausted decision, reported before the handlers run |
| `Flow.RetryFlow.PlanRetry` | src/relinker/internal/executor_flow.py:178-233 | plan, check, announce, check again; the reservation goes back on every way out but the wait |
| `Flow.RetryFlow.PlanRetryWait` | src/relinker/internal/retry_wait.py:29-78 | policy delay combined with a reservation in the shared budget object; a total above the ceiling gives it back (PlanningMeans says what that comes to) |
| `Flow.RetryFlow.ReleaseRetryWait` | src/relinker/internal/retry_wait.py:81-84 | gives back the reservation of the plan, if any |
| `Flow.RetryFlow.SleepBeforeRetry` | src/relinker/executors/sync.py:31-37 | a sleeper that fails gives the reservation back and its error on |
| `Decisions.PlanningMeans` | src/relinker/internal/retry_wait.py:29-78 | planning fails exactly without a valid delay, is saturated exactly when the slot granted for the end of the delay lies more than a day ahead, and else waits for that slot, or for the delay without a budget |
| `Decisions.TurnMeans` | src/relinker/internal/executor_flow.py:82-241 | how a turn ends, with which error if it fails, and the events, budget calls, answers and sleep it leaves, read off its script, the stop strategy and the granted slot |
| `Decisions.EndsInOneWay` | src/relinker/internal/executor_flow.py:82-241 | these ways to end, and the errors to fail with, exclude each other |
| `Runs.RunEndsAsItsLastTurn` | src/relinker/executors/sync.py:40-72 | every turn of a run but the last has slept, and the last ends the run as its own script says: a decision, or the first error |
| `Runs.RetriesWaitForSlots` | src/relinker/internal/retry_wait.py:41-78 | with a budget, turn `i` asks for the end of its own delay, its sleep reaches from the plan to the granted slot and is no shorter than the delay, and a last turn gives back what it was granted |
| `Runs.RetriesWaitTheirDelay` | src/relinker/internal/retry_wait.py:41-50 | without a budget, the sleep of turn `i` lasts exactly that turn's delay |
| `Runs.AnswersAreTheBudgets` | src/relinker/internal/retry_wait.py:56-63 | the answers in the trace of a run are those of the budget, which the run leaves as its calls have made it |
| `FlowLaws.PlanRetryHolds` | src/relinker/internal/executor_flow.py:178-233 | planning to wait holds one reservation more; every other way out holds what was held |
| `FlowLaws.ReservationsAreConserved` | src/relinker/internal/retry_wait.py:58-84 | however a run ends, it holds one reservation per completed sleep: one less than its attempts |
| `FlowLaws.ConservedAmongOthers` | src/relinker/internal/retry_wait.py:58-84 | the same when others change the budget between the turns in any way that hands out no token twice |
| `FlowLaws.NoBudgetNoCalls` | src/relinker/internal/retry_wait.py:44-50 | without a budget no run touches one |
| `FlowLaws.TurnEmits` | src/relinker/internal/executor_flow.py:82-233 | the events of one turn: a round, a last turn, or part of one when an error from outside cuts it off |
| `FlowLaws.EventLanguage` | src/relinker/internal/executor_flow.py:82-233 | the events of a run: rounds that each announce a sleep, then one last turn |
| `FlowLaws.EndIsToldOnce` | src/relinker/internal/executor_flow.py:82-233 | a decided run tells its end in exactly one event, its last: success when accepted, give-up otherwise |
| `Announcements.AnnouncedAndCalledOff` | src/relinker/internal/executor_flow.py:204-233 | a decided run announces the sleeps it completes, and one more exactly when its last turn called one off |
| `Announcements.AnnouncedInVain` | src/relinker/internal/executor_flow.py:212-232 | a script with such a sleep: its handlers take the time that was left |
| `FlowResults.RunBooks` | src/relinker/internal/runtime.py:34-73 | through any run the history keeps the last records, as many as its limit admits, and the counters count all of them; a turn is recorded unless an error from outside came before |
| `FlowResults.ResultTellsTheRun` | src/relinker/internal/runtime.py:108-133 | the result: as many records as the limit admits, those of the last attempts with their numbers and times, failures plus successes equal to the total, value, error and cause those of the last attempt |
| `FlowResults.RetriesAreAskedFor` | src/relinker/internal/executor_flow.py:87-147 | every retry follows an attempt that asked for one; the last attempt is exhausted when it asked for another, and accepted or rejected when it did not |
| `FlowLimits.DeadlineIsKept` | src/relinker/internal/executor_flow.py:206-241 | under a strategy with a deadline every sleep ends before it, and so does any attempt begin that starts when its sleep is over |
| `FlowLimits.AttemptsAreBounded` | src/relinker/internal/policy_diagnostics.py:209-224 | no run makes more attempts than the known limit |
| `FlowLimits.LoadEstimateIsABound` | src/relinker/internal/policy_simulation.py:129-159 | any executions of a policy make together at most the estimated total calls |
| `Simulation.LoadEstimateIsAttained` | src/relinker/internal/policy_simulation.py:129-145 | executions without delays that fail at once make together exactly that many calls |
| `EntryPoints.SameRun` | src/relinker/internal/decorator.py:35-37 | how a policy ends has no say in how it runs |
| `EntryPoints.DecoratedIsDirect` | src/relinker/internal/exhaustion.py:59-111 | running under return_result and resolving gives the state and the ending of the direct call, for every policy and script |
| `EntryPoints.BlockMatchesDirect` | src/relinker/context/_shared.py:51-65 | a block stores the same result and, run by run, ends like the direct call except for a rejected error under a policy that returns results |
| `EntryPoints.BlocksReadLikeDirectIff` | src/relinker/context/_shared.py:51-65 | blocks end like direct calls over all scripts exactly under the policies that do not return results |
| `EntryPoints.RejectedErrorLeaves` | src/relinker/context/_shared.py:51-65 | a script that tells them apart under every other policy |
| `EntryPoints.ReportedErrorIsSettled` | src/relinker/internal/exhaustion.py:38-57 | the error an exhausted run reports is what its last attempt raised, or for a retry signal its operational cause, or else its unsuppressed operational context, or else itself; resolving it again changes nothing |
| `EntryPoints.CallersGetTheirEnding` | src/relinker/executors/sync.py:65-72 | what a direct call gives or raises, read off the policy's settings in their order of precedence and off the last attempt |
| `EntryPoints.LastConfigurationWins` | src/relinker/policy.py:481-593 | after any chain of builder calls an exhausted run ends as the last one promises, and the run itself is unaffected |
| `Executors.CallOnce` | src/relinker/executors/sync.py:50-59 | one round of the loop up to its decision |
| `Executors.ExecuteSync` | src/relinker/executors/sync.py:40-72 | the driving loop on the shared budget object runs as specified, and ends with the ending of its decision |
| `Executors.RetryStats.Record` | src/relinker/stats.py:81-94 | the counters count the run by how it was decided |
| `Executors.StatisticsAddUp` | src/relinker/stats.py:81-94 | over any runs, calls are successes plus failures, successes the accepted runs, exhausted runs among the failures, attempts and time the sums over all runs |
| `Executors.DecoratedFunction.Call` | src/relinker/internal/decorator.py:56-60 | a call ends as the direct call would, leaves the budget as it would, and counts a decided run once |
| `Blocks.RetryBlockIterator.Next` | src/relinker/context/sync.py:21-25 | a new context with the next attempt counted, or nothing once finished |
| `Blocks.RetryBlockIterator.Finish` | src/relinker/context/_shared.py:51-65 | result and outcome stored, the pending error suppressed, let through or replaced |
| `Blocks.RetryAttemptContext.Enter` | src/relinker/context/_shared.py:91-94 | announces and times the attempt |
| `Blocks.RetryAttemptContext.Decide` | src/relinker/context/_shared.py:96-103 | the decision of the flow, or none for an error that is not an Exception |
| `Blocks.RetryAttemptContext.Exit` | src/relinker/context/sync.py:35-49 | after a wait the error is suppressed, after a final decision the block finishes, any failure leaves |
| `Blocks.RunBlock` | src/relinker/context/sync.py:15-49 | the loop over a block's attempts runs as specified and leaves as its decision says |
| `Stops.InfiniteIffNeverStops` | src/relinker/internal/policy_diagnostics.py:178-187 | infinite exactly when no attempt at any time stops |
| `Stops.FirstAttemptIffAlwaysStops` | src/relinker/internal/policy_diagnostics.py:194-206 | stops after the first attempt exactly when attempt 1 stops however fast it was |
| `Stops.StopIsMonotone` | src/relinker/stop/composite.py:23-42 | what stops goes on stopping with more attempts and more time |
| `Stops.StopsFromLimit` | src/relinker/internal/policy_diagnostics.py:209-224 | from a known limit on, every attempt stops |
| `Stops.LimitIsLeast` | src/relinker/internal/policy_diagnostics.py:209-224 | with positive time limits the limit is the least attempt that stops at zero elapsed, and without a limit there is none |
| `Stops.EstimateAgrees` | src/relinker/internal/policy_simulation.py:98-126 | the load estimate and the two diagnostics give one answer on every tree |
| `Stops.TimeLimitIsExact` | src/relinker/stop/max_time.py:20-22 | a tree's own deadline: before any attempt it stops exactly from there on |
| `Delays.TreeIsSumOfLeaves` | src/relinker/delays/composite.py:36-71 | a tree that saturates on every level asks and resolves like the list of its leaves, saturated once |
| `Delays.TreeMeans` | src/relinker/delays/composite.py:36-71 | the leaves are asked left to right up to the first that gives no delay between zero and a day, and then that one fails; else they add up, to at most a day |
| `Delays.ResolveAdditiveTree` | src/relinker/delays/composite.py:36-71 | the explicit stack asks the same leaves in the same order and has the same outcome as the recursion, and ends |
| `Backoff.Upper` | src/relinker/delays/random_exponential.py:43-58 | the draw range ends at the largest delay above the minimum that is within the backoff, the maximum and a day, or at the minimum when there is none |
| `Backoff.UpperDoesNotFall` | src/relinker/delays/random_exponential.py:43-58 | with a factor of at least one the range does not shrink from retry to retry |
| `Backoff.BackoffGrows` | src/relinker/delays/random_exponential.py:47-50 | the first backoff is the base, and each further one `factor` times the one before |
| `Backoff.CanVaryIffGrowsPastMinimum` | src/relinker/internal/policy_diagnostics.py:98-120 | what the diagnostic decides: whether the uncapped backoff of some reachable retry exceeds the minimum |
| `Backoff.GrowsPastIff` | src/relinker/internal/policy_diagnostics.py:108-116 | whether the uncapped backoff of some reachable retry exceeds a bound, read off `base`, `factor` and the number of retries |
| `Backoff.CheckIsExactIff` | src/relinker/internal/policy_diagnostics.py:98-120 | exactly for which settings the diagnostic is right about some reachable retry having a range to draw from |
| `Backoff.CheckIsWrongAtTheCeiling` | src/relinker/internal/policy_diagnostics.py:98-120 | an input on which it is wrong |
| `Simulation.HasUserCallback` | src/relinker/internal/policy_simulation.py:36-48 | the stack loop finds a callback exactly when some leaf of the tree is one |
| `Simulation.SimulatePolicy` | src/relinker/internal/policy_simulation.py:51-95 | the loop computes the timeline, or is refused for a bad count, a user callback or an invalid delay |
| `Simulation.SimulationIsFaithful` | src/relinker/internal/policy_simulation.py:61-95 | the timeline lists exactly the sleeps, attempts and stop of the real execution in which every attempt fails at once, and each step's cumulative sleep is what was slept by then |
| `Simulation.LimitIsAttained` | src/relinker/internal/policy_simulation.py:98-126 | such an execution without delays makes exactly as many attempts as the known limit, and without one never ends |
| `Simulation.AttemptStrategiesAllow` | src/relinker/stop/composite.py:23-42 | such executions make exactly `n` attempts under "after n attempts", the lesser of two such limits under "any" and the greater under "all" |
| `Simulation.TimeStrategyAllows` | src/relinker/stop/max_time.py:20-22 | with a constant delay and a time limit they stop at the attempt whose sleep would first reach the limit |
| `Simulation.CallbacksAreRefused` | src/relinker/internal/policy_simulation.py:51-58 | delays that run user callbacks are refused, unless the first attempt stops at once |
| `Fleet.AlwaysTracked` | src/relinker/internal/retry_wait.py:56-84 | of any interleaving: what is outstanding is what sleeps or has started, each reservation once and no other, each sleep ending at its slot |
| `Fleet.FleetKeepsRate` | src/relinker/executors/sync.py:31-63 | of planned retries: each starts at its slot or as much later as it drifted, and a window sees at most `capacity` starts per period that it and the drift cover |
| `Fleet.FleetWithoutDrift` | src/relinker/executors/sync.py:31-63 | of planned retries: without drift every one starts at its slot and no window sees more than `capacity` starts |
| `FleetMembers.TurnsArePlans` | src/relinker/internal/retry_wait.py:41-84 | every turn of an execution asks the budget it finds for the end of its own delay, and sleeps to the granted slot or gives it back, or asks for nothing |
| `Interleaving.InterleavingsAreFleets` | src/relinker/internal/retry_wait.py:41-84 | whole executions on one budget object, with the calls of others between any two of their calls, are a possible fleet with the same calls and starts |
| `Interleaving.MembersAreExecutions` | src/relinker/executors/sync.py:40-63 | each of them does exactly what its execution does on the budget it finds |
| `Interleaving.RetriesBegin` | src/relinker/executors/sync.py:49-63 | the starts are the beginnings of attempts 2, 3, ... of the executions, each once |
| `Interleaving.RetriesKeepRate` | docs/concepts/retry-budgets.md:3-22 | over any interleaving of whole executions, any window sees at most `capacity` retries begin per period that it and the drift cover |
| `Interleaving.RetriesKeepExactRate` | docs/concepts/retry-budgets.md:3-22 | with no drift, no window sees more than `capacity` retries begin |
| `Rates.RateIsAttained` | src/relinker/internal/retry_wait.py:56-75 | for any period, capacity and drift, whole executions that begin as many retries in one window as that bound allows |
| `Rates.RateIffNoDrift` | src/relinker/internal/retry_wait.py:41-75 | retries begin within capacity over all interleavings of all executions exactly when there is no drift |
| `Rates.FleetRateIsAttained` | src/relinker/internal/retry_wait.py:56-75 | so do planned retries alone |
| `Rates.FleetRateIffNoDrift` | src/relinker/internal/retry_wait.py:41-75 | and they too start within capacity over all interleavings exactly without drift |
| `Holdings.NothingLeaks` | docs/maintainers/retry-budget-invariants.md:64-69 | at every moment of every interleaving, the reservations outstanding number the retries begun and the executions that have planned one |
| `Holdings.MembersConserve` | src/relinker/internal/retry_wait.py:58-84 | each of these executions holds one reservation per completed sleep, one less than its attempts once it has ended |

## Left out

- Budget.RetryBudget.Snapshot: does not report the period, and counts `next_available_in` not in seconds, because the grid has no unit; the model counts the distance to the next slot in representable times, which is zero exactly when the seconds are.
- LegalityTests.AvailableAt: requires that subtracting the period moves the current time, because the loop does not end otherwise (AvailableTerminatesIff); Budget.RetryBudget.Snapshot, which calls it, requires the same.
- Negative clock readings: readings and requested times are at or above the grid's zero, as a monotonic clock's are.
- Overflow to infinity: floating-point formats have no largest exponent.
- Executions, simulation and delays in floating point: those modules count whole nanoseconds or reals, so sums of delays do not round there.
- ExecuteSync: the script of turns is finite, so a run that never ends is seen through all its finite beginnings; the required outcomes only say that a function that does not raise returns a value.
- RunBlock: nothing leaves the loop early, and a body that sets a result does so once.
- ReservationsAreConserved: nobody else uses the budget during the run; ConservedAmongOthers lets others in between the turns, and Holdings.NothingLeaks and Holdings.MembersConserve at every call.
- DeadlineIsKept: an attempt whose sleep overruns may begin later; the clause about the next attempt assumes that the sleeper is exact.
- CapacityIffNoPeak: exact time; under rounding CapacityOverWholeRuns has the condition that is enough, without the count of readings.
- NothingLeaks: exact time, one key and calls in the order of their clock readings, as in RetriesKeepRate.
- RetriesKeepRate: exact time and one key; the calls come in the order of their clock readings, sleepers do not wake early, and the processing between a plan and its sleep is part of the drift. A retry counts from the time its attempt begins, also when a before_attempt handler then fails.
- TestsDisagree: values below zero are whole units of the format's least value; they are only compared with values that are not below zero.
- User-defined stop strategies, and built-in ones that raise: stop trees are those of the library and are total.
- The asynchronous executor and block iterator: the same flow, with awaiting around it.
- Thread locks, the real clock and sleeper, and the random generator: atomic steps, parameters and oracles.
- Aliasing of a deque that `_reserve` keeps while it sweeps: the table is a map of lists, and the list found after the sweep is the one extended.
- State snapshots for handlers and stateful delays, event payloads, isolated handlers' reports, logging, names and descriptions: observation without effect on the decisions.
- Callable inspection, coroutine sleepers, exception copying and the construction of policies: Python reflection; policies are taken as constructed.
- `_delay_is_always_zero`, `_has_effective_random_delay` and the other warnings: one traversal each with leaf comparisons.
- HTTP helpers, presets, JSON and dictionary rendering.
