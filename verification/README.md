# Quorvel: what its reliability layer promises, proved

Quorvel makes an agent's actions durable: a workflow engine that replays a body
against an append-only history, sagas that roll back on a ledger, a ledger that runs
each action once under policy, and a hosted service with quotas, request replay and
paginated listings. This project models those protocols in Dafny and proves what they
keep over every run.

## How the model is built

- Each stateful component is a class with the program's own fields and loops
  (`InMemoryWorkflowStore`, `WorkflowEngine`, `InMemoryLedger`, `SagaCoordinator`,
  `MemStore`, `Service`, `CircuitBreaker`, ...). Every method is proved equal to a
  function on values, and the theorems are about those functions over whole runs.
- A crash is a `budget`: the number of store writes and calls of a caller's function
  the process performs before it dies. Every theorem holds for every budget of every
  call, so for a crash between any two of them.
- What a caller's function, the clock and the random source return is chosen afresh for
  every call (`Env`, `World`, `Request.execute`), and is otherwise arbitrary. Histories
  (`journal`, `log`, `claims`, `callers`, `runs`, `denied`) exist only to state theorems.
- Where calls really interleave (the claim on a key, quota reservations, one
  Idempotency-Key) each store operation is one step of a state machine and any thread may
  take the next one; a lemma ties one thread's steps alone to the sequential method.
- A key is the text its digest is taken of. Strings that are compared or escaped are
  sequences of 16-bit code units.

| files | subject |
|---|---|
| Workflow, WorkflowTheorems, WorkflowProgress, WorkflowStore, WorkflowEngine | durable workflows |
| Ledger, LedgerStore, Policy, Run, RunTheorems, RunAnswers, BudgetTheorems, WindowTheorems, ActionMachine | one action on the ledger |
| Claim, Reentry | many callers of one action |
| Saga, SagaGuarantees, SagaProgress, SagaSteps, SagaStore, SagaRunner | sagas over ledger and saga store |
| Billing, Quota, Usage, ActionService | quotas and usage |
| ApiStore, Replay, Pagination, Iterate | the hosted store, request replay, listings |
| CanonicalJson, JsonReader, CodeUnits | canonical text of idempotency keys |
| Breaker, RateLimit | circuit breaker and limiter |
| Prelude, Sorting | shared vocabulary |

## Where the code and its promises differ

- "At most once across duplicate calls" (run.ts:33) holds for sequential calls. Under
  interleaving it fails: `ReentryRunsTwice` and `TwoApproversRunTwice` get there from the
  empty ledger. It holds as long as no call enters a failed or approved row while another
  is past its own entry and not over, and no reviewer marks a succeeded row
  (`GuardedRunsReturnOnce`), and that guard is exact (`GuardIsExact`, `BreachReturnsTwice`).
  A step here is one operation of the LedgerStore interface, which answers with the row as
  it is then. The in-memory ledger hands out the live row, so there a caller's look at an
  approved row and its mark, and a reviewer's look and mark, have no await between them; on
  it only a failed row, whose policies are awaited first, admits a breach.
- "Resume rollback - retries any stuck compensations" (saga.ts:119): an undo that died under
  way has left its ledger row running, is refused as a duplicate from then on, and stays
  stuck: `StuckStepsAreRetried` says exactly when it is called again, `DeadUndoStaysStuck`
  shows a run.
- A buffered signal is lost if the process dies between consuming it and recording the
  wait: `SignalConservation` holds exactly without such a crash, `DriveDropsExactly` says
  when a call has one, and `SignalCanBeLost` shows one.
- A budget is exceeded if the process dies between inserting a row the budget denies and
  marking it denied: `BudgetKeptExactly` is the exact condition, and `WindowNeverExceeded`
  and `RateNeverExceeded` hold for runs without such a death.
- "Genuine failure => roll back" (saga.ts:187): a step whose own function ends with an
  approval-required or duplicate-in-flight error, say of an inner action, has failed for
  good on the ledger, and yet the saga pauses: `PausesExactly` is the exact condition,
  `RefusedInsidePauses` a run.
- "Runs the handler once" (service.ts:248): two requests that find the same orphaned claim
  can both reclaim it, the second deleting the claim the first has just made
  (`TwoReclaimersRunTwice`); likewise a reclaim of a claim whose handler is merely slow.
  It holds as long as no reclaim deletes the claim of a handler in flight or a stored
  response, and that guard is exact (`UnsafeReclaimBreaks`); handlers that end in time and
  prompt requests keep it (`TimelyIsGuarded`, `OneInFlightInTime`).
- The usage counter falls behind the counting rows when a failed row is retried at a full
  hard cap: `CounterStaysExactIff` and `CounterCanFallBehind`.
- Two windows' worth of calls in one sliding window is not quite reachable: the exact bound
  is 2 * max - 1, since the check that opens a window that began earlier is outside it.

## Model

| member | source | states |
|---|---|---|
| `WorkflowTheorems.HistoryReplays` | packages/core/src/workflow.ts:174-355 | after any calls with crashes anywhere, positions are contiguous from 0, only a last sleep or wait may be open, and the history is a prefix of the commands the body issues when fed the recorded answers |
| `WorkflowTheorems.ReplayIsUninterrupted` | packages/core/src/workflow.ts:180-184 | a body replayed to its return from recorded answers returns what one uninterrupted run on those answers returns |
| `WorkflowTheorems.CrashResumeEquivalence` | packages/core/src/workflow.ts:118-184 | however a run is cut up by crashes and resumes, a completed result is the body's return value in one uninterrupted run on the recorded answers |
| `WorkflowTheorems.CommittedStepNeverRunsAgain` | packages/core/src/workflow.ts:238-265 | once a step is appended its function is never called again and it is never appended again; the record holds what its last call returned |
| `WorkflowTheorems.NoEarlyWake` | packages/core/src/workflow.ts:267-284 | a sleep is over, or passed, only if a tick ran at or after the clock reading it was armed at plus its duration |
| `WorkflowTheorems.CompletedIsAbsorbing` | packages/core/src/workflow.ts:119-122 | once completed, no later start, resume, signal or tick changes the run row or the history |
| `WorkflowTheorems.HistoryIsAppendOnly` | packages/core/src/workflow-store.ts:155-170 | no call removes, renames or retypes a recorded event, or touches a completed one, from any state at all |
| `WorkflowTheorems.SignalConservation` | packages/core/src/workflow.ts:131-148 | payloads sent are, in order, those of completed waits followed by those buffered if and only if no crash fell between consuming one and recording its wait; none is buffered while a wait for it is open |
| `WorkflowTheorems.SignalCanBeLost` | packages/core/src/workflow.ts:295-304 | a process that dies right after consuming a buffered signal loses it, for every body whose first command waits for it |
| `WorkflowTheorems.DriveDropsExactly` | packages/core/src/workflow.ts:295-304 | a drive loses a signal if and only if, at the last command it issues, the body waits for a buffered signal and the process dies right after consuming it; it loses just that one |
| `WorkflowTheorems.DeterminismGuardIsExact` | packages/core/src/workflow.ts:214-227 | a drive raises the determinism error at i exactly when i is the first reached position whose type or name differs from the record; it names the recorded event and the command the body issues there, and changes nothing but the run's status and error |
| `WorkflowTheorems.GuardFrom` | packages/core/src/workflow.ts:214-227 | the guard stated from any position the replay has reached |
| `WorkflowProgress.ResumeGoes` | packages/core/src/workflow.ts:119-185 | resuming with enough writes a workflow whose history is complete takes it exactly where the body goes by itself in a reference run without store, history or budget: the same answers are recorded, the same signals used up, and the row then says how it stopped; a body that returns v leaves completed with v |
| `WorkflowProgress.StartGoes` | packages/core/src/workflow.ts:104-116 | so does starting a workflow anew, under the name and with the input given |
| `WorkflowProgress.SignalWakes` | packages/core/src/workflow.ts:131-142 | a signal to a workflow that waits for it becomes the wait's answer, and with enough writes the body goes on from there as the reference run does |
| `WorkflowProgress.TimerWakes` | packages/core/src/workflow.ts:151-158 | so does the resume after a tick completed a sleep whose time has come |
| `WorkflowProgress.ResumeParks` | packages/core/src/workflow.ts:267-311 | a body that stands at an open sleep or wait is parked again: reply and row say suspended, and nothing else changes |
| `WorkflowProgress.AnswerTellsRow` | packages/core/src/workflow.ts:174-201 | whatever call is made on whatever reachable workflow, its answer is the row it leaves: a returned value is the result of a completed run with a complete history, a parked body leaves suspended with its last event open, an error leaves failed with that error, a death leaves the run unfinished |
| `WorkflowProgress.StepReturns` | packages/core/src/workflow.ts:244-258 | a new step is called attempt by attempt until one first returns, and no more, and is recorded with that value |
| `WorkflowProgress.StepThrows` | packages/core/src/workflow.ts:247-264 | a step none of whose retries + 1 attempts returns is called exactly that often and throws what the last one threw |
| `WorkflowProgress.PlayGoes` | packages/core/src/workflow.ts:229-354 | beyond the recorded history a replay with enough writes goes where the reference run goes |
| `WorkflowProgress.ReplaysAll` | packages/core/src/workflow.ts:205-227 | a replay feeds the body the whole recorded history before it does anything |
| `WorkflowReplay.PlayKeeps` | packages/core/src/workflow.ts:229-354 | running the body against its loaded history keeps history, journal, timer and mailbox invariants, and never trips the determinism guard on its own history |
| `WorkflowReplay.AttemptKeeps` | packages/core/src/workflow.ts:244-264 | the retry loop of a step keeps them, dying anywhere |
| `WorkflowReplay.SleepKeeps` | packages/core/src/workflow.ts:275-283 | so does arming a timer |
| `WorkflowReplay.WaitKeeps` | packages/core/src/workflow.ts:294-314 | so does a wait, whether it parks, takes a buffered signal or dies in between |
| `WorkflowReplay.ReadKeeps` | packages/core/src/workflow.ts:317-353 | so do the checkpointed clock and random reads |
| `WorkflowReplay.DriveKeeps` | packages/core/src/workflow.ts:174-201 | so does a whole drive |
| `WorkflowReplay.StartKeeps` | packages/core/src/workflow.ts:104-116 | so does start |
| `WorkflowReplay.ResumeKeeps` | packages/core/src/workflow.ts:119-125 | so does resume |
| `WorkflowReplay.SignalKeeps` | packages/core/src/workflow.ts:131-148 | so does signal, delivered or buffered |
| `WorkflowReplay.FireKeeps` | packages/core/src/workflow.ts:151-157 | so does completing a due timer |
| `WorkflowReplay.ConsumeTakesHead` | packages/core/src/workflow-store.ts:211-221 | consuming takes the head of one name's queue and leaves every other queue alone |
| `WorkflowStore.InMemoryWorkflowStore.constructor` | packages/core/src/workflow-store.ts:108-112 | an empty store knows nothing of any workflow |
| `WorkflowStore.InMemoryWorkflowStore.GetRun` | packages/core/src/workflow-store.ts:118-121 | the run row |
| `WorkflowStore.InMemoryWorkflowStore.CreateRun` | packages/core/src/workflow-store.ts:123-140 | creates the row only if there is none; other workflows keep everything |
| `WorkflowStore.InMemoryWorkflowStore.SetRunStatus` | packages/core/src/workflow-store.ts:142-153 | sets status, and result and error when given; other workflows keep everything |
| `WorkflowStore.InMemoryWorkflowStore.AppendEvent` | packages/core/src/workflow-store.ts:155-159 | appends only at a free position |
| `WorkflowStore.InMemoryWorkflowStore.CompleteEvent` | packages/core/src/workflow-store.ts:161-170 | completes an existing event, keeping its result when none is given |
| `WorkflowStore.InMemoryWorkflowStore.GetEvents` | packages/core/src/workflow-store.ts:172-179 | exactly the workflow's events, each once, by position |
| `WorkflowStore.InMemoryWorkflowStore.GetDueTimers` | packages/core/src/workflow-store.ts:181-195 | exactly the open timers due by now, each once, earliest first |
| `WorkflowStore.InMemoryWorkflowStore.EnqueueSignal` | packages/core/src/workflow-store.ts:197-209 | appends to the workflow's inbox |
| `WorkflowStore.InMemoryWorkflowStore.ConsumeSignal` | packages/core/src/workflow-store.ts:211-221 | claims the earliest unconsumed signal of the name, if any, and removes it from that inbox only |
| `Engine.WorkflowEngine.constructor` | packages/core/src/workflow.ts:87-95 | over a store that knows nothing, every workflow is in a state the theorems speak about |
| `Engine.WorkflowEngine.Attempt` | packages/core/src/workflow.ts:247-264 | the step's loop over the store computes the specified attempt |
| `Engine.WorkflowEngine.Sleep` | packages/core/src/workflow.ts:267-284 | likewise arming a timer |
| `Engine.WorkflowEngine.WaitForSignal` | packages/core/src/workflow.ts:286-315 | likewise a wait |
| `Engine.WorkflowEngine.Read` | packages/core/src/workflow.ts:317-353 | likewise a clock or random read |
| `Engine.WorkflowEngine.LoadHistory` | packages/core/src/workflow.ts:208-209 | the events by position are the stored history |
| `Engine.WorkflowEngine.PlayBody` | packages/core/src/workflow.ts:229-354 | the loop that feeds the body and numbers its commands computes the specified replay, for this workflow only |
| `Engine.WorkflowEngine.Drive` | packages/core/src/workflow.ts:174-201 | a drive over the store computes the specified drive, for this workflow only |
| `Engine.WorkflowEngine.Resume` | packages/core/src/workflow.ts:119-125 | resume computes the specified resume, unknown, unregistered and completed runs included |
| `Engine.WorkflowEngine.Start` | packages/core/src/workflow.ts:104-116 | start computes the specified start, resuming an existing run |
| `Engine.WorkflowEngine.FindWaiting` | packages/core/src/workflow.ts:136-139 | finds the first open wait of the name in position order, or none |
| `Engine.WorkflowEngine.Signal` | packages/core/src/workflow.ts:131-148 | signal computes the specified delivery or buffering |
| `Engine.WorkflowEngine.FireAll` | packages/core/src/workflow.ts:152-157 | every due timer is completed, in each workflow by a sequence of timer firings only, and the workflows are collected once each |
| `Engine.WorkflowEngine.ResumeAll` | packages/core/src/workflow.ts:158 | each collected workflow is resumed once, in turn, with the writes the earlier ones left, until one throws or the process dies; the rest are untouched |
| `Engine.WorkflowEngine.Tick` | packages/core/src/workflow.ts:151-160 | a tick fires exactly the sleeps whose time has come, completing each, then resumes each affected workflow once, in turn, with the writes that are left, until one throws or the process dies; the others are untouched; it dies before that only if the timers outnumber its writes |
| `Engine.TickReaches` | packages/core/src/workflow.ts:151-160 | what a tick does to one workflow is a sequence of the calls the theorems are about |
| `Engine.WorkflowEngine.Serve` | packages/core/src/workflow.ts:87-160 | any sequence of start, resume, signal and tick requests on any workflows, with crashes, leaves every workflow in a state the theorems speak about |
| `LedgerStore.InMemoryLedger.Get` | packages/core/src/ledger.ts:88-90 | the row of a key |
| `LedgerStore.InMemoryLedger.InsertPending` | packages/core/src/ledger.ts:92-108 | only one caller creates the row; the others change nothing |
| `LedgerStore.InMemoryLedger.MarkRunning` | packages/core/src/ledger.ts:115-121 | status and attempt count of an existing row |
| `LedgerStore.InMemoryLedger.MarkSucceeded` | packages/core/src/ledger.ts:122-124 | status and result of an existing row |
| `LedgerStore.InMemoryLedger.MarkFailed` | packages/core/src/ledger.ts:125-127 | status and error of an existing row |
| `LedgerStore.InMemoryLedger.MarkAwaitingApproval` | packages/core/src/ledger.ts:128-130 | status and reason of an existing row |
| `LedgerStore.InMemoryLedger.MarkApproved` | packages/core/src/ledger.ts:131-133 | status of an existing row |
| `LedgerStore.InMemoryLedger.MarkRejected` | packages/core/src/ledger.ts:134-136 | status and reason of an existing row |
| `LedgerStore.InMemoryLedger.MarkDenied` | packages/core/src/ledger.ts:137-139 | status and reason of an existing row |
| `LedgerStore.InMemoryLedger.Stats` | packages/core/src/ledger.ts:150-162 | count and cost of exactly the rows in scope, of the tool, since the time, that are not failed, denied or rejected |
| `ActionLedger.SumCostTakes` | packages/core/src/ledger.ts:150-162 | the total does not depend on the order rows are visited in |
| `Policies.MostRestrictiveWins` | packages/core/src/policy.ts:25-29 | deny exactly when some policy denies; allow exactly when all allow |
| `Policies.FirstOfItsKindWins` | packages/core/src/policy.ts:25-42 | the first denial is the decision; without one, the first approval requirement |
| `WindowTheorems.BudgetRules` | packages/core/src/policy.ts:84-106 | a budget allows a call exactly when the live rows of scope and tool, created in the last windowMs if it has a window, and the call itself cost at most the limit; otherwise it denies or asks for approval, naming scope, sum and limit |
| `WindowTheorems.RateRules` | packages/core/src/policy.ts:120-138 | a rate limit allows a call exactly when fewer than its limit of live rows were created in the last windowMs |
| `WindowTheorems.NotDeniedFitsWindow` | packages/core/src/policy.ts:88-97 | a run that carries a windowed deny budget and is not denied: the live rows created at or after now - windowMs and the run itself cost at most the limit |
| `WindowTheorems.WindowNeverExceeded` | packages/core/src/policy.ts:75-106 | over any runs, retries, approvals and rejections under one windowed deny budget, at every moment the live rows created in the last windowMs cost at most the limit |
| `WindowTheorems.RateNeverExceeded` | packages/core/src/policy.ts:109-138 | over any such sequence under one deny-mode rate limit, at every moment at most limit live rows were created in the last windowMs |
| `WindowTheorems.SpentIsLive` | packages/core/src/ledger.ts:150-162 | what an all-time budget counts is the cost of the scope's pending, running, succeeded, parked and approved rows |
| `Policies.Evaluate` | packages/core/src/policy.ts:48-139 | each built-in policy reads the ledger as specified |
| `Policies.EvaluatePolicies` | packages/core/src/policy.ts:30-42 | the loop computes the first denial, else the first approval requirement, else allow |
| `Runner.Execute` | packages/core/src/run.ts:109-133 | the retry loop over the ledger computes the specified execution |
| `Runner.Run` | packages/core/src/run.ts:49-107 | run() over the ledger computes the specified run, for every stored status |
| `Runner.Approve` | packages/core/src/run.ts:140-147 | approves only a row awaiting approval; reports a missing or other row |
| `Runner.Reject` | packages/core/src/run.ts:150-161 | rejects only a row awaiting approval; reports a missing or other row |
| `RunTheorems.SucceedsAtMostOnce` | packages/core/src/run.ts:33-34 | over any sequence of run, approve and reject with crashes, a key's function is never called again once it has returned, and a succeeded row holds exactly that value |
| `RunTheorems.RunReturnsStoredResult` | packages/core/src/run.ts:55-60 | run() returns a value exactly when it leaves the row succeeded, and it is the value the function returned |
| `RunAnswers.AnswerNamesRow` | packages/core/src/run.ts:55-133 | a run that does not die answers what the row it leaves says: the stored result, the stored reason of a parked, rejected or denied row, the stored error of a failed one, and a duplicate for a pending or running one, which it leaves alone; no run leaves its row approved |
| `RunAnswers.RunMakesItsAttempts` | packages/core/src/run.ts:109-133 | a run with enough writes survives; if its row is approved, or new or failed and every policy allows it, its function is called attempt by attempt until one returns or retries + 1 have failed, and the run ends as the last of them did; otherwise it is not called at all |
| `RunAnswers.FirstRulingDecides` | packages/core/src/run.ts:97-104 | the first denial refuses a new or failed action for its reason; without one, the first approval requirement parks it for its reason |
| `RunAnswers.ConditionsDecide` | packages/core/src/policy.ts:48-70 | a new or failed action that some denying condition holds of is denied without being called; one whose policies are all conditions that do not hold is called |
| `RunAnswers.ReviewIsObeyed` | packages/core/src/run.ts:60-66 | after a rejection every run is refused for the reason given and changes nothing; after an approval the next run makes its attempts whatever its policies would say |
| `RunAnswers.AttemptsAreCounted` | packages/core/src/ledger.ts:115-121 | a row's attempt count is how often it was marked running |
| `RunTheorems.RunRefinesMachine` | apps/api/src/service.ts:54-69 | every status change made by run, execute, approve and reject is one the server allows; terminal statuses are final; running or succeeded after awaiting_approval has an approved in between |
| `RunTheorems.RunKeeps` | packages/core/src/run.ts:49-107 | one run keeps a key's history lawful and its function called successfully at most once |
| `RunTheorems.ExecuteKeeps` | packages/core/src/run.ts:118-132 | so does the retry loop, dying anywhere |
| `RunTheorems.RunSettles` | packages/core/src/run.ts:49-133 | one run touches one row only, keeps its cost, and hands its function one payload |
| `ActionMachine.GateAndTerminals` | apps/api/src/service.ts:60-75 | any lawful trail has its terminal status last, and passes the approval gate only through approved |
| `ActionMachine.MachineRules` | apps/api/src/service.ts:60-69 | the table as rules: nothing leaves a terminal status, nothing returns to pending, waiting for approval ends only in a decision, only a waiting row is approved, and an approved row only runs, succeeds or fails |
| `BudgetTheorems.BudgetKeptExactly` | packages/core/src/policy.ts:84-106 | a run keeps the scope within the budget if and only if it did not die between inserting a new row the budget has no room for and marking it denied |
| `BudgetTheorems.BudgetNeverExceeded` | packages/core/src/policy.ts:84-106 | over any runs, retries, approvals and rejections under one all-time deny budget, the counting rows of the scope never cost more than the limit |
| `Claim.OneWinner` | packages/core/src/run.ts:82-95 | of any number of interleaved calls that reach insertPending exactly one wins it, ever |
| `Claim.OnlyTheWinnerExecutes` | packages/core/src/run.ts:82-106 | until the row first leaves pending and running only the winner calls its function, and every call that is over has thrown |
| `Claim.OneResultForAll` | packages/core/src/run.ts:55-95 | if the row first settles as succeeded, only the winner ever called its function and every call that returns, returns the stored result |
| `Claim.ResultStands` | packages/core/src/run.ts:57-59 | and that row and result stand whatever any thread does later |
| `Claim.ReturnsStored` | packages/core/src/run.ts:55-132 | under any interleaving at all, a call returns only a value some caller's function returned, and at its last turn either stored it, being that caller, or found it stored |
| `Claim.AloneIsRun` | packages/core/src/run.ts:49-133 | with nobody else about, the interleaved steps add up to the sequential run |
| `Reentry.GuardedRunsReturnOnce` | packages/core/src/run.ts:33-34 | at most once under any interleaving: if no call enters a failed or approved row while another is past its own entry and not over, and no reviewer marks a succeeded row, at most one call's function ever returns, its value is stored, and every call that gets a value gets that one |
| `Reentry.GuardIsExact` | packages/core/src/run.ts:55-133 | after a run that kept that guard, the next turn keeps it if and only if nothing unsound can follow as long as it is kept from then on (where a caller enters beside another, one of the two must be able to return) |
| `Reentry.BreachReturnsTwice` | packages/core/src/run.ts:60-75 | a first breach, by calls whose functions can return, lets the key's function return twice with no further breach |
| `Reentry.ReentryRunsTwice` | packages/core/src/run.ts:72-80 | from the empty ledger: one call fails, two others both find the row failed, and both of their functions return |
| `Reentry.TwoApproversRunTwice` | packages/core/src/run.ts:140-147 | from the empty ledger: two reviewers both see the row awaiting approval, the first approves, a call runs and is over, and the second approval lets another call run |
| `Reentry.RunsToEnd` | packages/core/src/run.ts:109-133 | a call past its entry takes no notice of the row: if an attempt of its function returns, it stores that value whatever the row says meanwhile |
| `SagaGuarantees.StoresAgree` | packages/core/src/saga.ts:142-217 | step records are a contiguous prefix and agree with the ledger; at most the next step is committed without a record, and none once a rollback has begun |
| `SagaGuarantees.DoAndUndoAtMostOnce` | packages/core/src/saga.ts:151-172 | each step's do and undo succeed at most once and are not called again; undo is called only after, in the order of the log, do returned, and with exactly its output |
| `SagaGuarantees.AllOrNothing` | packages/core/src/saga.ts:90-133 | succeeded: every step recorded and no undo called; compensated: every recorded step undone; compensation_failed: some steps stuck, and exactly those on the next rollback's list |
| `SagaGuarantees.StuckStepsAreRetried` | packages/core/src/saga.ts:117-126 | the next call on a stuck saga, if it does not die, calls a stuck step's undo exactly when the undo's ledger row is absent, failed or approved and it has attempts; with the row pending or running it is not called and stays stuck |
| `SagaGuarantees.DeadUndoStaysStuck` | packages/core/src/saga.ts:230-251 | a run that gets there: a first call dies inside the undo, the second leaves the step stuck, and no later call that does not die ever calls that undo again |
| `SagaGuarantees.RollbackListsSteps` | packages/core/src/saga.ts:219-264 | an abort lists all the steps there were to undo, latest first; a compensation error lists exactly those left stuck, latest first, each with its recorded error |
| `SagaGuarantees.RollbackIsLifo` | packages/core/src/saga.ts:211-253 | one rollback pass calls undo in strictly decreasing step order, and only for committed or stuck steps |
| `SagaGuarantees.AnswerMatchesState` | packages/core/src/saga.ts:91-133 | whatever run() or resume() answers, the persisted status and the recorded outputs say the same |
| `SagaProgress.PausesExactly` | packages/core/src/saga.ts:151-195 | over whole runs, a forward call that does not die completes exactly when every step is recorded; pauses exactly when the row of the first unrecorded step is awaiting approval, pending or running, or failed with a refusal of an inner action; and rolls back, blaming that step for what its row says, exactly when the row is denied, rejected or failed otherwise |
| `SagaProgress.RefusedInsidePauses` | packages/core/src/saga.ts:176-185 | a step whose function itself ends with a duplicate-in-flight error leaves its row failed and the saga paused |
| `SagaProgress.AmpleCallsAnswer` | packages/core/src/saga.ts:90-133 | a call with ample writes, a bound read off the steps' retries, comes to an answer |
| `SagaProgress.AbortIsRepeated` | packages/core/src/saga.ts:111-116 | a saga once rolled back goes on answering so, blaming the same step for the same reason and naming every step it had recorded, whatever becomes of the ledger |
| `SagaProgress.CompletionIsRepeated` | packages/core/src/saga.ts:105-110 | a completed saga goes on answering with the same outputs |
| `SagaProgress.RollbackIsRepeated` | packages/core/src/saga.ts:117-126 | a rollback that is taken up again blames the same step for the same reason |
| `SagaProgress.OutputsAreResults` | packages/core/src/saga.ts:165-166 | a completed saga answers, under each step name, what the ledger holds that the last step of that name returned, and nothing under any other name |
| `SagaSteps.NextStepIsRun` | packages/core/src/saga.ts:156-164 | what a forward call leaves of the first unrecorded step is what run() leaves for a request with the step's own key, cost, retries, policies and function, on the ledger as the call found it |
| `SagaSteps.EveryUndoIsRun` | packages/core/src/saga.ts:222-238 | a rollback that does not die leaves of the undo of every committed or stuck step what run() leaves for its request: its own key, no cost, the compensation retries, no policies, handed the recorded output |
| `SagaGuarantees.ReachKeeps` | packages/core/src/saga.ts:90-265 | any run of saga calls with crashes, with other users of the ledger and reviewers in between, keeps the two-store invariant |
| `SagaTheorems.ForwardKeeps` | packages/core/src/saga.ts:142-195 | the forward pass keeps the two-store invariant, dying anywhere |
| `SagaTheorems.UndoAllKeeps` | packages/core/src/saga.ts:222-264 | the undo pass keeps it and ends compensated or with a stuck step |
| `SagaTheorems.RunSagaKeeps` | packages/core/src/saga.ts:91-133 | a whole call keeps it, from every persisted status |
| `SagaTheorems.UndoOrderIs` | packages/core/src/saga.ts:213-217 | the undo list is strictly descending and is exactly the committed and stuck steps |
| `SagaTheorems.DoStepKeeps` | packages/core/src/saga.ts:156-164 | running a recorded step again returns its recorded output; a step that fails for good is the first unrecorded one |
| `SagaStore.InMemorySagaStore.CreateSaga` | packages/core/src/saga-store.ts:92-110 | creates the saga only if there is none, else returns it; other sagas keep everything |
| `SagaStore.InMemorySagaStore.SetSagaStatus` | packages/core/src/saga-store.ts:112-123 | sets the status, and failed step and error when given |
| `SagaStore.InMemorySagaStore.SetCurrentStep` | packages/core/src/saga-store.ts:125-130 | sets the current step of an existing saga |
| `SagaStore.InMemorySagaStore.RecordStep` | packages/core/src/saga-store.ts:132-134 | inserts or overwrites one step record of one saga |
| `SagaStore.InMemorySagaStore.GetSteps` | packages/core/src/saga-store.ts:136-143 | exactly the saga's records, each once, in index order |
| `SagaRunner.SagaCoordinator.Step` | packages/core/src/saga.ts:85-88 | appends a step |
| `SagaRunner.SagaCoordinator.Run` | packages/core/src/saga.ts:91-133 | run() over the two stores computes the specified call, and touches no other saga |
| `SagaRunner.SagaCoordinator.Forward` | packages/core/src/saga.ts:142-195 | the forward pass over the stores computes the specified one |
| `SagaRunner.SagaCoordinator.Compensate` | packages/core/src/saga.ts:197-265 | the rollback over the stores computes the specified one |
| `SagaRunner.SagaCoordinator.UndoEach` | packages/core/src/saga.ts:219-253 | the loop that collects compensated steps and failures |
| `SagaRunner.SagaCoordinator.UndoStep` | packages/core/src/saga.ts:223-252 | one undo and its record, the step without an undo included |
| `SagaRunner.SagaCoordinator.Pick` | packages/core/src/saga.ts:207-217 | filter and sort give the specified undo order |
| `SagaRunner.SagaCoordinator.CollectOutputs` | packages/core/src/saga.ts:268-277 | the outputs by step name, later steps winning |
| `SagaRunner.SagaCoordinator.CompensatedSteps` | packages/core/src/saga.ts:284-287 | the names of the compensated steps in index order |
| `Billing.CappedPlans` | apps/api/src/billing.ts:9-36 | only the free plan and unlisted names are hard capped, at 1000; pro and scale are never turned down |
| `Billing.MemUsageStore.Increment` | apps/api/src/billing.ts:55-60 | moves one counter and returns its new value |
| `Billing.UsageMeter.Reserve` | apps/api/src/billing.ts:137-152 | with nobody else about a slot is taken unless a hard-capped plan has none left; the counter moves exactly then |
| `Billing.UsageMeter.Release` | apps/api/src/billing.ts:154-157 | gives one slot back |
| `Quota.QuotaNeverOvershoots` | apps/api/src/billing.ts:137-152 | for any interleaving of insertPending calls the counter is the slots held plus the rollbacks under way, held slots never exceed a hard cap, and rows that count never exceed the slots held |
| `Quota.DeniedExactlyWhenFull` | apps/api/src/billing.ts:142-150 | a call is turned away exactly when slots held plus rollbacks under way already fill the cap |
| `Quota.SettledCounter` | apps/api/src/service.ts:305-341 | when no call is under way the counter is the number of rows that count |
| `Quota.AloneIsReserve` | apps/api/src/billing.ts:137-152 | with nobody else moving, the interleaved steps at the counter are the meter's reserve |
| `UsageSpec.UsageIsConserved` | apps/api/src/service.ts:417-448 | over any sequential calls the counter is the number of counting rows less the re-reservations turned down: equal on plans that turn nothing down, never more on a capped one |
| `UsageSpec.CounterStaysExactIff` | apps/api/src/service.ts:423-434 | a call keeps the counter exact if and only if it does not bring a failed row back to counting while a hard-capped plan's counter is at its limit |
| `UsageSpec.CounterCanFallBehind` | apps/api/src/service.ts:429-433 | a run on the free plan after which 1001 rows count and the counter says 1000 |
| `UsageSpec.CounterWithinCap` | apps/api/src/billing.ts:143-150 | the counter of a hard-capped plan never passes its limit |
| `UsageSpec.TerminalRowsStay` | apps/api/src/service.ts:60-75 | a succeeded, rejected or denied row never moves again |
| `UsageSpec.InsertCreatesIff` | apps/api/src/service.ts:305-341 | after any calls an insert creates a pending row and takes a slot exactly when it names a key and a tool, the key is new, the store does not throw, and on a hard-capped plan fewer than 1000 slots are taken; otherwise it changes nothing |
| `UsageSpec.InsertRefusals` | apps/api/src/service.ts:305-341 | a malformed insert is refused first, then one at a full quota, then one the store throws on, then a duplicate |
| `UsageSpec.MoveIsMadeIff` | apps/api/src/service.ts:417-448 | a move the machine allows is made and the counter follows it: down when the row stops to count, up when it starts to again and the plan has room; any other changes nothing |
| `ActionService.Service.InsertPending` | apps/api/src/service.ts:305-335 | reserve, insert, refund a duplicate or a failed insert: the specified answer, rows and counter; other orgs keep theirs |
| `ActionService.Service.ReconcileUsage` | apps/api/src/service.ts:417-435 | refunds or re-reserves by which side of counting the row moved to, ignoring the verdict |
| `ActionService.Service.Transition` | apps/api/src/service.ts:437-448 | a missing row is ignored, an illegal move refused, a legal one applied and reconciled |
| `Replay.Idempotency.WithIdempotency` | apps/api/src/service.ts:250-303 | one call: claim, run, keep a 2xx, free the key otherwise, replay, refuse another fingerprint, reclaim a stale claim; no other key is touched |
| `Replay.OneInFlight` | apps/api/src/service.ts:250-303 | in any guarded interleaving at most one handler is in flight per key |
| `Replay.OneInFlightInTime` | apps/api/src/service.ts:250-303 | if every handler that lives ends within 60 seconds of its claim and every request that finds a claim looks at it and reclaims it before anybody else moves, at most one handler is in flight, however many requests interleave or die, orphaned claims being reclaimed |
| `Replay.TimelyIsGuarded` | apps/api/src/service.ts:274-287 | that timing implies the guard the other theorems need: a reclaim deletes neither the claim of a handler in flight nor a stored response |
| `Replay.UnsafeReclaimBreaks` | apps/api/src/service.ts:279-282 | the guard is exact: a first reclaim that breaks it puts a second handler in flight, or loses a stored response and runs a handler again, at the reclaiming request's next turn |
| `Replay.TwoReclaimersRunTwice` | apps/api/src/service.ts:279-282 | a run in which two requests reclaim the same orphan and both their handlers are in flight |
| `Replay.ClaimHoldsForAMinute` | apps/api/src/service.ts:274-287 | an unfinished claim made at c answers in progress to the same fingerprint, runs nothing and stays, whenever now is at most c + 60000; after that it is reclaimed and the request's own handler runs |
| `Replay.OwnHandlerAnswers` | apps/api/src/service.ts:290-303 | guarded or not, a request whose handler ended is answered what it answered, any status and body or its throw; any other answer is a refusal or a stored 2xx response |
| `Replay.OneResponse` | apps/api/src/service.ts:289-298 | every 2xx answer for a key, run or replayed, is one and the same response and goes to one fingerprint only |
| `Replay.StoredIsReplayed` | apps/api/src/service.ts:265-289 | once a 2xx is stored it stays, no handler runs again, and every later request is answered from it: replayed if the fingerprint matches, refused if not |
| `Replay.FailureFreesKey` | apps/api/src/service.ts:295-302 | after a non-2xx response or a throw the next request runs its handler |
| `Replay.AloneIsServed` | apps/api/src/service.ts:250-303 | with nobody else about, the interleaved steps are one withIdempotency call, whatever record is found |
| `ApiStore.MemStore.GetAction` | apps/api/src/store.ts:233-235 | the row of an org's key |
| `ApiStore.MemStore.InsertPending` | apps/api/src/store.ts:236-257 | creates the row only if there is none |
| `ApiStore.MemStore.ApplyTransition` | apps/api/src/store.ts:258-271 | patches an existing row |
| `ApiStore.PatchesAddUp` | apps/api/src/store.ts:258-271 | after any transitions a row has the last status, counts every attempt it was told to, carries the last result, error and reason given, and is otherwise as inserted |
| `ApiStore.MemStore.ClaimIdempotency` | apps/api/src/store.ts:394-416 | claims a free key, else returns the record there |
| `ApiStore.MemStore.CompleteIdempotency` | apps/api/src/store.ts:417-428 | stores the response on an existing record |
| `ApiStore.MemStore.DeleteIdempotency` | apps/api/src/store.ts:429-431 | removes one record |
| `ApiStore.MemStore.PageByStatus` | apps/api/src/store.ts:314-337 | the next rows of the status beyond the cursor, oldest first, none skipped; a cursor on the last exactly when more follow |
| `ApiStore.MemStore.PageRecent` | apps/api/src/store.ts:338-357 | the same over all rows, newest first |
| `Pagination.ClampPageSize` | apps/api/src/store.ts:60-68 | between 1 and 1000, and the whole part of a request within them |
| `Pagination.CursorRoundTrip` | apps/api/src/store.ts:70-82 | decoding an encoded cursor gives it back if and only if its timestamp is a date without a bar |
| `Pagination.DecodesExactly` | apps/api/src/store.ts:74-82 | a text is decoded exactly when it is a cursor's: a date without a bar, a bar, a key; every other text is malformed |
| `Pagination.BuildIsPage` | apps/api/src/store.ts:84-98 | trimming a limit + 1 fetch of an ordered listing gives a proper page |
| `Pagination.AheadIsStrictTotal` | apps/api/src/store.ts:323-334 | listing order is strict and total on (createdAt, key), in both directions |
| `Pagination.WalkNeverRepeats` | apps/api/src/store.ts:314-357 | whatever happens to the rows between fetches, a walk yields strictly in order and no row twice |
| `Pagination.WalkMissesNone` | apps/api/src/store.ts:314-357 | a walk that ends yields every row that matches at every fetch |
| `Pagination.LateRowsAreSeen` | apps/api/src/store.ts:314-357 | a row that starts to match part way, ahead of the cursor, and stays, is yielded exactly once |
| `Pagination.FixedWalkIsListing` | apps/api/src/store.ts:314-357 | over rows that do not change a walk that ends yields exactly the matching rows beyond its start, sorted |
| `Pagination.OneListing` | apps/api/src/store.ts:323-346 | there is only one such listing |
| `Pagination.FixedWalkEnds` | apps/api/src/store.ts:89-98 | over rows that do not change every page but the last is full and more follow, so a walk is at most as long as its rows allow |
| `Iterate.PageActions` | apps/api/src/service.ts:478-485 | by status oldest first, otherwise newest first; a malformed cursor is refused |
| `Iterate.IterateActions` | packages/core/src/hosted.ts:148-161 | over rows that do not change, the loop yields exactly the listing beyond its starting cursor, in order, and stops |
| `CanonicalJson.QuoteReads` | packages/core/src/idempotency.ts:19-21 | an escaped string reads back to itself whatever follows it, unpaired surrogates and control characters included |
| `CanonicalJson.TextDetermines` | packages/core/src/idempotency.ts:18-30 | no value's canonical text is the beginning of another's, unless they are equal up to member order |
| `CanonicalJson.SameText` | packages/core/src/idempotency.ts:25-29 | values equal up to member order have the same canonical text |
| `CanonicalJson.CanonicalTextIffSame` | packages/core/src/idempotency.ts:12-30 | two values have the same canonical text exactly when they are equal ignoring member order |
| `CanonicalJson.KeysAreDistinct` | packages/core/src/idempotency.ts:32-45 | calls share a key's preimage exactly when tool and scope are the same and the arguments are equal ignoring member order |
| `JsonReader.CanonicalTextIsJson` | packages/core/src/idempotency.ts:20-32 | a canonical text, read by an independent reader of JSON texts, is the value itself up to member order, nothing is left over, and every object's members come in ascending key order |
| `JsonReader.NoControls` | packages/core/src/idempotency.ts:20-23 | no control character is left unescaped |
| `JsonReader.EscapesLikeStringify` | packages/core/src/idempotency.ts:20-23 | the two-unit escapes, lower-case hexadecimal escapes for other control characters and unpaired surrogates, and nothing else escaped, on their characteristic cases |
| `BreakerSpec.ClosedBelowThreshold` | apps/api/src/resilience.ts:103-120 | while closed, failures are below the threshold and are the latest completions |
| `BreakerSpec.OpeningFromClosed` | apps/api/src/resilience.ts:112-120 | a closed circuit opens exactly on the failure that completes the threshold; the last threshold completions all failed |
| `BreakerSpec.OpensAfterThreshold` | apps/api/src/resilience.ts:112-120 | a closed circuit opens exactly on the completion with which the last threshold completions since it closed all failed |
| `BreakerSpec.FailuresAreTrailing` | apps/api/src/resilience.ts:103-120 | while closed, the failure counter is the number of failures since the last success or since it closed |
| `BreakerSpec.NothingBeginsDuringCooldown` | apps/api/src/resilience.ts:85-92 | no call begins from an opening until the cooldown has passed |
| `BreakerSpec.OpeningsAreApart` | apps/api/src/resilience.ts:65-78 | successive openings are at least the cooldown apart, late completions or not |
| `BreakerSpec.SuccessesCountTrials` | apps/api/src/resilience.ts:103-110 | while half-open, the success counter is the number of completions since the circuit became so; all of them succeeded, and they are fewer than it takes to close |
| `BreakerSpec.HalfOpenDecides` | apps/api/src/resilience.ts:103-117 | a half-open circuit opens exactly on a failure, and closes exactly on the completion with which the last max(1, successThreshold) completions since it became half-open all succeeded |
| `BreakerSpec.OpenAdmitsAfterCooldown` | apps/api/src/resilience.ts:85-92 | a circuit open since an opening lets a call through exactly when the cooldown has passed since then; the call makes it half-open, a refused one leaves it open |
| `BreakerSpec.LetThroughIsNotOpen` | apps/api/src/resilience.ts:85-92 | a call is let through exactly when it leaves the circuit not open; one that finds it closed or half-open is let through and leaves it so |
| `BreakerSpec.FailedTrialShutsAgain` | apps/api/src/resilience.ts:112-117 | when a call let through an open circuit is followed by a failed completion, no call begins for the cooldown after that failure |
| `BreakerSpec.TrialsCloseIt` | apps/api/src/resilience.ts:103-110 | when it is followed by max(1, successThreshold) completions, all successes, the circuit is closed |
| `BreakerSpec.RetryAfterIsEnough` | apps/api/src/resilience.ts:80-83 | waiting the seconds a refused caller is told is enough, and a second less is not, beyond the minimum of one |
| `BreakerClass.CircuitBreaker.Transition` | apps/api/src/resilience.ts:65-78 | resets the counters the new state resets, and nothing when already there |
| `BreakerClass.CircuitBreaker.Enter` | apps/api/src/resilience.ts:85-92 | lets a call through or refuses it, turning half-open after the cooldown |
| `BreakerClass.CircuitBreaker.OnSuccess` | apps/api/src/resilience.ts:103-110 | the specified success |
| `BreakerClass.CircuitBreaker.OnFailure` | apps/api/src/resilience.ts:112-120 | the specified failure |
| `RateLimitSpec.SlidingBound` | apps/api/src/rateLimit.ts:27-41 | any half-open interval as long as the window holds at most 2 * max - 1 allowed checks of one key |
| `RateLimitSpec.SlidingBoundIsReached` | apps/api/src/rateLimit.ts:27-41 | for every max and every window of at least 2 ms a run reaches that bound |
| `RateLimitSpec.VerdictForetells` | apps/api/src/rateLimit.ts:27-41 | a verdict's remaining is exactly how many more checks its window allows, and its resetMs exactly how long that window still is |
| `RateLimitSpec.NextWindowOpens` | apps/api/src/rateLimit.ts:29-32 | the next check once that window is over opens a new one with max checks in it |
| `RateLimitSpec.FirstCheckOpens` | apps/api/src/rateLimit.ts:29-32 | so does a caller's first check |
| `RateLimitSpec.SweepsChangeNothing` | apps/api/src/rateLimit.ts:43-48 | every check is answered as if no sweep had ever run |
| `RateLimiter.FixedWindowRateLimiter.Check` | apps/api/src/rateLimit.ts:27-41 | counts in the key's window, opening a new one when it is over; other keys are untouched |
| `RateLimiter.FixedWindowRateLimiter.Sweep` | apps/api/src/rateLimit.ts:44-48 | drops exactly the expired buckets |

## Left out

- Postgres and Redis stores, SQL, HTTP transport, SHA-256, base64url and UTF-8 conversion: foreign calls; cursor keys with unpaired surrogates are not covered.
- Workflow bodies that catch a failed step or issue commands concurrently: a caught failure leaves a position without an event.
- Concurrent engine calls on one workflow and concurrent drivers of one saga: each is assumed to run one at a time.
- Backoff delays between attempts: they affect timing only.
- What `do` and `undo` can read from their context (input, earlier outputs): they may return anything, so nothing depends on it; input itself is not kept in the saga record.
- A scope that changes between calls of one saga: it would change the ledger keys, so one scope per saga is assumed.
- SagaRunner.SagaCoordinator.Run: requires the saga's records to be contiguous; `SagaGuarantees.StoresAgree` shows they always are.
- Stores and ledgers that throw: `markSucceeded` sits inside the retry block, so a throwing ledger could repeat an action.
- RunSpec.Run: a sequential call never loses its own insert; the losing branch is in `Claim`.
- BudgetTheorems.BudgetNeverExceeded: is about all-time deny budgets without a tool filter, and a cost fixed per key; windowed ones, tool filters included, are in `WindowTheorems`, with a cost fixed per key too.
- ApiStore.MemStore.PageByStatus: one order by code unit stands for both the `localeCompare` of the sort and the `>` of the cursor's filter, which may disagree on keys outside the characters both order alike.
- ApiStore.MemStore.PageRecent: the same.
- The store's `listRecent`, `listByStatus`, stats and audit log: easy relatives of what is here.
- Plan names inherited from the prototype of the plan table, NUL in org ids, and period rollover.
- CanonicalJson: JSON values only, without undefined, NaN, dates or other class instances; numbers are taken as their shortest decimal text, and -0 as 0.
- The breaker's `guard` proxy and state-change callback, caller identification, and event publication: plumbing.
- The hosted client apart from its cursor loop, sample data, alert rules, dead letters, dashboard, command line, adapters and the Python client.
