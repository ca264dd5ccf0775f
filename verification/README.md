# QuotaMiser: verified models of the reservation ledger and its protocols

QuotaMiser is a proxy that must never let requests exceed a daily grant of free
tokens. This project models, in Dafny, the parts that promise depends on, and
proves what they promise for every input, every run and every interleaving.

- **The ledger.** A value of type `Tables` is what one SQLite transaction can see:
  reservation rows (one per group and epoch), stored per-pool counters, safety
  inputs, latches and the meta row. `Transactions` gives each transaction as a
  function from tables to new tables or an error that commits nothing; class
  `Ledger` runs them, loops and all, over its fields and is proved against those
  functions. `LedgerInvariant`, `GroupTransitions`, `AdmissionRule`, `DailyRollover`
  and `Recovery` prove what each transaction keeps; `Runs` lifts that to any
  sequence of calls, crashes and restarts. `GroupCalls` says, column by column and
  by literal states, what each call on a group needs, writes, charges and answers,
  and `ResponseIds` follows a response id from the call that attached it.
- **The two-record crash protocol.** `WriteAhead` and `Rollback` follow the durable
  pair of ledger and external high-water mark, with a crash possible between the two
  writes, and a ledger file restored from an older snapshot.
- **The request-list model.** `RequestModel` is the simple model: a list of requests
  with the epochs each spans, and its own grants, adopted amounts, budgets, latches
  and record position, with a step for every command, lost commits and restarts
  included. `GhostModel` says what list the rows stand for; `Capacity` says exactly
  which calls succeed; `ModelRefines` proves that the ledger takes the model's step
  on every command, and `ModelPredictions` reads off that over every run the model
  predicts every counter, admission, refusal and outcome. `Accounts` ties the stored
  figures to the history of the run.
- **Supervisors, retrieval, rollover and crashes.** `Supervision` is a state machine
  with one step per ledger call or outside event, in any order; `Resolution`,
  `Interleaving` and `ExactlyOnce` prove exactly-once resolution; `SupervisorActs`
  says what each answer, completion and end of a stream comes to, and `Sweep` that
  whatever a sweep lists can be closed. `Walkthrough` plays one request's life, so
  the theorems are known to be about states that are reached.
- **Server-Sent Events.** `Sse` is the incremental splitter on bytes; `SsePackets`,
  `SseReference` and `SseStream` prove that cutting a stream into packets never
  matters, against a line-by-line parser written from sections 9.2.5 and 9.2.6 of
  WHATWG HTML, and `SseEmptyPackets` exactly when an empty packet shows.
  `SseRendering`, `SseWritten` and `SseCapped` say what an event is without a
  parser: lines written with any line ends and cut into any packets come out as what
  was written, up to the cap. `Observer` is the response observer on top;
  `ObserverContents` and `ObserverStream` say what it reports by the JSON members
  (`JsonMembers`) of the events.
- **The request allowlist.** `Schema` embeds the shapes and checks as data and
  interprets them; `RequestTables` holds the tables; `Request` proves that
  normalisation is a fixed point; `RequestRefusals` and `RequestParts` say what is
  accepted, what never gets through and how it is refused, apart from the tables;
  `CountBodies` and `CountedTools` cover the count bodies, and `RequestLiability`
  joins the forwarded body to the liability reserved.
- **Supporting cores.** `RequestSlots` (sliding window), `Fnv` and `HwmRecord` (the
  checked record), `Epoch` (the daily window), `FailureBreaker`, and `Liability`
  (the byte bound).

Facts about a run that no table holds (which dispatches committed, which epochs
were opened, what was spent and adopted, what was sent) are kept in `History` and
`System`, which no operation reads.

## What the proofs found

- Rollover never compares what it carries with the new grant. The money bound
  survives a rollover exactly when each pool's new grant covers the liability
  carried into it (`DailyRollover.RolloverBound`); grants that do not shrink are
  enough, and `Walkthrough.ShrunkenGrantOnARun` is a run from a new ledger on which
  a smaller one breaks it.
- A window is computed before the provider is asked to count the input and the
  reservation is made after, without another look at the clock. An admission is
  surely for the true UTC day exactly when the two are less apart than the window's
  slack, the time from the last possible present to the end of the epoch
  (`Epoch.SlackExactly`); `Epoch.LateCommit` is a run, with exact readings, in which a
  reservation is made at midnight against yesterday's epoch. Given starts as in the
  next point, nothing is ever admitted against a day that has not begun
  (`Epoch.EpochSafety`).
- Startup rolls over straight from a reading, without the opening delay. The day it
  opens has surely begun exactly when the reading is at least its uncertainty into
  that day (`Epoch.StartupExactly`); one second ahead at midnight opens tomorrow
  (`Epoch.StartupCanBeEarly`).
- Calling adoption on a ledger that is already trusted can widen the gap between
  the two records beyond one. The gap stays at most one all along a run exactly when
  no adoption of a trusted ledger that is already behind stops half way, after its
  external write (`WriteAhead.TrustedGapExactly`); `WriteAhead.GapOfTwo` is a run
  where three adoptions leave it at two. Startup only adopts when trust is missing,
  and then the gap is always at most one.
- Of the verdicts that refuse admission, an unclean shutdown alone needs no
  adoption: closing such a ledger cleanly and opening it again makes it trusted
  (`Rollback.UncleanClearsItself`). The others stay until consumption is adopted.
- A full window's hint can be one second short, because an entry still counts
  when it is exactly the window's length old. It is exact only when the oldest
  entry already is (`RequestSlots.HintAtMostOneShort`, `RequestSlots.AShortHint`).
- An empty packet makes the splitter forget that it should swallow an LF. Events
  never change. The state the next bytes lead to changes exactly when that LF comes
  next and what follows the leading line breaks neither ends an event nor outgrows
  the cap (`SseEmptyPackets.EmptyPacketExactly`): the stray LF is forgotten with the
  next event (`SseEmptyPackets.RecoversAtNextEvent`).
- The standard strips a byte order mark at the start of a stream and replaces
  malformed UTF-8; the splitter does neither, and fails for good on the latter.
  The line parser here follows the splitter in both.

## Model

| member | source | states |
|---|---|---|
| `Trust.VerdictExactly` | crates/ledger/src/trust.rs:52-108 | a ledger is trusted, a dispatch promoted, or rows interpretable exactly under these conditions on the two records, the named row and the shutdown mark |
| `Trust.ReasonExactly` | crates/ledger/src/trust.rs:52-108 | each of the seven reasons for distrust is given exactly when its own condition on the two records holds |
| `LedgerInvariant.ValidIsConsistent` | crates/ledger/src/ledger.rs:381-409 | the invariant every transaction keeps implies the startup integrity check |
| `LedgerInvariant.GroupLoads` | crates/ledger/src/ledger.rs:535-559 | loading a group fails only for an unknown id, never for disagreement, and yields exactly the rows a guarded UPDATE will change |
| `LedgerInvariant.ReleaseKeepsCounters` | crates/ledger/src/transitions.rs:272-298 | releasing counters row by row and updating the rows at once keeps every counter equal to its rows; fails only by overflow, never when nothing is charged |
| `LedgerInvariant.UpdateKeepsRows` | crates/ledger/src/schema.rs:42-50 | every lawful state change keeps the row CHECK constraints, the group agreement and the carry of active groups |
| `GroupTransitions.EligibleExactly` | crates/ledger/src/transitions.rs:258-268 | a transition is allowed exactly when the group exists in a state that admits it; otherwise the error names group, state and target |
| `GroupTransitions.WriteOffSound` | crates/ledger/src/transitions.rs:171-189 | writing off, when the group is in a state that admits it (`GroupCalls.GiveUpExactly` says which), moves the whole group and nothing else, keeps books and money bound, and fails only by overflow or the caller's fault |
| `GroupTransitions.ReleaseSound` | crates/ledger/src/transitions.rs:193-226 | both releases, likewise, and they cannot overflow |
| `GroupTransitions.RelabelSound` | crates/ledger/src/transitions.rs:228-256 | attaching an id and marking it unknown move one group by one patch (`GroupCalls.AttachExactly` says which columns) and change no counter |
| `GroupTransitions.SettleSound` | crates/ledger/src/transitions.rs:105-167 | settling applies one patch to one group and its latch, or fails by overflow or the caller's fault |
| `GroupTransitions.SettlementMeans` | crates/ledger/src/transitions.rs:105-167 | invalid usage is written off in full and latches the pool, naming the first defect in the order of the checks; valid usage is charged as reported and latches the model exactly on overrun |
| `GroupTransitions.MarkExactly` | crates/ledger/src/transitions.rs:56-71 | the mark a dispatch writes is one generation on, with the group's liability added |
| `GroupTransitions.DispatchSound` | crates/ledger/src/transitions.rs:73-91 | once its mark is durable a dispatch always commits, and only relabels its group |
| `GroupCalls.AttachExactly` | crates/ledger/src/transitions.rs:93-95 | attaching succeeds exactly from DISPATCHING; every row of the group then holds the id that was given, and no other column or row changes |
| `GroupCalls.LoseIdExactly` | crates/ledger/src/transitions.rs:97-99 | marking the id unknown succeeds exactly from DISPATCHING and leaves no id |
| `GroupCalls.GiveUpExactly` | crates/ledger/src/transitions.rs:171-189 | writing off succeeds exactly from the three states that may have been sent, an unknown id included, unless a counter is full; each row is charged its liability |
| `GroupCalls.ReleaseUnsentExactly` | crates/ledger/src/transitions.rs:193-202 | releasing as unsent succeeds exactly from RESERVED, gives each counter its liability back and charges nothing |
| `GroupCalls.RejectExactly` | crates/ledger/src/transitions.rs:209-226 | releasing as refused succeeds exactly from DISPATCHING, likewise |
| `GroupCalls.SettleExactly` | crates/ledger/src/transitions.rs:105-167 | settling succeeds exactly from DISPATCHING or with a known id, never with an unknown one, unless a counter is full; each row is charged input plus output, or its liability when the report cannot be used |
| `GroupCalls.BeginExactly` | crates/ledger/src/transitions.rs:56-91 | a dispatch begins exactly from RESERVED while the record has room, and writes that mark and that state |
| `ResponseIds.ResponseIdIsTheOneGiven` | crates/ledger/src/transitions.rs:228-256 | over every run each row, carried ones included, holds the id its group was given by the one attach that succeeded, and none before; once given it never changes |
| `AdmissionRule.SortDedupSorts` | crates/ledger/src/ledger.rs:244-246 | sorting and deduplicating the required inputs keeps the same keys, each once, in the order of strings |
| `AdmissionRule.DebitsOnce` | crates/ledger/src/ledger.rs:300-305 | each required budget is debited by the liability once, others not at all |
| `AdmissionRule.ReserveSound` | crates/ledger/src/ledger.rs:239-330 | a request is admitted if and only if no latch applies, every required input vouches for it and quota is left; a refusal changes nothing and only overflow can fail |
| `AdmissionRule.RefusalsAreTruthful` | crates/ledger/src/ledger.rs:239-330 | a refusal names a latch that applies, an input that is missing, expired or short, a pool not open, or the quota really left |
| `DailyRollover.RolloverSound` | crates/ledger/src/rollover.rs:32-106 | rollover leaves old rows and counters alone, gives each active group exactly one new row, and starts each pool with exactly the liability it carries; it fails only by overflow or a missing grant |
| `DailyRollover.RolloverBound` | crates/ledger/src/rollover.rs:44-98 | the money bound survives a rollover if and only if each new grant covers what is carried into it |
| `DailyRollover.HoldingGrantsCover` | crates/ledger/src/rollover.rs:44-98 | grants that do not shrink always cover it |
| `DailyRollover.ShrunkenGrantBreaksBound` | crates/ledger/src/rollover.rs:44-98 | a concrete ledger and smaller grant for which rollover breaks the bound |
| `Capacity.RollSucceedsExactly` | crates/ledger/src/rollover.rs:44-98 | a rollover succeeds exactly when its grants are in range and cover every pool with an active request; what it carries cannot overflow |
| `Recovery.RaiseAllSucceeds` | crates/ledger/src/rollover.rs:138-152 | adoptions are committed exactly when each fits a counter of an open pool |
| `Recovery.AdoptionSound` | crates/ledger/src/rollover.rs:116-154 | adoption raises consumption to exactly the highest value adopted and touches nothing else |
| `Recovery.AnchorExactly` | crates/ledger/src/rollover.rs:116-134 | the anchor is one generation past both records, its total the larger of theirs, and it names no group |
| `Recovery.NormalizeSound` | crates/ledger/src/ledger.rs:432-486 | normalisation never fails, keeps books and bound, and leaves each row in its restarted state |
| `Recovery.PromotionNamed` | crates/ledger/src/trust.rs:52-108 | a promoted group is the one the record names, RESERVED, and one generation and its liability behind |
| `LedgerObject.Ledger.Start` | crates/ledger/src/ledger.rs:139-172 | opening assesses, normalises and sets the verdict; on valid tables it always succeeds |
| `LedgerObject.Ledger.CheckIntegrity` | crates/ledger/src/ledger.rs:381-409 | passes exactly when groups agree and every reserved counter matches its rows |
| `LedgerObject.Ledger.NormalizeAfterRestart` | crates/ledger/src/ledger.rs:432-486 | the statements of normalisation compute its specification |
| `LedgerObject.Ledger.MarkCleanShutdown` | crates/ledger/src/ledger.rs:229-234 | a valid ledger is always marked clean, and nothing else changes |
| `LedgerObject.Ledger.Reserve` | crates/ledger/src/ledger.rs:239-330 | the checks and debits, in order, compute the admission function; distrust refuses everything |
| `LedgerObject.Ledger.DebitEach` | crates/ledger/src/ledger.rs:300-305 | the debit loop computes its specification |
| `LedgerObject.Ledger.RevalidateSafetyInput` | crates/ledger/src/ledger.rs:334-352 | the input then vouches, for its time to live, for what its whole budget covers; every other input and table is as it was; an error changes nothing |
| `LedgerObject.Ledger.InvalidateSafetyInput` | crates/ledger/src/ledger.rs:354-359 | the input is gone, every other input and table is as it was, and nothing that needs it is admitted |
| `LedgerObject.Ledger.SetLatch` | crates/ledger/src/ledger.rs:361-370 | one standing latch is added after the others, no other table changes, and nothing its scope covers is admitted |
| `LedgerObject.Ledger.ClearScope` | crates/ledger/src/ledger.rs:372-378 | every latch of the scope is cleared and none forgotten, the others stand or not as before, no other table changes, and nothing admissible becomes inadmissible |
| `LedgerObject.Ledger.BeginDispatch` | crates/ledger/src/transitions.rs:56-91 | the external mark is written first, and the group goes from RESERVED to DISPATCHING; a failure at any point leaves the tables unchanged |
| `LedgerObject.Ledger.RelabelWith` | crates/ledger/src/transitions.rs:228-256 | succeeds exactly from DISPATCHING, writes the state and the given id in every row of the group and nothing else, or changes nothing |
| `LedgerObject.Ledger.AttachResponseId` | crates/ledger/src/transitions.rs:93-95 | succeeds exactly from DISPATCHING, after which every row of the group holds the id that was given; otherwise the error names group, state and target, and nothing changes |
| `LedgerObject.Ledger.MarkIdUnknown` | crates/ledger/src/transitions.rs:97-99 | the same, after which no row of the group holds an id |
| `LedgerObject.Ledger.ReleaseEach` | crates/ledger/src/transitions.rs:272-298 | the counter loop of a finishing group computes its specification |
| `LedgerObject.Ledger.FinishIn` | crates/ledger/src/transitions.rs:272-298 | the counter loop and the guarded update together |
| `LedgerObject.Ledger.Settle` | crates/ledger/src/transitions.rs:105-167 | commits exactly from DISPATCHING or with a known id: input plus output, or the liability for a report that cannot be used, charged to every row, and the latch; otherwise changes nothing |
| `LedgerObject.Ledger.WriteOff` | crates/ledger/src/transitions.rs:171-189 | commits exactly from DISPATCHING and the two sent states, unless a counter is full, charging every row its liability; otherwise names the fault and changes nothing |
| `LedgerObject.Ledger.Release` | crates/ledger/src/transitions.rs:193-226 | commits exactly from RESERVED, or from DISPATCHING for a refusal, charging nothing; otherwise names the fault and changes nothing |
| `LedgerObject.Ledger.OpenEach` | crates/ledger/src/rollover.rs:44-51 | the loop that opens pool rows computes its specification |
| `LedgerObject.Ledger.CarryEach` | crates/ledger/src/rollover.rs:64-98 | the loop that inserts shadow rows computes its specification |
| `LedgerObject.Ledger.Rollover` | crates/ledger/src/rollover.rs:32-106 | commits the rollover, does nothing for an epoch not after the current one, or changes nothing on an error |
| `LedgerObject.Ledger.RaiseEach` | crates/ledger/src/rollover.rs:136-146 | the loop that raises consumption computes its specification |
| `LedgerObject.Ledger.AdoptRecoveredConsumption` | crates/ledger/src/rollover.rs:116-154 | re-anchors externally first; on an error tables and verdict are unchanged |
| `Runs.StepKeeps` | crates/ledger/src/ledger.rs:239-634 | every call, crash and restart keeps a valid ledger valid, and a bounded one bounded if rollovers are covered |
| `Runs.ExposureNeverExceedsGrant` | crates/ledger/src/ledger.rs:239-330 | over every run with covered rollovers, liability-capped charges of every pool and epoch fit its grant |
| `Runs.HoldingGrantsKeepExposure` | crates/ledger/src/rollover.rs:44-98 | the same when grants never shrink |
| `Runs.BooksNeverFail` | crates/ledger/src/ledger.rs:535-634 | over every run the integrity check passes, rows keep their shape, opening never fails, and internal integrity errors are unreachable |
| `WriteAhead.ExternalNeverTrails` | crates/ledger/src/transitions.rs:56-91 | over every run the external record is at or ahead of the ledger, failed attempts included; without trust no row is RESERVED and neither admission nor dispatch does anything |
| `WriteAhead.TrustedGapExactly` | crates/ledger/src/rollover.rs:116-154 | the generation gap a trusted process can see is at most one all along a run if and only if no adoption of a trusted ledger that is already behind ends half way |
| `WriteAhead.TrustedGapAtMostOne` | crates/proxy/src/runtime.rs:117-122 | in particular always, when adoption is used only without trust, as startup does |
| `WriteAhead.FailedAdoptionGap` | crates/ledger/src/rollover.rs:116-154 | one adoption leaves the gap too wide if and only if the ledger is trusted and already behind, the record is written, and the commit is lost or an adoption cannot be made |
| `WriteAhead.GapOfTwo` | crates/ledger/src/rollover.rs:116-154 | a run from a new ledger that ends trusted and two generations behind |
| `Rollback.RollbackSafety` | crates/ledger/src/ledger.rs:432-486 | after restoring any earlier snapshot, an interpretable verdict loses no dispatched group and releases no group that was dispatched |
| `Rollback.RestoredAdmitsNothing` | crates/ledger/src/trust.rs:52-108 | under any other verdict nothing is admitted or dispatched before adoption, through any calls and clean restarts |
| `Rollback.StuckExactly` | crates/ledger/src/trust.rs:52-108 | what keeps such a ledger distrusted is exactly its disagreement with the external record |
| `Rollback.UncleanClearsItself` | crates/ledger/src/trust.rs:52-108 | an unclean shutdown is cleared by a clean one |
| `GhostModel.TotalsAgree` | crates/ledger/src/model_tests.rs:351-391 | sums over rows and sums over the request list agree, for what is held, charged and exposed |
| `ModelRefines.StepRefines` | crates/ledger/src/model_tests.rs:480-679 | on every command the ledger goes where the model goes and succeeds exactly when the model accepts the call, lost commits included |
| `ModelRefines.LedgerRefinesModel` | crates/ledger/src/model_tests.rs:472-679 | after any run from a new ledger, crashes and restarts included, the ledger stands for exactly the state the model has reached by itself |
| `ModelPredictions.CountersAsPredicted` | crates/ledger/src/model_tests.rs:371-391 | over every run the open pools and their grants are the model's, reserved is what its active requests hold and consumed what its requests charge and it adopted |
| `ModelPredictions.AdmissionAsPredicted` | crates/ledger/src/model_tests.rs:395-405 | over every run each request gets the answer the model expects: admitted under its next id, refused for that kind of reason, or an overflow error |
| `ModelRefines.AdmittedView` | crates/ledger/src/model_tests.rs:484-502 | admission adds one request spanning the current epoch, debits budgets, and changes nothing else |
| `ModelPredictions.OutcomesAsPredicted` | crates/ledger/src/model_tests.rs:504-679 | over every run every call, dispatch and adoption with lost commits included, succeeds exactly when the model accepts it and leaves what the model leaves |
| `ModelPredictions.AnswersAsPredicted` | crates/ledger/src/model_tests.rs:538-676 | and returns what the model expects: how many requests a rollover carried, how a settlement came out, how a start assessed the ledger |
| `ModelPredictions.RequestsWithinGrant` | crates/ledger/src/model_tests.rs:441-469 | over every run with sufficient grants, what the requests of a pool and epoch hold and were charged fits the grant, but for reported overruns |
| `Capacity.GroupSucceedsExactly` | crates/ledger/src/transitions.rs:93-298 | a group call succeeds exactly when the group exists, its state admits it and every counter it charges has room |
| `Capacity.MarkSucceedsExactly` | crates/ledger/src/transitions.rs:56-71 | a dispatch gets its mark exactly when its group is reserved and the record has room |
| `ModelRefines.RolledRequests` | crates/ledger/src/model_tests.rs:611-626 | rollover gives each active request the new epoch and copies them in the model's order |
| `ModelRefines.OpenRefines` | crates/ledger/src/model_tests.rs:406-417 | a restart settles every request as the model's normalisation does, and is assessed as the model assesses it |
| `Accounts.FiguresFollowHistory` | crates/ledger/src/ledger.rs:239-379 | over every run, reserved is the active liabilities, consumed the charges plus what was adopted, and each budget its initial value less what was reserved since it was verified |
| `Accounts.CarryStructure` | crates/ledger/src/rollover.rs:32-106 | in every reachable ledger a group's rows agree, no two share an epoch, and an active group has a row in exactly the opened epochs from its own on |
| `RowEffects.EveryEffect` | crates/ledger/src/transitions.rs:56-298 | every command's exact effect on every row, and what rows it may add |
| `RowEffects.GroupSucceeds` | crates/ledger/src/transitions.rs:93-298 | a group call succeeds exactly when the state admits it, but for overflow when charging |
| `RowEffects.FinalIsFrozen` | crates/ledger/src/state.rs:95-114 | no command changes a resolved group's rows or adds to them |
| `RowEffects.RequestIsKept` | crates/ledger/src/transitions.rs:56-298 | no command changes what a row says of its request: pool, liability, digest, model, tier, revision, creation time; copies agree |
| `SupervisorActs.AnswerDecides` | crates/proxy/src/dispatch.rs:239-308 | in every run a 2xx answer is relayed; 400 to 404, 422 and 429 end in a release as refused; every other status ends held with an unknown id |
| `SupervisorActs.CompletionCharges` | crates/proxy/src/dispatch.rs:365-383 | in every run a reported completion is settled under the supervisor's own accounting revision and charged accordingly |
| `SupervisorActs.StopDecides` | crates/proxy/src/dispatch.rs:338-418 | in every run, a stream that stops unsettled is written off if synchronous, and otherwise left to retrieval when its id is known and held as unknown when not |
| `SupervisorActs.HangUp` | crates/proxy/src/dispatch.rs:335-398 | a client hanging up changes no row, and from then on an unsettled relay may be abandoned |
| `SupervisorActs.GrantSupervises` | crates/proxy/src/dispatch.rs:152-188 | each granted request gets a supervisor with its own mode and revision, and nothing else does |
| `Interleaving.SystemStep` | crates/proxy/src/dispatch.rs:190-426 | every step of every actor keeps the invariant relating phases, rows, evidence and what was sent |
| `ExactlyOnce.SentIsHeldOrChargedOnce` | crates/proxy/src/dispatch.rs:190-418 | under every interleaving a sent request holds its full liability in every epoch it spans until one piece of evidence, and is then charged exactly that, once per epoch |
| `ExactlyOnce.NeverAgain` | crates/proxy/src/retrieval.rs:106-182 | a closed group's rows never change again and it gains none |
| `ExactlyOnce.ReleasedUnsentWasNeverSent` | crates/proxy/src/dispatch.rs:209-233 | a request released as unsent was never handed to upstream and never will be |
| `ExactlyOnce.ClosedOnEvidence` | crates/proxy/src/status_policy.rs:55-81 | a group is charged, or released as refused on one of the listed statuses, only with evidence |
| `ExactlyOnce.SupervisorCallsSucceed` | crates/proxy/src/dispatch.rs:190-426 | short of the storage failing, a supervisor's releases and holds never fail; its other calls fail only by disk, overflow, a second id, or because retrieval got there first |
| `ExactlyOnce.EndedLeavesNothingBehind` | crates/proxy/src/dispatch.rs:190-426 | a supervisor that ended without a ledger failure leaves its group closed or listed among the open dispatches for the next sweep |
| `ExactlyOnce.RestartLeavesNothingBehind` | crates/ledger/src/ledger.rs:432-486 | whatever a failing call left half done, after the next start every group is closed or listed |
| `Sweep.ListsExactly` | crates/ledger/src/ledger.rs:196-219 | in every run a sweep lists exactly the groups sent and not resolved, each with its state and response id |
| `Sweep.ListAscends` | crates/ledger/src/ledger.rs:196-219 | each once, by its number |
| `Sweep.ListedCanBeClosed` | crates/proxy/src/retrieval.rs:106-180 | in every run each listed dispatch can be written off, its id known or not, unless a counter is full; with a known id it can be settled likewise, with an unknown one never |
| `Sweep.SweepCallsSucceed` | crates/proxy/src/retrieval.rs:82-104 | in every run a sweep's calls fail only on a full counter or for a group resolved since it was listed |
| `Sweep.SweepHandles` | crates/proxy/src/retrieval.rs:82-180 | what a sweep handles leaves its list with the evidence it was closed on; a call that does nothing ends the sweep |
| `Sweep.RetrievalAsksForTheIdSeen` | crates/proxy/src/retrieval.rs:106-127 | in every run retrieval asks upstream for the response id that the request's own supervisor read |
| `ExactlyOnce.SentSurvivesRestore` | crates/ledger/src/ledger.rs:432-486 | the same rollback safety for whole-system runs: every request ever handed to upstream survives a restore |
| `Walkthrough.ALife` | crates/proxy/src/dispatch.rs:190-418 | a concrete run in which a request is granted, sent, held in full, settled and charged what was reported |
| `Walkthrough.ARestore` | crates/ledger/src/trust.rs:52-108 | the ledger put back to before that dispatch promotes it on opening |
| `Walkthrough.ShrunkenGrantOnARun` | crates/ledger/src/rollover.rs:44-98 | a run from a new ledger to a bounded one that a smaller grant takes past the bound |
| `Utf8.AsciiSeparates` | crates/protocol/src/sse.rs:69-80 | text around an ASCII byte is valid exactly when both sides are |
| `Utf8.ValidIsEncoded` | crates/protocol/src/sse.rs:69-80 | text passes as UTF-8 exactly when it is the encoding of Unicode scalar values, computed from their bits |
| `Sse.FindEventEnd` | crates/protocol/src/sse.rs:109-143 | the scanning loop finds the first blank line, as specified |
| `SseRendering.RenderedIsParsed` | crates/protocol/src/sse.rs:146-167 | parsing written lines gives the event they make: the last `event` value as name, the `data` values joined by LF, one space after the colon left out, and nothing without data; comments, empty lines and other fields change nothing |
| `SseRendering.EveryBlockIsWritten` | crates/protocol/src/sse.rs:146-167 | and every block of bytes is such a rendering, so that this says what each event is |
| `Sse.Parse` | crates/protocol/src/sse.rs:146-167 | the field loop reads the block's lines, as specified; what that makes of them is `SseRendering.RenderedIsParsed` |
| `Sse.EventSplitter.Feed` | crates/protocol/src/sse.rs:54-85 | one push drains the complete events and leaves the specified state; what the events are is `SseCapped.WrittenStreamArrives` |
| `Sse.EventSplitter.TakeEvents` | crates/protocol/src/sse.rs:68-80 | the draining loop, with its permanent failure on malformed text |
| `Sse.EventSplitter.TakeEvent` | crates/protocol/src/sse.rs:68-80 | takes one event off the buffer, or fails when it is not UTF-8 |
| `Sse.EventSplitter.Fail` | crates/protocol/src/sse.rs:97-101 | a failure is recorded and the buffer released |
| `SsePackets.ScanExtends` | crates/protocol/src/sse.rs:109-143 | more bytes never move an event's end, but for the LF of a split CRLF |
| `SsePackets.PacketsDoNotMatter` | crates/protocol/src/sse.rs:54-85 | for packets that are not empty, events, residual buffer, swallow flag and failure are those of one push of the whole |
| `SseStream.StreamIndependence` | crates/protocol/src/sse.rs:54-167 | for any packets, events are a prefix of those of a line-by-line parse of the whole stream, and all of them unless the cap trips; what a line says is fixed by `SseRendering.RenderedIsParsed` |
| `SseCapped.WrittenStreamArrives` | crates/protocol/src/sse.rs:54-167 | round trip: events of at most 1 MiB each, written line by line with any line ends and in any packets, all come out of the splitter as what was written, in order, and it never fails |
| `SseCapped.LongLineFails` | crates/protocol/src/sse.rs:81-101 | and a longer line fails it for good, in any packets |
| `SseStream.EmptyPacketUnswallows` | crates/protocol/src/sse.rs:54-66 | an example in which an empty packet changes whether an event is in progress |
| `SseEmptyPackets.EmptyPacketExactly` | crates/protocol/src/sse.rs:54-85 | for any splitter between packets and any bytes after it, an empty packet changes no event, and changes the state if and only if an LF to be swallowed comes next and the text after the leading breaks lingers |
| `SseEmptyPackets.AlwaysRests` | crates/protocol/src/sse.rs:54-85 | between packets a splitter buffers no complete event, no more than the cap, and swallows only at the start of an event |
| `SseEmptyPackets.EmptyPacketsDoNotMatter` | crates/protocol/src/sse.rs:54-85 | with any packets, empty ones included where they do not show, events and state are those of one push of the whole |
| `SseEmptyPackets.RecoversAtNextEvent` | crates/protocol/src/sse.rs:54-85 | an example in which the LF comes next and the state is still the same |
| `Observer.StreamObserver.Feed` | crates/protocol/src/responses.rs:112-127 | one push computes what its events reveal, as specified; what that is, by JSON members, is `ObserverStream.ReportsExactly` |
| `Observer.StreamObserver.TakeIn` | crates/protocol/src/responses.rs:117-122 | the loop over a packet's events, stopping at the first failure |
| `Observer.ObserverSound` | crates/protocol/src/responses.rs:105-199 | at most one id and one terminal, in that order and agreeing; nothing after a failure; always the start of what the whole stream shows, and all of it unless the cap trips; their contents are `ObserverStream.ReportsExactly` |
| `ObserverContents.SummaryIs` | crates/protocol/src/responses.rs:37-63 | a response object is read as exactly the id, status, model, tier and, when both counts are 64-bit integers, the usage at its members |
| `ObserverStream.ReportsExactly` | crates/protocol/src/responses.rs:105-199 | over any packets, an id, a terminal or an error is reported exactly when an event says so, in time, by its JSON members |
| `ObserverStream.TerminalExactly` | crates/protocol/src/responses.rs:130-199 | the terminal is reported exactly for the summary announced with one of the four final statuses before any event that does not fit |
| `ObserverStream.FailsAs` | crates/protocol/src/responses.rs:130-199 | the first event that does not fit fails the observer, for the reason that holds |
| `Schema.ApplyShape` | crates/protocol/src/request.rs:577-604 | the loop over an object's fields computes the shape's specification |
| `Schema.RunConforms` | crates/protocol/src/request.rs:577-604 | whatever a check lets through conforms to it, and is the input with fields left out |
| `Schema.FixedPoints` | crates/protocol/src/request.rs:577-604 | a check passes exactly the conforming values unchanged, and is idempotent |
| `RequestTables.KeptSteady` | crates/protocol/src/request.rs:606-848 | every table is read by the same shape again after it has been applied |
| `RequestTables.ItemsLoseIdentity` | crates/protocol/src/request.rs:610-702 | no input item's shape keeps an id or a status |
| `Request.ParseFields` | crates/protocol/src/request.rs:139-261 | the field loop computes the parse; what it accepts is `RequestRefusals.AcceptedExactly`, and its cap `RequestLiability.CapIsForwarded` |
| `Request.UpstreamBodyIsFixedPoint` | crates/protocol/src/request.rs:309-319 | re-parsing the upstream body without `background`, or with it false, gives the same request, field order included |
| `Request.OnlyListedSurvives` | crates/protocol/src/request.rs:139-261 | nothing is rewritten, every surviving key is on the allowlist at every depth, and no input item keeps an id or a status |
| `RequestRefusals.FieldsExactly` | crates/protocol/src/request.rs:156-243 | every field of the request that has no parts is kept as it is, dropped, remembered or refused with its code, by these literal conditions |
| `JsonMembers.DistinctExactly` | crates/protocol/src/request.rs:522-533 | keys are distinct exactly when no object, at any depth, repeats one |
| `RequestRefusals.AcceptedExactly` | crates/protocol/src/request.rs:139-261 | a request is accepted if and only if it is an object with distinct keys all through, each field is accepted, it streams, and it has a model and an input |
| `RequestRefusals.RefusedAs` | crates/protocol/src/request.rs:139-261 | otherwise the code is that of the first check in order that fails: repeated keys, the first field refused, streaming, what is missing |
| `RequestParts.ImagesAreInline` | crates/protocol/src/request.rs:1174-1184 | no image in what goes upstream is a reference: it is data |
| `RequestParts.ItemsAreListed` | crates/protocol/src/request.rs:863-893 | every input item is of one of the seven types, or an untyped message |
| `RequestParts.ToolsAreTheClients` | crates/protocol/src/request.rs:966-1004 | every tool at the top level or in an item is a function or custom tool offered at once, or a namespace of such tools |
| `RequestParts.ItemsAreComplete` | crates/protocol/src/request.rs:863-893 | every input item has what its type needs, names not empty and roles from the list |
| `RequestParts.ShapeExactly` | crates/protocol/src/request.rs:577-604 | an object is refused for its first field that is not listed or is refused itself, or else for a required one that is missing, and never otherwise |
| `RequestParts.HostedToolsRefused` | crates/protocol/src/request.rs:974-1004 | a tool the upstream would run is refused as hosted, in a namespace too, and a namespace in a namespace as invalid |
| `RequestParts.OtherItemsRefused` | crates/protocol/src/request.rs:863-893 | items of other types are unsupported, and one with neither type nor role misses its type |
| `RequestParts.OtherPartsRefused` | crates/protocol/src/request.rs:925-944 | parts of other types are unsupported, fewer being allowed in tool outputs |
| `RequestParts.RemoteImagesRefused` | crates/protocol/src/request.rs:1174-1184 | an image that is not inline is refused as a remote reference |
| `RequestParts.TypesExactly` | crates/protocol/src/request.rs:863-944 | the types of items, tools and parts that are known |
| `RequestParts.WordsExactly` | crates/protocol/src/request.rs:1186-1240 | where one of a few words is asked for, exactly those pass |
| `RequestParts.ChoiceExactly` | crates/protocol/src/request.rs:1016-1034 | a choice of tool is one of three words, or a function or custom tool by name |
| `RequestLiability.ScalarsForwarded` | crates/protocol/src/request.rs:139-319 | scalar fields go upstream as sent or not at all |
| `RequestLiability.FixedFieldsSet` | crates/protocol/src/request.rs:309-319 | `background`, `store`, `stream` and `service_tier` are set whatever was sent |
| `RequestLiability.CapIsForwarded` | crates/protocol/src/request.rs:244-261 | the parsed cap is n exactly when `max_output_tokens` is the integer n in the client's request and in the upstream body, and none exactly when neither has it |
| `RequestLiability.FlatTextExactly` | crates/protocol/src/request.rs:271-299 | the byte estimate is made of exactly the plain bodies, from exactly the texts in them |
| `RequestLiability.ForwardedIsCovered` | crates/admission/src/liability.rs:90-214 | whatever the provider may report for the forwarded body, within the cap in that body, is within the liability estimated from the parsed request |
| `CountBodies.InputCountBodies` | crates/protocol/src/request.rs:412-445 | the loops compute the bodies |
| `CountBodies.EveryDeclarationCovered` | crates/protocol/src/request.rs:412-445 | one body for the request, then exactly one per declaring item, each the request with that item's tools at the top level in place of every declaring item, and field by field nothing else changed |
| `CountedTools.DeclaredIsCounted` | crates/protocol/src/request.rs:412-445 | the tools that an item of type `additional_tools` declares are the top-level tools of one of the further bodies |
| `CountedTools.TopToolsCounted` | crates/protocol/src/request.rs:412-445 | and those of the request itself are in the first |
| `CountedTools.OthersCounted` | crates/protocol/src/request.rs:422-445 | each further body has exactly the other items as its input |
| `RequestRefusals.CountedExactly` | crates/protocol/src/request.rs:412-445 | of the fields that are kept, all but six that cannot change the input are counted |
| `CountBodies.SplitDivides` | crates/protocol/src/request.rs:422-428 | declaring and other items together are the items, none lost or repeated |
| `CountBodies.SplitSorts` | crates/protocol/src/request.rs:422-428 | the one half declares tools and the other does not |
| `CountBodies.InputBound` | crates/proxy/src/admission.rs:144-157 | the checked sum is the sum, or none when it does not fit |
| `CountBodies.CountsBoundInput` | crates/proxy/src/admission.rs:144-167 | for any counter and any rendering such that redeclaring tools at the top level counts at least their rendering, the summed counts of the bodies bound an input that renders each declaring item's tools once more than counted |
| `RequestSlots.RequestCounter.TakeRequestSlot` | crates/ledger/src/requests.rs:43-117 | takes one slot or none, as specified; an overflow changes nothing |
| `RequestSlots.GrantedExactly` | crates/ledger/src/requests.rs:43-117 | a slot is granted exactly when the day has one left and the window has room, and otherwise the answer is the limit that was reached |
| `RequestSlots.SlidingWindow` | crates/ledger/src/requests.rs:43-117 | the pruned table counts as the full log would, no closed interval exceeds the window, and used counts the grants |
| `RequestSlots.NeverOverLimit` | crates/ledger/src/requests.rs:56-71 | no epoch's count passes its limit |
| `RequestSlots.HintAtMostOneShort` | crates/ledger/src/requests.rs:80-98 | the hint never overshoots, is at most one second short, and exact under exactly this condition |
| `RequestSlots.HintOnRuns` | crates/ledger/src/requests.rs:80-98 | the same on every reachable table |
| `RequestSlots.AShortHint` | crates/ledger/src/requests.rs:80-98 | an example of a hint one second short |
| `Fnv.StepIsInjective` | crates/ledger/src/hwm.rs:111-115 | one hash step tells apart any two states and any two bytes |
| `Fnv.OneByteChangesHash` | crates/ledger/src/hwm.rs:111-115 | changing one byte changes the hash |
| `Fnv.XorDiffers` | crates/ledger/src/hwm.rs:111-115 | the exclusive or has exactly the bits in which the two differ |
| `Fnv.HashGoesOn` | crates/ledger/src/hwm.rs:111-115 | the hash starts at the published offset basis and takes one byte after another |
| `Fnv.KnownAnswer` | crates/ledger/src/hwm.rs:111-115 | the step to the published hash of `a` |
| `HwmRecord.RoundTrip` | crates/ledger/src/hwm.rs:56-109 | a written record with a non-negative generation and total reads back |
| `HwmRecord.AsWritten` | crates/ledger/src/hwm.rs:56-64 | an example of the text of a record, byte by byte |
| `HwmRecord.LineReads` | crates/ledger/src/hwm.rs:79-109 | any text with a space is taken apart at the last one, newlines at its end aside, and refused by its checksum field, then its checksum, then its format |
| `HwmRecord.FieldsExactly` | crates/ledger/src/hwm.rs:91-109 | and a body of that format by its words: three numbers, the first two not negative, or the error that says which |
| `HwmRecord.CorruptionDetected` | crates/ledger/src/hwm.rs:79-93 | replacing any one byte of the body fails the checksum |
| `HwmRecord.ReadsSensibly` | crates/ledger/src/hwm.rs:79-109 | what is read is never negative where the ledger relies on it |
| `Epoch.NewPolicy` | crates/admission/src/epoch.rs:64-83 | exactly which policies are accepted |
| `Epoch.WindowExactly` | crates/admission/src/epoch.rs:117-149 | the window opens exactly when no possible time is past the epoch, and rolls over to exactly the latest epoch begun by the delay at every possible time |
| `Epoch.ClosedExactly` | crates/admission/src/epoch.rs:117-149 | each reason for a closed window is given exactly under its own condition on the clocks and the possible times |
| `Epoch.SlackExactly` | crates/proxy/src/admission.rs:106-182 | a reservation made some time after its window opened is within the epoch at every possible time if and only if that took less than the slack |
| `Epoch.StartupExactly` | crates/proxy/src/runtime.rs:112-114 | the day startup opens has begun at every possible time if and only if the reading is at least its uncertainty into it |
| `Epoch.EpochSafety` | crates/proxy/src/server.rs:82-96 | under any interleaving of requests, clock loops and starts, no day is opened or admitted against before it begins, rollovers wait out the delay, and an admission within its slack is for the true day |
| `Epoch.EpochSafetyFromTheStart` | crates/proxy/src/runtime.rs:112-114 | the same from a new ledger, over any number of starts |
| `Epoch.DaysRise` | crates/proxy/src/admission.rs:144-182 | through any interleaving, what is committed never goes back a day and each day is opened once |
| `Epoch.LateCommit` | crates/proxy/src/admission.rs:144-182 | a run in which a reservation past its slack is made in yesterday's epoch |
| `Epoch.StartupCanBeEarly` | crates/proxy/src/runtime.rs:112-114 | a reading one second ahead makes startup open a day that has not begun |
| `FailureBreaker.FailureGate.RecordAmbiguousFailure` | crates/proxy/src/failure_breaker.rs:75-83 | one failure's effect |
| `FailureBreaker.FailureGate.RecordCompletion` | crates/proxy/src/failure_breaker.rs:86-90 | one completion's effect |
| `FailureBreaker.FailureGate.OpenFor` | crates/proxy/src/failure_breaker.rs:65-70 | some positive time exactly while open, after which it is closed |
| `FailureBreaker.BreakerGrowth` | crates/proxy/src/failure_breaker.rs:65-90 | no opening before the threshold, no overlap, doubled and capped cooldowns, and the time so many openings need |
| `FailureBreaker.ThresholdOpens` | crates/proxy/src/failure_breaker.rs:75-83 | it opens at the failure that reaches the threshold |
| `FailureBreaker.OpeningLasts` | crates/proxy/src/failure_breaker.rs:65-90 | neither completions nor further failures close an opening early or prolong it |
| `FailureBreaker.CompletionStartsAnew` | crates/proxy/src/failure_breaker.rs:86-90 | after a completion, with no opening left, failures count and open as they do from the start |
| `Liability.MergesOnlyShrink` | crates/admission/src/liability.rs:6-11 | merging adjacent tokens never adds any and never changes what they spell |
| `Liability.EstimateDominates` | crates/admission/src/liability.rs:90-214 | the liability reserved, estimated or built on the provider's count, is at least what the request consumes, for any shape and any merges, and never wraps; structured input is never estimated without a count |
| `Liability.SynchronousDominates` | crates/admission/src/liability.rs:149-206 | the same for the synchronous estimate |
| `Liability.EstimateIsTight` | crates/admission/src/liability.rs:90-147 | and no more: a known estimate is exactly the bytes, the framing and the smaller of cap and model limit, and a count is asked for exactly when the input is structured or the encoding unknown |
| `Liability.SynchronousIsTight` | crates/admission/src/liability.rs:149-206 | the synchronous estimate, likewise, and when it applies |

## Left out

- SQLite, fsync, WAL, file rename, locks and volume checks: commits and external writes are atomic, and there is one writer.
- The order of rows a SELECT returns without ORDER BY: insertion order stands for it; no result depends on it.
- Row ids come from the highest id so far and are unbounded; running out of 64-bit ids is not modelled.
- Repeated restores across forked histories: ids are reused between forks, so rollback safety is for one restore on a linear history.
- Rollback.RollbackSafety: speaks of dispatches whose commit succeeded; a dispatch that failed after its external write was never sent, and `ExactlyOnce.SentSurvivesRestore` restates it for requests handed to upstream.
- Supervision: `supervise`, `relay` and `sweep` are modelled as steps rather than loops, because at every await another actor may run; deadlines, ages and backoff delays become steps that may happen at any time.
- ExactlyOnce.SentIsHeldOrChargedOnce: epochs are the ledger's; a request settled after the upstream reset and before the ledger's rollover is charged to the old ledger epoch only.
- HTTP, channels and timers: statuses, bodies, disconnects and errors are events of the environment.
- The provider and client halves of a status decision, and the names states are stored under: finite tables with nothing to prove.
- `StreamObserver.response_id`, `terminal` and `failure` accessors, and the splitter's `is_mid_event`: they only read a field.
- Observer.ObserverSound: how event data reads as JSON is an arbitrary function; JSON lexing and number printing are not modelled.
- Request.UpstreamBodyIsFixedPoint: on JSON values, not on their text; printing and lexing a value again is taken to give it back.
- Rejection messages and JSON paths: only the decision and its code are kept.
- `tool_usage` and the body for OpenRouter: projections of the parsed request.
- HwmRecord.RoundTrip: text outside ASCII is not modelled, including white space beyond ASCII between fields; a written record has none.
- RequestSlots.HintAtMostOneShort: the hint's arithmetic is unbounded; the source's could overflow only for times near the end of the 64-bit range.
- FailureBreaker.BreakerGrowth: durations are whole units and unbounded; doubling a duration near its limit is not modelled, and a breaker restarted by the process begins closed.
- Epoch.EpochSafety: takes readings to be within their stated uncertainty; how a reading is taken is not modelled.
- ExactlyOnce.SupervisorCallsSucceed: a call that fails by the storage, a poisoned lock or a lost task is a step of its own, `Breaks` or `SweepBreaks`, that commits nothing; a commit that takes effect and still reports an error is not modelled.
- ModelRefines.LedgerRefinesModel: digests, response ids, creation times and the reasons of latches are not part of the model's state.
- SseEmptyPackets.EmptyPacketsDoNotMatter: gives a condition that is enough for many empty packets; it is exact for one, but two that show can cancel out.
- CountBodies.CountsBoundInput: what the provider's counter measures and how it renders tools are taken as given functions.
- Configuration, rate-limit header parsing, the usage API and other providers: plumbing around the modelled parts.
