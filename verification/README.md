# Device management service: a verified model

This project models four parts of the device management service and proves what they keep.

1. **Actor dispatch.** Every actor has a kernel: an incoming queue, verifying workers, a queue of
   verified messages, a table of behaviours and one dispatch loop. `Dispatch.dfy` has the kernel as an
   object that is updated in place; `Kernel.dfy` has the same steps as functions, and every method is
   proved to make exactly the step of that name. `ActorSystem.dfy` puts any number of kernels, a shared
   rate limiter (`RateLimiting.dfy`) and shared capability contexts into one step system in which all
   goroutines interleave. The theorems about all runs are in `KernelQueues.dfy`, `KernelDispatch.dfy`,
   `KernelFates.dfy`, `SharedLimiter.dfy`, `TokenBalance.dfy` and `SharedTokens.dfy`; `Invocations.dfy` is about reply
   names.
2. **Contract billing.** `BillingTrigger.dfy` decides when a contract is looked at, `BillingPolls.dfy` how
   the scheduler polls that trigger, `BillingHost.dfy` what one look does to the ledger, and
   `BillingSchedule.dfy` how the trigger follows the ledger. `BillingPeriods.dfy` counts cycles,
   `BillingRuns.dfy`, `RentalCharges.dfy` and `NamedPeriods.dfy` say what whole runs bill, charge and name,
   and `ContractRecord.dfy` how the handlers that sign, terminate, complete, settle and pay a contract
   interleave. `Contracts.dfy` holds the states.
3. **Allocation identifiers.** `AllocationIds.dfy` prints and parses them, on `Decimals.dfy`.
4. **Resource matching.** `Comparisons.dfy` combines verdicts, `GpuMatching.dfy` and
   `GpuGuarantees.dfy` match GPUs, `GpuEquality.dfy` compares GPU lists, and `Resources.dfy` and
   `ResourceRuns.dfy` subtract requests from pools and add them back.

`Envelopes.dfy` holds messages and tokens, `Sequences.dfy` counting.

## Assumptions

- Signatures, capability chains and the parsing of tokens are function parameters (`Kernels.Checks`).
- A step of the step system is what one goroutine does without being interrupted. Consuming each token
  of a message, deciding its check, discarding its tokens, asking the limiter, and the matching that
  precedes them are steps of their own, between which other actors and handlers act; table changes, gc,
  context swaps and stopping wait while the dispatch loop holds the kernel's lock. A capability context
  may forget expired tokens at any moment. A handler that returned may have passed its message on, to be
  discarded later or never, as the handler of an Invoke reply does. A run has one start and at most one
  stop, and its clock never goes back.
- Clocks, the contract database, the usage store, deliveries and the processors' answers are inputs.
  Times are nanoseconds since 1970. The usage store keeps whole seconds, as the source's does.
- The scheduler's goroutine polls at most 30 seconds after it was last busy. It is held up while it marks a
  trigger; a poll that does not fire takes no time, so what the marks of other contracts cost in such a poll
  is not counted. `BillingPolls.dfy` is about the trigger alone, between two updates of its
  invoice time or while billing ends with errors. `BillingSchedule.dfy` adds the update that follows a
  billing run: in any order with polls for `NextFiringAfterUpdate` and `NoDueServedTwiceIff`, and before
  the next poll, with a store that can be read then, where trigger and ledger run together.
- Durations wrap or saturate at 64 bits, sizes in bytes and nonces wrap at 64 bits. CPU cores are
  counted in hundredths, the precision to which the source rounds, and compute power is exact.
- Strings are sequences of characters.

## Where the code differs from what it promises

The model follows the code. Each difference has a member that says exactly when the promise holds.

- A trigger serves every period only if it is marked in time, or its cycle is so long that only one
  period is in range (`GuaranteeIffMarkedInTime`); for a one-minute cycle the allowance is one
  nanosecond. A billing run that stores no new cursor, because a delivery failed or the store did, sets
  the trigger back, and it fires at every poll for the same due time (`OneFiringPerCycleIff`,
  `UnsettledFiresAtEveryPoll`). An invoice time in the future makes it skip a boundary (`FutureInvoiceSkipsBoundary`).
  Huge period counts wrap to other cycles (`CycleWrapsIffTooLong`).
- A contract that is terminated before its first tick is billed from 1970
  (`FirstTickOpensAtStartIff`, `TerminatedFirstIsBilledFromEpoch`). A termination time with a fraction of a second is billed again whenever
  billing runs again after the final invoice (`FinalInvoiceIsFinalIff`); the node unregisters a terminated
  contract, so this needs a new registration. Usage windows overlap by that fraction
  (`WindowsOverlapBySubsecond`). The periods that regular invoices name can leave gaps, and a pro-rated
  final invoice can overlap the periods named before it (`NamedPeriodsMeetIff`, `FinalPeriodOverlaps`).
  Rent for the part of a window after its full cycles is never charged (`RentedTimeIsChargedIff`). Rent is charged twice for the same time when a cursor could not be stored, or
  for such a fraction (`NoTimeChargedTwiceIff`). A periodic invoice whose delivery fails is never sent
  again (`UndeliveredIsLost`).
- Interleaved contract handlers lose signatures and payments (`RunLosesNothingIff`), and terminal
  states are left again (`TerminalIsLeftIff`, `TerminatedContractIsAccepted`).
- Discard removes a token for all messages that brought it (`DiscardSparesOthersIffUnshared`,
  `SharedTokenIsLost`), and swapping the security context can strand tokens (`SwapKeepsDiscardIff`).
- The parser of manifest keys accepts keys whose full identifier the other parser refuses
  (`ManifestKeySurvivesIff`).
- A failed Invoke removes a behaviour that was registered under the preset reply name
  (`FailedInvokeRestoresNameIff`).
- The documented table of `And` says that Worse and None is None; the code says Worse
  (`AndDiffersFromTableIff`).
- GPU matching looks at half of the own GPUs and one more (`PromisedIff`), and its greedy choice can
  miss a matching (`CompleteIff`).
- A failed Subtract can leave a pool partly reduced (`FailedSubtractKeepsPoolIff`), and adding to a pool
  without GPUs gives it the GPUs of the request (`BalancedRunRestoresIff`).

## Model

| member | source | states |
|---|---|---|
| `RateLimiting.BasicRateLimiter.constructor` | actor/limiter.go:57-62 | all counters start at zero |
| `RateLimiting.BasicRateLimiter.Allow` | actor/limiter.go:64-99 | accepts exactly while the counters that concern the message are below the Allow and topic limits |
| `RateLimiting.BasicRateLimiter.Acquire` | actor/limiter.go:101-149 | succeeds exactly below the Acquire and topic limits, then counts the message; otherwise nothing changes |
| `RateLimiting.BasicRateLimiter.Release` | actor/limiter.go:151-185 | takes the message off its counters and drops a topic that reaches zero |
| `RateLimiting.BasicRateLimiter.SetConfig` | actor/limiter.go:194-199 | replaces the limits and keeps the counters |
| `RateLimiting.AllowsAndAdmitsIff` | actor/limiter.go:64-149 | Allow and Acquire accept exactly while the counters that concern the message are below their own broadcast or public limit, and for a broadcast below the topic's own limit or the default; other messages always |
| `RateLimiting.BroadcastIsSumOfTopics` | actor/limiter.go:125-185 | whenever the counters count some messages, the broadcast counter is the sum of the topic counters |
| `RateLimiting.CountersFollowNet` | actor/limiter.go:101-185 | after any sequence of acquires and releases every counter has moved by its net acquisitions |
| `RateLimiting.AllowedIsAdmittedWithinSlack` | actor/limiter.go:64-149 | if Allow accepted a message and the net acquisitions since fit between the Allow and Acquire limits, without net growth on its topic, Acquire succeeds |
| `SharedLimiter.CountersAreHandlersInFlight` | actor/limiter.go:101-199 | for every interleaving of actors that share the limiter, with reconfiguration, each counter is the number of handlers in flight of its kind, topics are listed exactly while in use, and broadcast is the sum of topics |
| `SharedLimiter.CountersReturnToZero` | actor/dispatch.go:242-264 | in every reachable state without running handlers all counters are zero and no topic is listed |
| `SharedLimiter.NoGrowthAtLimit` | actor/limiter.go:113-149 | in every reachable state a counter grows by one and only below the limit configured at that moment, also after a limit was lowered |
| `SharedLimiter.LimitsHold` | actor/limiter.go:113-149 | under a constant configuration every reachable counter is within its Acquire or topic limit |
| `Dispatching.Dispatch.constructor` | actor/dispatch.go:73-91 | a new kernel has empty queues and table and idle workers |
| `Dispatching.Dispatch.Receive` | actor/dispatch.go:148-162 | enqueues unless the queue is full, also in the race with a stop, and reports what the caller is told |
| `Dispatching.Dispatch.TakeOne` | actor/dispatch.go:176-179 | an idle worker takes the oldest message |
| `Dispatching.Dispatch.VerifyOne` | actor/dispatch.go:179-184 | keeps exactly messages that are unexpired and signed, and drops others |
| `Dispatching.Dispatch.PutOne` | actor/dispatch.go:186-191 | hands over to the verified queue, or drops when that is full |
| `Dispatching.Dispatch.SelectOne` | actor/dispatch.go:197-216 | takes the lock and the oldest verified message: unknown or expired entries drop it, a message to oneself is granted, any other that can be checked begins to be checked |
| `Dispatching.Dispatch.ConsumeOne` | lib/ucan/context.go:625-661 | stores exactly one more token of the message if it verifies, in the capability context of the kernel and in no other |
| `Dispatching.Dispatch.RequireOne` | actor/security.go:71-127 | grants exactly when the tokens held at this moment do, and then removes a one-shot entry |
| `Dispatching.Dispatch.GiveBackOne` | actor/dispatch.go:242-246 | discards the tokens of a refused message, in the current capability context and in no other, and drops it |
| `Dispatching.Dispatch.LaunchOne` | actor/dispatch.go:242-264 | starts and counts the handler exactly when the limiter admits it, and otherwise leaves the tokens to be given back |
| `Dispatching.TokenStores.Purge` | lib/ucan/context.go:945-962 | forgets exactly the expired tokens of the subject, or of all subjects, in one capability context |
| `Dispatching.Dispatch.GcSweep` | actor/dispatch.go:272-291 | removes exactly expired entries |
| `Dispatching.Dispatch.AddBehavior` | actor/dispatch.go:118-139 | registers under the name, replacing an earlier entry |
| `Dispatching.Dispatch.RemoveBehavior` | actor/dispatch.go:141-146 | removes the name and nothing else |
| `Dispatching.Dispatch.UpdateSecurityContext` | actor/dispatch.go:170-174 | replaces the security context and nothing else |
| `Dispatching.Dispatch.Stop` | actor/dispatch.go:108-116 | closes the kernel and changes nothing else |
| `Kernels.Discarded` | lib/ucan/context.go:985-1001 | Discard leaves exactly the held tokens whose subject, issuer and nonce the message did not bring |
| `KernelQueues.MessagesConserved` | actor/dispatch.go:148-270 | in every reachable state both queues hold at most 100, and each enqueued message is in exactly one of queue, worker, verified queue, dispatch loop, dropped and started, with nothing else anywhere |
| `KernelQueues.StartedIsSubsequenceOfReceived` | actor/dispatch.go:176-270 | with one worker the started messages are a subsequence of the enqueued ones, in every reachable state |
| `KernelDispatch.StartedHandlersAreJustified` | actor/dispatch.go:176-264 | over all interleavings with gc, table changes, context swaps and Discards of other messages: a started handler's message had not expired and was signed when a worker verified it, was later matched with its registration while that was in the table and unexpired, and then was the actor's own or was granted the registration's capabilities, for a broadcast on the registered topic, by the tokens held at that moment |
| `KernelFates.DroppedIff` | actor/dispatch.go:176-264 | over every run, a message was dropped exactly when some step found it expired or unsigned, the second queue full, no good registration, another topic, unreadable tokens, or a refusal |
| `KernelFates.StartedIff` | actor/dispatch.go:242-264 | over every run, a handler was started exactly when some step found its message granted and the limiter below every limit that concerns it |
| `KernelFates.RequireGrantsIff` | actor/dispatch.go:218-240 | over every run, a checked message is granted exactly when the tokens held then grant the registered capabilities, and uses up a one-shot entry; otherwise it is refused |
| `KernelFates.SelectOutcome` | actor/dispatch.go:197-240 | which of dropping, granting and checking the oldest verified message meets, and what becomes of the table |
| `KernelFates.ConsumeKeepsIff` | lib/ucan/context.go:625-661 | a token of the message is stored and kept for it exactly when it verifies |
| `KernelFates.CheckedMessageKeeps` | lib/ucan/context.go:625-661 | over every run, when a check is decided exactly the tokens of the message that verify under its security context were kept for it, in order |
| `KernelFates.ChangesWaitForLock` | actor/dispatch.go:118-174 | table changes, gc, context swaps and stopping wait exactly while the dispatch loop holds the lock, and then do what was asked |
| `KernelFates.PurgeForgetsIff` | lib/ucan/context.go:945-962 | looking up a subject forgets exactly its expired tokens, gc those of all subjects, and other contexts keep theirs |
| `KernelFates.DefaultBehaviourStays` | actor/dispatch.go:118-139 | a behaviour registered without options requires the capability of its name, never expires and is not used up |
| `KernelFates.VerifyKeepsIff` | actor/security.go:147-172 | a worker keeps what it took exactly when it has not expired and its signature verifies |
| `KernelFates.RegistrationsAreAsked` | actor/dispatch.go:118-139 | over every run, every registration in the table or of a started handler is under the name, and with the capabilities, expiry, one-shot flag and topic, that the actor was asked to register |
| `KernelDispatch.OneShotStartsAtMostOnce` | actor/dispatch.go:201-240 | over every run a one-shot registration starts at most one handler |
| `KernelDispatch.ReplyIsSentAtMostOnce` | actor/basic.go:290-302 | over every run a handler that is registered once, one-shot, as Invoke does with its own, starts at most once: its channel gets at most one value and is never sent to after it was closed |
| `KernelDispatch.GcIsInvisible` | actor/dispatch.go:272-298 | taking all gc sweeps out of a run leaves started handlers, queues, limiter, tokens and flights the same, and tables the same but for expired entries |
| `TokenBalance.TokensNeverLeak` | actor/security.go:71-127 | over every run in which contexts are swapped only while nothing is owed, with late Discards, purges and shared tokens: a held token is owed by a message between its Consume and its Discard, so with nothing owed nothing is held |
| `TokenBalance.TokenBalanceIsExact` | actor/dispatch.go:217-264 | if moreover messages dispatched concurrently share no tokens and none is discarded twice, the unexpired tokens held in a context are exactly those owed there, after every check, refusal and limiter rejection; expired ones are at most those |
| `SharedTokens.DiscardSparesOthersIffUnshared` | lib/ucan/context.go:985-1001 | a handler's Discard leaves the held tokens of another job exactly when no held token belongs to both messages |
| `SharedTokens.SharedTokenIsLost` | actor/dispatch.go:248-250 | for every token there is a run from a fresh system in which two messages with it reach their handlers, one discards, and the unexpired token that the other handler owes is not held |
| `SharedTokens.SwapKeepsDiscardIff` | actor/dispatch.go:170-174 | after a context swap the Discard of a running handler gives its message's tokens back exactly when the capability context is the same or none of them is held; otherwise it changes nothing there |
| `Invocations.Invoker.constructor` | actor/security.go:33-47 | the nonce starts anywhere in 64 bits |
| `Invocations.Invoker.Nonce` | actor/security.go:57-65 | returns the counter and moves it by one, wrapping at 64 bits |
| `Invocations.Invoker.Register` | actor/basic.go:285-302 | draws a name only if none is preset; the entry under it is one-shot, requires the capability of that name and expires with the invocation |
| `Invocations.Invoker.Abandon` | actor/basic.go:304-307 | removes the reply name when sending failed |
| `Invocations.Invoker.UpdateSecurityContext` | actor/basic.go:205-220 | swaps the security context of actor and kernel, and with it the nonce |
| `Invocations.InvocationIsAnsweredAtMostOnce` | actor/basic.go:285-302 | over every run, the handler that an invocation registers starts at most once, for a message to the reply name, under the capability of that name and the invocation's expiry: the channel gets at most one value |
| `Invocations.InvocationIsAnsweredInTime` | actor/basic.go:285-302 | over every run, the reply that starts it was matched no later than the invocation's expiry |
| `Invocations.ReplyNamesDistinctIff` | actor/basic.go:285-288 | two reply names drawn from one context are equal exactly when the draws are a multiple of 2^64 apart |
| `Invocations.ReplyNamesMeetIff` | actor/basic.go:205-220 | reply names drawn from any two contexts are equal exactly when the draws meet modulo 2^64 |
| `Invocations.SwapRepeatsNoName` | actor/security.go:33-47 | a context whose nonce starts after all draws of the previous one repeats none of its reply names |
| `Invocations.FailedInvokeRestoresNameIff` | actor/basic.go:285-310 | whatever happens between registering and abandoning, a failed Invoke leaves its reply name registered as before exactly when it was not in use, and touches no other name |
| `BillingTrigger.PeriodsAre` | utils/convert/period.go:17-33 | the five units in terms of each other, and an hour for any other word |
| `BillingTrigger.CheckIntervalIs` | tokenomics/billing_scheduler.go:259-286 | a tenth of the cycle within 30 seconds and a day, and half of a cycle below a minute |
| `BillingTrigger.TruncatedIs` | tokenomics/billing_trigger.go:80-91 | division by cycles of either sign leaves a rest smaller than the divisor, on the side of the dividend |
| `BillingTrigger.CycleIsAtLeastAMinute` | tokenomics/billing_scheduler.go:238-256 | a period times a count that fits 64 bits is a cycle of that length, of at least a minute |
| `BillingTrigger.CycleWrapsIffTooLong` | tokenomics/billing_scheduler.go:238-256 | the cycle is the product exactly when that fits 64 bits; 2^47 months give a cycle of zero |
| `BillingTrigger.IntervalLeavesRoom` | tokenomics/billing_scheduler.go:259-286 | the check interval is between 30 seconds and a day, and one interval and one poll fit into the cycle |
| `BillingTrigger.BillingCycleTrigger.constructor` | tokenomics/billing_trigger.go:18-32 | the first check is computed from the time of creation |
| `BillingTrigger.BillingCycleTrigger.Calculate` | tokenomics/billing_trigger.go:68-92 | the next check, with truncating division, saturating differences and wrapping products |
| `BillingTrigger.BillingCycleTrigger.Ready` | tokenomics/billing_trigger.go:35-38 | ready from the next check on |
| `BillingTrigger.BillingCycleTrigger.MarkTriggered` | tokenomics/billing_trigger.go:41-45 | restarts at the given time and keeps the last invoice |
| `BillingTrigger.BillingCycleTrigger.UpdateLastInvoiceAt` | tokenomics/billing_trigger.go:54-65 | takes the invoice time, and computes the next check from it, or from now if it is in the future |
| `BillingTrigger.NextCheckInPeriod` | tokenomics/billing_trigger.go:80-91 | in the k-th period after the last invoice the next check is the start of period k+1, or the interval from now if that is later |
| `BillingTrigger.FutureInvoiceSkipsBoundary` | tokenomics/billing_trigger.go:80-91 | before the last invoice the next check is the next boundary exactly when now is a boundary, and otherwise the one after |
| `BillingTrigger.FutureUpdateSkipsBoundary` | tokenomics/billing_trigger.go:54-65 | an update to an invoice time in the future computes the next check from now, and skips a boundary in the same way |
| `BillingTrigger.ReadyACycleAfterMark` | tokenomics/billing_trigger.go:41-78 | without a known invoice time a marked trigger is ready again exactly a cycle later |
| `BillingTrigger.CheckOneCycleAfterInvoice` | tokenomics/billing_trigger.go:54-65 | after an invoice that is not in the future the next check is one cycle after it |
| `BillingPolls.FiresPeriodByPeriod` | internal/background_tasks/scheduler.go:83-132 | without updates of the invoice time, for every sequence of polls at most 30 seconds after the goroutine was free, the j-th firing is in the j-th awaited period, within the interval and one poll of its start, and has happened once a poll is the interval past that start |
| `BillingPolls.FiresOncePerPeriod` | internal/background_tasks/scheduler.go:83-132 | without updates of the invoice time, with such polls and marking within the slack, every period that was polled to its end has exactly one firing, and it is on time |
| `BillingPolls.SlowMarkMissesAPeriod` | internal/background_tasks/scheduler.go:83-132 | for every cycle of which four fit 64 bits, with any latency beyond the slack, a run in which one mark holds up polling until the next period leaves that period without a firing |
| `BillingPolls.GuaranteeIffMarkedInTime` | internal/background_tasks/scheduler.go:83-132 | without updates of the invoice time, for every cycle from a minute up, once per period is guaranteed exactly when marking takes at most the cycle less the interval less a poll plus a nanosecond, or four cycles exceed 64 bits |
| `BillingSchedule.FiringsArePrompt` | internal/background_tasks/scheduler.go:83-132 | for every order of polls and updates, every firing is at or after its due time, and at most one poll after that time, the previous mark and the updates since |
| `BillingSchedule.NextFiringAfterUpdate` | tokenomics/billing_scheduler.go:197-232 | after an update to a cursor c that is not in the future, the next firing is due at c plus a cycle, comes within one poll of that time or of the update, and has come once a poll is that late |
| `BillingSchedule.NoDueServedTwiceIff` | tokenomics/billing_scheduler.go:197-232 | for every order of polls and updates, each due time is later than the one before exactly when no last update between two firings brings a cursor a cycle or more behind the earlier due time |
| `BillingSchedule.FirstTurnSetsStep` | dms/node/node.go:1308-1357 | the first regular billing run of a contract that has started leaves the trigger due a cycle after the stored start date |
| `BillingSchedule.FiringFindsFullCycle` | dms/node/node.go:1308-1357 | when the trigger is due a cycle after the cursor and fires, the processors count a full cycle, and a sound one never answers that the period has not elapsed |
| `BillingSchedule.SettlingMovesACycle` | tokenomics/contract_host.go:662-795 | a billing run that can read and write the store, and has usage that is delivered, or in the periodic model usage or no deployments, moves the cursor by a cycle or more but not past its clock; any other regular run leaves it |
| `BillingSchedule.OneFiringPerCycleIff` | dms/node/node.go:1308-1357 | over every run of trigger and ledger in step, due times are a cycle or more apart exactly when every billing run before another firing settled; after one that did not, the same due time is served again |
| `BillingSchedule.UnsettledFiresAtEveryPoll` | dms/node/node.go:1308-1357 | while the cursor is a cycle behind and no billing run settles, every poll fires, for the same due time |
| `BillingSchedule.TurnsFire` | dms/node/node.go:1308-1357 | runs of trigger and ledger are polls and updates: both views have the same due times |
| `BillingHost.ContractActor.constructor` | tokenomics/contract_host.go:62-131 | nothing stored and nothing forwarded |
| `BillingHost.ContractActor.SaveLastProcessedAt` | tokenomics/store/usage/usage.go:625-703 | what is read after saving a time is that time less its fraction of a second; the move is recorded |
| `BillingHost.ContractActor.SendPeriodicInvoice` | tokenomics/contract_host.go:1070-1181 | forwards one invoice for each deployment whose delivery works, then saves the cursor whatever failed |
| `BillingHost.ContractActor.SendInvoice` | tokenomics/contract_host.go:931-1067 | which invoices each model forwards, and when the cursor is saved |
| `BillingHost.ContractActor.FindTermination` | tokenomics/contract_host.go:821-850 | the time of the latest logged termination, or the zero time |
| `BillingHost.ContractActor.HandleTerminated` | tokenomics/contract_host.go:821-928 | the final invoice up to the termination time, pro-rated for two models |
| `BillingHost.ContractActor.CheckAndGenerateInvoice` | tokenomics/contract_host.go:662-795 | one billing tick: what it forwards, how the cursor moves and whether billing stops |
| `BillingPeriods.CyclesFit` | utils/convert/period.go:37-64 | the counted cycles fit into the elapsed time and one more does not |
| `BillingPeriods.ElapsedCycleIsPast` | utils/convert/period.go:37-64 | if a cycle is counted, a full cycle has passed since the last invoice |
| `BillingRuns.ForwardsIff` | tokenomics/contract_host.go:662-928 | a tick forwards an invoice exactly when nothing keeps it from billing and it has usage, up to now or to the termination, pro-rated only for periodic and rental contracts, that a delivery takes |
| `BillingRuns.UnbilledRunsAreQuiet` | tokenomics/contract_host.go:662-720 | over every run of ticks without contract, billing, automatic processor or readable store, or on a contract that is completed or past its end date and not terminated, nothing is forwarded and the cursor stays |
| `BillingRuns.StopsIff` | tokenomics/contract_host.go:662-720 | billing stops exactly for a contract that is found and is not billed automatically, terminated, completed or past its end date; a missing contract or an unreadable store lets it go on |
| `BillingRuns.FinalInvoiceEndsAt` | tokenomics/contract_host.go:821-850 | the final invoice ends at the latest logged termination, and now if there is none |
| `BillingRuns.RunTilesFromStart` | tokenomics/contract_host.go:662-795 | over every run of ticks from an empty ledger, in which no terminated contract is billed before a cursor is stored: nothing is stored, or invoiced and skipped spans tile the time from the start date to the cursor without gap or overlap, each invoice, taken as the window its tick asked about, starts and ends with its span, and outside the periodic model each span has exactly one |
| `BillingRuns.CursorNeverDecreases` | tokenomics/contract_host.go:662-795 | over every such run the cursor, once stored, never decreases |
| `BillingRuns.ForwardedIsAccounted` | tokenomics/contract_host.go:950-1039 | when every write is stored, the forwarded invoices are exactly those of the spans, in order, over every run |
| `BillingRuns.WindowsOverlapBySubsecond` | tokenomics/store/usage/usage.go:625-669 | the usage windows of consecutive spans overlap by exactly the fraction of a second that the store cuts off |
| `BillingRuns.FailedForwardKeepsLedger` | tokenomics/contract_host.go:613-658 | outside the periodic model a tick whose delivery fails changes nothing |
| `BillingRuns.UndeliveredIsLost` | tokenomics/contract_host.go:1070-1181 | over every such run of the periodic model: the span of a tick has an invoice for each reported deployment exactly when no delivery of the tick failed, and an invoice for a deployment and that period is forwarded, then or ever after, exactly when a delivery for it worked then |
| `BillingRuns.FirstTickOpensAtStartIff` | tokenomics/contract_host.go:662-795 | the first tick sets the cursor to the start date exactly when the contract is not terminated; otherwise every invoice it forwards starts in 1970 |
| `RentalCharges.TerminatedFirstIsBilledFromEpoch` | tokenomics/contract_host.go:821-928 | every rental contract that is terminated, a cycle or more after 1970, before its first tick has a sound tick that forwards the invoice from 1970 to the termination |
| `BillingRuns.FinalInvoiceIsFinalIff` | tokenomics/contract_host.go:821-928 | after the final invoice further ticks forward nothing exactly when the termination time is a whole second or the contract cannot be pro-rated |
| `BillingRuns.QuietAfterFinalInvoice` | tokenomics/contract_host.go:821-928 | with a whole second, or a contract that cannot be pro-rated, the ledger stays the same over every further run of ticks |
| `RentalCharges.ChargeFitsWindow` | tokenomics/contracts/processors/fixed_rental.go:108-216 | the time a rental invoice charges for, in full cycles or pro-rated, is positive and fits its window, and ends by the stored second exactly when it is in full cycles or the window ends on a whole second |
| `RentalCharges.NoTimeChargedTwiceIff` | tokenomics/contracts/processors/fixed_rental.go:108-216 | over every such run of a rental contract, no time is charged for twice by the forwarded invoices exactly when each tick that forwards one before another stores its cursor and is for full cycles or up to a whole second |
| `RentalCharges.RunNeverOvercharges` | tokenomics/contracts/processors/fixed_rental.go:108-216 | when every write is stored and termination times are whole seconds, the forwarded invoices of a whole run charge for no more than the time from the start date to the end of the last one |
| `RentalCharges.RentedTimeIsChargedIff` | tokenomics/contracts/processors/fixed_rental.go:108-216 | over every such run with windows within 64 bits, the time from the start date to the cursor less the time charged for is at least zero and at most a cycle for each invoice, and is zero exactly when the stored window of every regular invoice is a multiple of the cycle |
| `RentalCharges.UnsavedWriteChargesTwice` | tokenomics/contract_host.go:613-658 | a run whose first cursor cannot be stored charges two minutes for one |
| `BillingPeriods.PeriodWindowsGapIff` | utils/convert/period.go:54-64 | the periods that two consecutive regular invoices name never overlap, and leave a gap exactly when the earlier was made after the end of the periods it names |
| `NamedPeriods.NamedPeriodsMeetIff` | tokenomics/contracts/processors/fixed_rental.go:108-216 | over every run of the periodic or rental model, a regular invoice and the next: the periods they name leave a gap exactly when the first was late by more than its cursor was before a period, and overlap exactly when it was late by less and the next is pro-rated |
| `NamedPeriods.FinalPeriodOverlaps` | tokenomics/contracts/processors/fixed_rental.go:163-216 | a run whose regular invoice names seconds 60 to 120, and whose final invoice names seconds 91 to 105 |
| `ContractRecord.ContractHost.constructor` | tokenomics/contract_host.go:62-131 | holds the given record |
| `ContractRecord.ContractHost.HandleSign` | tokenomics/contract_host.go:389-457 | refuses strangers and second signatures, and accepts with the second signature |
| `ContractRecord.ContractHost.HandleTerminate` | tokenomics/contract_host.go:489-526 | crashes exactly on a record without a termination option, and terminates and logs exactly when the option allows it |
| `ContractRecord.ReachableRecordsAreWellFormed` | tokenomics/contract_host.go:367-611 | however handlers interleave, every record reachable from an unsigned draft has signatures of distinct participants, is accepted or valid only with both signatures, and has a chained log |
| `ContractRecord.RecordTellsTheRun` | tokenomics/contract_host.go:144-592 | however handlers interleave, every state and every log entry of a reachable record comes from a stored write of a request that leads there and was entitled to it; the entry carries its time and requester |
| `ContractRecord.NotCompletedBeforeEnd` | tokenomics/contract_host.go:144-172 | over every run without a Complete request and without a write after the end date, no record is completed |
| `ContractRecord.EveryWriteIs` | tokenomics/contract_host.go:367-592 | what each kind of handler writes and when: a second signature accepts, an entry names state, time and requester, the ticker completes exactly after the end date, a missing termination option takes the store down, and a refused write changes nothing |
| `ContractRecord.DownStaysDown` | tokenomics/contract_host.go:489-526 | nothing happens after a crash |
| `ContractRecord.ChangeKeepsWellFormed` | tokenomics/contract_host.go:389-592 | every handler keeps a record well-formed and its participants |
| `ContractRecord.StepKeepsIffSeen` | tokenomics/contract_host.go:367-592 | a step keeps the stored signatures and payment exactly when its handler, if it writes, saw them, except for what it adds itself, for every kind of request |
| `ContractRecord.RunLosesNothingIff` | tokenomics/contract_host.go:367-592 | a run of interleaved handlers never loses a signature or a payment exactly when every handler that writes saw that much |
| `ContractRecord.SerialRunsKeep` | tokenomics/contract_host.go:367-592 | handlers that run one after the other never lose a signature or a payment |
| `ContractRecord.InterleavingLosesSignature` | tokenomics/contract_host.go:389-457 | from every draft with two participants there is an interleaving that loses a signature |
| `ContractRecord.InterleavingLosesPayment` | tokenomics/contract_host.go:367-387 | from every draft there is an interleaving that undoes a payment |
| `ContractRecord.TerminalIsKeptIff` | tokenomics/contract_host.go:389-592 | a handler that runs alone keeps a terminal state exactly when it is not the second signature |
| `ContractRecord.TerminalIsLeftIff` | tokenomics/contract_host.go:367-592 | a step of interleaved handlers leaves a terminal state exactly when it writes a second signature, or a signature or payment onto a record seen before that state |
| `ContractRecord.TerminatedContractIsAccepted` | tokenomics/contract_host.go:389-526 | from every draft that allows termination a run of sign, terminate, sign ends accepted, with a log that has forgotten the termination |
| `Decimals.PrintedParsesIff` | types/allocation.go:135-139 | a printed index parses exactly if it fits 64 bits, and then back to itself |
| `Decimals.ParsesIff` | types/allocation.go:135-139 | what parses as an index is digits with a sign or none, for a number within 64 bits |
| `Decimals.DigitsInjective` | actor/basic.go:286-288 | different numbers print differently |
| `AllocationIds.Find` | types/allocation.go:121-128 | the leftmost occurrence, if there is one |
| `AllocationIds.SplitTwo` | types/allocation.go:122-133 | splitting gives two pieces exactly when a clean prefix, the separator and a rest without it follow each other |
| `AllocationIds.CleanBeforeMarker` | types/allocation.go:122-128 | "-standby-" is cut off after a prefix exactly when that neither contains it nor ends in "-standby" |
| `AllocationIds.PrintIsEnsembleAndKey` | types/allocation.go:44-71 | every identifier prints as ensemble, underscore and manifest key |
| `AllocationIds.AcceptedPrints` | types/allocation.go:44-71 | every identifier of the shape that the parser of full identifiers accepts is recovered from its printed form and from its manifest key |
| `AllocationIds.ManifestKeySurvivesIff` | types/allocation.go:172-216 | the identifier of every manifest key that parses survives printing and the parser of full identifiers exactly when the ensemble has no underscore and the key is a standby key or does not contain the word standby |
| `AllocationIds.ParsePrintRoundTrip` | types/allocation.go:111-167 | for every accepted string: printing and parsing again gives the same identifier, and the printed form is the input up to the spelling of the index |
| `AllocationIds.StandbyRoundTripIff` | types/allocation.go:99-167 | a new standby identifier survives printing and parsing exactly when the ensemble has no underscore, the name no dot and no marker, and the primary neither contains the marker nor ends in "-standby" |
| `AllocationIds.PrimaryRoundTripIff` | types/allocation.go:88-167 | a new primary identifier survives exactly when the ensemble has no underscore, node and name no dot, and the key no "standby" |
| `AllocationIds.NodeNameRoundTripIff` | types/allocation.go:220-231 | a standby node name gives back primary and index exactly when the primary neither contains the marker nor ends in "-standby" |
| `AllocationIds.NodeNameIs` | types/allocation.go:220-231 | every node name is read as a standby name exactly when it is a primary, the marker and a number, and otherwise as a primary with index zero |
| `AllocationIds.GeneratorsAgreeIff` | types/default_id_generators.go:26-118 | for positive indices and non-empty names the generators build the printed form and key exactly when the primary does not contain the marker |
| `AllocationIds.GeneratorsRefuseIff` | types/default_id_generators.go:26-118 | the generators refuse exactly empty parts and indices below one, and the full identifier is the ensemble, an underscore and the key |
| `Comparisons.AndDiffersFromTableIff` | types/comparison.go:25-66 | the code agrees with its documented table except for Worse and None |
| `Comparisons.AndLaws` | types/comparison.go:33-66 | And is associative and Equal is its identity |
| `Comparisons.CombinedMeaning` | types/comparison.go:72-78 | combined verdicts are acceptable exactly when none is Worse or None, and Equal exactly when all are |
| `Comparisons.OrderIndependentIff` | types/comparison.go:72-78 | all orders of combining agree exactly when Worse and None do not both occur |
| `Comparisons.Result` | types/comparison.go:72-78 | for every iteration order: acceptable exactly when no field is Worse or None, Equal exactly when all fields are |
| `GpuMatching.ReturnBestMatch` | types/utils.go:54-78 | the leftmost entry of the highest rank, Equal before Better before Worse, or -1 when all are None |
| `GpuMatching.RemoveIndex` | types/utils.go:80-91 | removes the column from every row that has it, in place, and leaves shorter rows |
| `GpuMatching.SliceContainsOneValue` | types/utils.go:44-52 | whether all entries have the value |
| `GpuMatching.Matrix` | types/hardware.go:192-207 | row r, column c compares own GPU c with required GPU r |
| `GpuMatching.Match` | types/hardware.go:210-220 | the loop with its in-place removals gives the verdicts of the partners in their original positions |
| `GpuMatching.CompareLists` | types/hardware.go:180-229 | the verdict for two lists, empty ones included |
| `GpuMatching.PartnersSound` | types/hardware.go:210-220 | partners are pairwise distinct, and one that is too small was chosen only because all that remained were |
| `GpuMatching.PartnersCount` | types/hardware.go:211-215 | the loop finds a partner for the first min(m, n/2 + 1) required GPUs |
| `GpuGuarantees.VerdictMeansMatching` | types/hardware.go:180-229 | not Worse exactly when the distinct partners of the first min(m, n/2 + 1) required GPUs are large enough; Equal exactly when all are equally large; Worse only when at some round everything left was too small |
| `GpuGuarantees.VerdictIs` | types/hardware.go:180-229 | the verdict for all lists, empty ones included: Worse exactly when something required has no partner that is large enough, Equal exactly when all partners are equally large or both lists are empty |
| `GpuGuarantees.AssignedServe` | types/utils.go:54-78 | each examined GPU gets, of those left, the first that is exactly as large, else the first that is larger, else the first |
| `GpuGuarantees.PromisedIff` | types/hardware.go:211-215 | for n own and m required GPUs, not Worse implies that all m can be served together exactly when m is at most n/2 + 1 |
| `GpuGuarantees.CompleteIff` | types/utils.go:54-78 | the greedy choice finds every matching of the examined GPUs exactly when n or m is 1 |
| `GpuGuarantees.LargestFirstIsExact` | types/hardware.go:180-229 | if the largest required GPUs come first, not Worse exactly when the examined ones can be served together |
| `GpuEquality.Equal` | types/hardware.go:283-304 | greedy matching with used flags decides whether the lists are equal as multisets, up to UUIDs |
| `GpuEquality.TakeFirst` | types/hardware.go:289-297 | marks exactly the first free equal GPU, or finds that there is none |
| `Resources.ByIndex` | types/hardware.go:248-251 | for each index the last entry of the request wins |
| `Resources.Pool.Subtract` | types/resources.go:101-119 | succeeds exactly when cores, memory, disk and the VRAM of every GPU named by index suffice; the pool after success and after each failure |
| `Resources.Pool.SubtractGPUs` | types/hardware.go:264-281 | reduces GPUs in order up to the first that is short |
| `Resources.Pool.Add` | types/resources.go:80-98 | adds every part, wrapping at 64 bits |
| `Resources.Pool.AddGPUs` | types/hardware.go:231-262 | adds by index, or takes over the request's GPUs when the pool has none |
| `Resources.Pool.Equal` | types/resources.go:59-77 | equal cores, memory, disk, and GPUs as multisets up to UUIDs |
| `Resources.Pool.Compare` | types/resources.go:34-56 | the combined verdict of CPU, memory, disk and GPUs |
| `ResourceRuns.RunFollowsNet` | types/resources.go:80-119 | after every run of successful subtractions and additions each amount is off by exactly the net of what was taken and returned, modulo 2^64 for sizes |
| `ResourceRuns.FirstReturnBringsItsGPUs` | types/hardware.go:231-262 | a pool without GPUs takes over all GPUs of the first return that names any, and every later run follows its net on those |
| `ResourceRuns.TakenIff` | types/resources.go:101-119 | a request can be taken exactly when the pool has each of its amounts |
| `ResourceRuns.DemandIsLast` | types/hardware.go:248-251 | a request asks of an index what its last entry with it says, and otherwise nothing |
| `ResourceRuns.ReturnedCanBeTaken` | types/resources.go:80-119 | what was just returned can be taken again, and leaves the pool as it was, unless a size wraps |
| `ResourceRuns.BalancedRunRestoresIff` | types/resources.go:80-119 | returning all that was taken, in any order and interleaving, restores the pool exactly when it has GPUs or no request names any |
| `ResourceRuns.FailedSubtractKeepsPoolIff` | types/resources.go:101-119 | a failed subtraction leaves the pool unchanged exactly when nothing was asked of the resources checked before the one that is short |
| `ResourceRuns.AcceptableIff` | types/resources.go:34-56 | acceptable exactly when the architecture is the same and compute, memory, disk and GPUs are not worse; Equal exactly when all are equal |
| `ResourceRuns.AcceptableServesGPUs` | types/resources.go:34-56 | an acceptable machine can serve all required GPUs together if they are at most half its own and one |

## Left out

- Cryptography, delegation chains and token formats are parameters of the model, as stated under Assumptions.
- Network delivery, topic subscription and broadcast validation (`actor/basic.go`) add no state to the kernel steps modelled here.
- Restarting a stopped kernel: a run has one session of queues, workers and table.
- The proposing node's own writes to a contract record (`dms/node/behaviors_contract.go`) are not among the interleaved handlers.
- Amounts of money: fees are floating-point strings in the source; the model charges in time, to which rent is proportional. What periodic and usage-based invoices charge is deployment time and usage, which is not modelled.
- UndeliveredIsLost: is about ticks that move the cursor to a later second; a pro-rated tick within the same second is repeated (FinalInvoiceIsFinalIff).
- OneFiringPerCycleIff: is about billing runs that end before the next poll and then read the cursor; billing runs that overlap polls are the subject of NoDueServedTwiceIff.
- FirstTurnSetsStep: is about contracts that have started; a start date in the future is an invoice time in the future (FutureInvoiceSkipsBoundary).
- NamedPeriodsMeetIff: is about a regular invoice and the next one; a pro-rated invoice names its own window, so what follows it is the subject of WindowsOverlapBySubsecond.
- RentedTimeIsChargedIff: is about runs in which every write is stored and termination times are whole seconds; otherwise time is charged twice (NoTimeChargedTwiceIff).
- How processors measure usage: their answers are inputs, required only to respect what every processor checks before it answers (`BillingRuns.Sound`).
- RunTilesFromStart: is about contracts with a start date at least a second after 1970, because a cursor of zero reads as missing and is set to the start date again; a first tick on a terminated contract is the subject of FirstTickOpensAtStartIff.
- LargestFirstIsExact: gives a condition under which the greedy verdict is exact, not the set of all size combinations for which it is; CompleteIff is exact over list lengths.
- CPU cores as 32-bit floating-point numbers: the model has hundredths without rounding error.
- HardwareCapability's other fields (`types/capability.go`) are set operations and third-party version comparisons; their verdicts enter `Comparisons.Result` as a map.
- Legacy splitting of identifiers at the last underscore (`types/allocation.go:17-30`) would only add easy members.
