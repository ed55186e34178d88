# Verified model of the ledger's background work, trees, paging, reconciliation and investment entry

This project models the parts of the web ledger whose correctness is not visible from one
function body, and proves what they promise over all inputs and all runs.

| file | models |
|---|---|
| `Timers.dfy` | the worker's timer registry |
| `SimpleFin.dfy`, `SimpleFinTheorems.dfy`, `SimpleFinTiming.dfy`, `SimpleFinWorker.dfy` | bank-sync scheduling in `worker.ts`: the timer map, chained rebuilds, the in-flight guard, queued jobs, shutdown, and when the first tick comes |
| `TimesOfDay.dfy`, `DailyChains.dfy`, `DailyChainTheorems.dfy`, `DailyChainTimes.dfy`, `DailyScheduler.dfy` | the self-rearming daily chains of `worker.ts`, and at what time of day they run |
| `DataEvents.dfy`, `DataEventTheorems.dfy`, `DataEventsProvider.dfy` | the data-change bus: coalescing, echo suppression, visibility, reconnect backoff |
| `AccountTree.dfy`, `AccountSort.dfy`, `AccountFilter.dfy`, `AccountExpansion.dfy` | the account tree: roll-up, sort, filter, ancestor search, expansion |
| `InlineSave.dfy`, `Rounding.dfy` | inline saves of the ledger: fractions, guard, claiming of prior splits |
| `Paging.dfy`, `PagedLedger.dfy` | the offset-paged transaction list against a server list that moves |
| `Decimal.dfy`, `Text.dfy` | exact decimal strings, on the panel and on the server |
| `ReconcileServer.dfy`, `ReconcileRows.dfy`, `ReconcilePanel.dfy` | reconciliation: the server's finalize, the ledger rows, the panel's gate |
| `InvestmentSplits.dfy`, `StockPositions.dfy` | investment entry: double entry with rounding, the oversell guards over runs |
| `Prelude.dfy` | optional values, minimum and maximum |

Each stateful part has three layers. A *machine* gives the state and one function per atomic step
(the code between two awaits, or one event handler). *Theorems* speak about every run of the
machine. A *class* has the source's own fields and methods; each method is proved to be one step,
so the theorems hold of it.

## What turned out false, and exactly when

The code does not always do what its comments or callers expect. Each case is kept as it is in the
source, with the exact condition under which the promise holds:

- The in-flight guard is always released if and only if the dynamic import of a queued job never
  fails; a connection that lost one never syncs again (`GuardReleasedIffNoImportLost`,
  `LostConnectionNeverSyncsAgain`).
- A daily chain stays single and alive if and only if no set or clear lands during its own callback
  (`OneLiveChainIffCommandsAvoidCallbacks`). A bad time leaves a book's chain running but ends a
  named one (`SetSchedule`, `SetScheduleGeneric`).
- The first tick comes within a minute of its time if and only if the rebuild in charge then reached
  the connection; a rebuild that clears the timers and fails leaves nothing armed
  (`FirstTickInWindowIff`, `UnreachedIsSilent`, `FailedRebuildEndsTheSchedule`). Rebuilds no more than
  a minute apart postpone an overdue sync without bound (`FrequentRebuildsStarveTheSync`).
- Prior splits are claimed by rank within their account, not by amount, although the comment at
  `src/components/AccountLedger.tsx` line 836 speaks of the same account and the same amount. A split
  is kept if and only if that amount stands at its own rank (`KeepsGuidIff`, `SameSplitsKeptIff`,
  `ReorderedSuggestionsLoseTheirSplits`).
- An untouched save sends every stored split only if there are two and no trading split
  (`EverySplitIsSentIff`).
- Values rounded on both sides cancel if and only if no half unit is involved, and the parts of a
  trade if and only if their rounding residues do not spill over (`EqualDenominatorsBalanceIffNotHalf`,
  `InlinePairBalancesIff`, `TradeBalancesIff`).
- A negative commission is accepted and leaves a trade unbalanced (`AcceptedTradeBalancesIff`).
- The investment form lets a sell of half a unit too much round up, again and again; editing a buy
  into a sell, or making a buy smaller, escapes the guard (`FormStaysNonNegativeIff`,
  `HalfUnitSellsDrift`, `InlineStaysNonNegativeIff`, `BuyEditedIntoSellGoesShort`).
- Paging survives inserts at the head only up to the offset, deletions only behind everything loaded
  or answered, and a reload only with no later page in flight (`PrefixIffArrivalsInTime`,
  `DeletionIsSafeIffBehindTheFrontier`, `ReloadIsSafeIffNothingBeyondIsPending`).
- The panel trims the statement balance and rounds the logarithm of the unit, the server does neither
  (`ServerAgreesIffTrimmed`, `GateAgreesWithServer`, `PanelPostsOddUnits`).

## Assumptions

- Amounts, shares and balances are exact numbers; `Math.round` rounds halves up; IEEE rounding and
  numbers beyond the exact range of a double are not modelled. Minor units are integers.
- The clock never runs backwards and a timer never fires early. Only the upper bounds on the first tick
  also take timers to run no later than due (`Punctual`).
- JavaScript runs one step at a time between awaits. A rebuild may fail at any await. A book's refresh
  task never rejects, because `runRefreshForBook` catches all it awaits.
- The entry object shared by the map and a timer's closure is an entry of a table keyed by identity.
  The SimpleFin timers and the daily chains are each modelled over a registry of their own; the
  source uses one registry, whose `clearAllTimers` reaches both.
- Connection ids and split guids are keys; generated guids are new; the server's list order is total.
- The commodity unit is a positive integer, as the server's route demands.
- `localeCompare` is any total preorder; `toLowerCase` is any function on strings; an ISO date is a
  day number.
- The account table shows an account's children exactly when the account is expanded.
- A React state update is visible to the next event. `investmentCurrentShares` is the current position.
- In the ledger's rows, amounts are minor units and agree with the split table. A zero denominator,
  which fails in the database's division, counts as a split that is not exact.
- The cash, income and expense accounts of an investment form are not the stock account itself; what each
  account receives is stated for four distinct accounts.
- The time of day of a set command is one that `ParseTimeOfDay` returned, or none.

## Model

| member | source | states |
|---|---|---|
| Timers.RegistryMatchesRuntime | src/lib/worker/timer-registry.ts:59-100 | over any history of arming, clearing, firing and latching, the two handle sets list exactly the timers the runtime holds, by kind, and a latched registry holds none |
| Timers.LatchedRegistryStaysEmpty | src/lib/worker/timer-registry.ts:94-100 | after `clearAllTimers` no history of calls leaves anything armed, and every later arming returns null |
| Timers.ClearedTimerNeverFires | src/lib/worker/timer-registry.ts:78-87 | a handle that is no longer pending never becomes pending again, so a cleared timer never fires |
| Timers.TimerRegistry.SetTimeout | src/lib/worker/timer-registry.ts:59-67 | null once latched; otherwise exactly one new timeout, recorded in the timeout set |
| Timers.TimerRegistry.SetInterval | src/lib/worker/timer-registry.ts:70-75 | null once latched; otherwise exactly one new interval, recorded in the interval set |
| Timers.TimerRegistry.Clear | src/lib/worker/timer-registry.ts:78-87 | removes the handle from the runtime and from its set, whichever kind it is, and nothing else |
| Timers.TimerRegistry.ClearAllTimers | src/lib/worker/timer-registry.ts:94-100 | the loops over both sets leave no timer anywhere and the latch set |
| Timers.TimerRegistry.FireTimer | src/lib/worker/timer-registry.ts:61-64 | a firing timeout drops out of its set before its callback runs; an interval stays |
| SimpleFin.StepKeepsInvariant | worker.ts:113-235 | every atomic step of rebuilds, ticks, jobs and shutdown keeps: each live timer is held by its connection's entry, each entry has one slot filled, a running rebuild meets only cleared connections, the guard covers every running sync, and shutdown equals the latch |
| SimpleFin.IntervalHours | worker.ts:208-208 | the user's hours when they are 1 to 24, 2 when missing or zero, 24 above and 1 below that range |
| SimpleFinTheorems.OneHeldTimerPerConnection | worker.ts:167-235 | under every interleaving each live timer is held by its connection's entry in `simplefinTimers`, no connection has two, every scheduled connection has one until shutdown, none is left afterwards |
| SimpleFinTheorems.OverlappingRebuildsLeakATimer | worker.ts:175-183 | why rebuilds are chained: two overlapping ones arm the same connection twice and leave a live timer that nothing holds, for every cadence and clock |
| SimpleFinTheorems.RebuildHoldsTheOptedIn | worker.ts:193-227 | before shutdown the timer map holds exactly the opted-in connections the latest rebuild considered, which are a front part of its query in order, and the whole query once it has worked through it |
| SimpleFinTheorems.GuardAccountedFor | worker.ts:118-165 | after any run the in-flight guard is exactly the running connections plus those that lost a dynamic import, and no connection is both |
| SimpleFinTheorems.OneSyncAtATime | worker.ts:114-125 | timer ticks and queued jobs together never run two syncs of one connection, and every running one is in the guard |
| SimpleFinTheorems.EveryRequestIsQueued | worker.ts:178-183 | over any run the rebuilds requested are those begun and those waiting: none is lost or run twice |
| SimpleFinTheorems.JobStartsASync | worker.ts:516-521 | a job starts its sync exactly when none of its connection is in flight, and else changes nothing |
| SimpleFinTheorems.FiringStartsASyncAndGoesOn | worker.ts:215-222 | a firing timer starts its connection's sync unless one is in flight and is due again one interval later, a first tick handing over to the repeating timer; no other timer changes |
| SimpleFinTheorems.GuardReleasedIffNoImportLost | worker.ts:516-535 | the guard is released after every sync of a run if and only if the import at line 522, outside the try block, never failed |
| SimpleFinTheorems.LostConnectionNeverSyncsAgain | worker.ts:521-535 | a connection whose import failed stays in the guard: no later tick or job of it ever runs |
| SimpleFinTiming.FirstTickIsFromTheLatestRebuild | worker.ts:193-223 | in every run a live first-tick timer was armed for its connection by the latest rebuild that began, with the delay and cadence computed from what that rebuild read |
| SimpleFinTiming.FirstTickIsDueInWindow | worker.ts:207-222 | it is due no earlier than last sync + interval (never synced counts as 0), at most 60000 ms after the later of that and its arming, at least 60000 ms and at most one interval after its arming |
| SimpleFinTiming.RepeatsOnCadence | worker.ts:218-221 | in every run a live repeating timer is due exactly one interval after the last firing of its connection's timer, the interval being the one the latest rebuild read |
| SimpleFinTiming.FirstTickNeverEarly | worker.ts:211-222 | over any legal run the first tick is not before last sync + interval, rebuilds that fail or skip the connection included |
| SimpleFinTiming.FirstTickInWindowIff | worker.ts:193-234 | over legal punctual runs with more than a minute from arming to the next rebuild: the latest rebuild that began by the later of last sync + interval and the first arming brings the first tick, in the window, if and only if it reached the connection; otherwise every tick comes more than a minute after that instant |
| SimpleFinTiming.FirstTickInWindow | worker.ts:193-222 | if every rebuild that began before the first tick reached the connection, the first tick comes no earlier than last sync + interval and at most a minute and one rebuild latency after the later of that and the first arming, however many rebuilds there are |
| SimpleFinTiming.UnreachedIsSilent | worker.ts:194-234 | a rebuild that has begun leaves the connection without any timer exactly until it arms it; if it never does, no first tick runs until another rebuild begins |
| SimpleFinTiming.FailedRebuildEndsTheSchedule | worker.ts:194-234 | a legal run: a rebuild arms the connection, the next one clears it and ends before reaching it, and nothing is armed any more |
| SimpleFinTiming.FrequentRebuildsStarveTheSync | worker.ts:212-212 | a legal punctual run of the machine: whole rebuilds at any times no more than a minute apart never let an overdue sync tick, and leave it a minute away |
| SimpleFinWorkers.SimpleFinWorker.ClearTimers | worker.ts:167-173 | the loop over the map clears exactly the handles its entries hold and empties the map |
| SimpleFinWorkers.SimpleFinWorker.BeginRebuildNow | worker.ts:180-195 | a queued rebuild starts: one step of the machine, invariant kept |
| SimpleFinWorkers.SimpleFinWorker.ScheduleConnection | worker.ts:204-227 | one turn of the rebuild loop: opted-out connections are skipped, others get a new entry with one first-tick timer |
| SimpleFinWorkers.SimpleFinWorker.RunTimer | worker.ts:215-222 | a firing first tick empties its slot, starts (or skips) the sync and arms the interval; a repeating one starts (or skips) the sync |
| SimpleFinWorkers.SimpleFinWorker.StartSyncJob | worker.ts:516-522 | a queued job is skipped when its connection is in flight, otherwise recorded before the import |
| SimpleFinWorkers.SimpleFinWorker.ImportSettles | worker.ts:522-524 | a failed import ends the job without releasing the guard |
| SimpleFinWorkers.SimpleFinWorker.FinishSync | worker.ts:533-535 | the finally block ends the sync and releases its connection |
| SimpleFinWorkers.SimpleFinWorker.ShutDown | worker.ts:934-957 | the first call latches the registry and empties the maps, a second one changes nothing |
| TimesOfDay.ParseTimeOfDay | src/lib/worker/refresh-schedule.ts:124-152 | an accepted time is a whole minute within the day |
| TimesOfDay.EveryMinuteIsReadBack | src/lib/worker/refresh-schedule.ts:124-152 | each of the 1440 spellings HH:MM, with any blanks around it, is read as its own offset |
| TimesOfDay.AcceptsExactlyTheMinutes | src/lib/worker/refresh-schedule.ts:124-137 | a text is accepted exactly when, blanks apart, it is one of the 1440 spellings, and as that minute; anything else is refused |
| TimesOfDay.NextRunIsTheFirst | src/lib/worker/refresh-schedule.ts:148-161 | the wait is between 1 ms and a day, ends at the time of day asked for, and at the first such instant after now |
| DailyChains.TimersStaySound | worker.ts:283-370 | every step of set, clear, fire, settle and shutdown keeps map, registry and latch consistent, commands during callbacks included |
| DailyChainTheorems.OneLiveChainIffCommandsAvoidCallbacks | worker.ts:283-370 | until shutdown every wanted chain and no other is alive as exactly one armed timer or one running callback, at every moment of the run, if and only if no set or clear lands during the callback of its own chain |
| DailyChainTheorems.NothingArmedAfterShutdown | worker.ts:308-316 | once shutdown has latched the registry nothing is armed, whatever commands and callbacks follow |
| DailyChainTheorems.RearmedWhateverTheOutcome | worker.ts:309-318 | a callback that is over leaves its chain armed and recorded for the next occurrence of its time, a named job that failed included |
| DailyChainTheorems.RearmedIffNamedOrResolved | worker.ts:309-358 | were a callback's promise to reject, a named chain would be armed again by its `finally` and a book's chain would be over: alive afterwards if and only if it is named or the promise did not reject, which is why `runRefreshForBook` must catch everything |
| DailyChainTimes.EveryTimerIsDueWhenAsked | worker.ts:283-361 | in every run whose commands avoid callbacks each armed timer of a chain is due at the time of day last asked of that chain, read off the commands alone, for books and named jobs, after any number of nights |
| DailyChainTimes.SetArmsForTheTimeAsked | worker.ts:309-357 | a set with a time that parses leaves a timer of its chain due later than now, at most a day later, at exactly that time of day |
| DailyChainTheorems.SetDuringCallbackDoublesTheChain | worker.ts:308-318 | a set during the callback leaves two armed timers for one book: the callback re-arms without rechecking |
| DailyChainTheorems.ClearDuringCallbackIsUndone | worker.ts:308-370 | a clear during the callback does not hold: the cleared book is armed again |
| DailySchedulers.DailyScheduler.SetSchedule | worker.ts:283-323 | a bad time leaves the book's chain alone; a good one replaces it |
| DailySchedulers.DailyScheduler.SetScheduleGeneric | worker.ts:328-361 | the named chain is cleared first, so a bad time ends it; a good one replaces it, one step of the machine whose timers are due at the time asked (`EveryTimerIsDueWhenAsked`) |
| DailySchedulers.DailyScheduler.ClearBookSchedule | worker.ts:363-370 | the book's timer is cancelled and forgotten |
| DailySchedulers.DailyScheduler.FinishCallback | worker.ts:309-358 | the callback is over and the next day armed unless the registry is latched; a book's rejected promise would not arm |
| DailySchedulers.DailyScheduler.ShutDown | worker.ts:934-957 | latches the registry and empties both maps, once |
| DataEvents.StepKeepsInvariant | src/components/DataEventsProvider.tsx:64-225 | every handler keeps: the purged suppression map agrees with the mark history, the pending map is what the history still owes, the flush timer is in time, the stream is open xor a reconnect is armed |
| DataEventTheorems.DispatchIsNewest | src/components/DataEventsProvider.tsx:114-153 | each window dispatch carries the newest accepted payload of its entity, to a visible tab, outside the echo window, and never a second time |
| DataEventTheorems.OneDispatchPerFlush | src/components/DataEventsProvider.tsx:123-153 | between two dispatches of an entity lie the later one's own acceptance and then a new flush, so they are a subsequence of the payloads, at most one per flush |
| DataEventTheorems.EveryFrameAnswered | src/components/DataEventsProvider.tsx:126-129 | a frame is ignored exactly inside an echo window; an accepted one, once nothing of its entity is pending, was answered by a flush that took that payload or a newer one and withheld it exactly inside a window |
| DataEventTheorems.SuppressionMatchesHistory | src/components/DataEventsProvider.tsx:64-89 | the lazily purged map and the full history of marks give the same verdict at every later instant |
| DataEventTheorems.PendingIsFlushedInTime | src/components/DataEventsProvider.tsx:181-215 | a visible tab with something pending has its flush armed, and an armed flush is due exactly 500 ms after the oldest waiting event; becoming visible drains everything in one flush |
| DataEventTheorems.FlushIsDebounced | src/components/DataEventsProvider.tsx:114-124 | every flush of a run begins right after the tab is shown or when the oldest waiting event is at least 500 ms old |
| DataEventTheorems.FramesCoalesce | src/components/DataEventsProvider.tsx:174-190 | frames of one entity accepted within 500 ms of the first waiting event, the tab not shown anew in between, give no dispatch of the older one: whatever is dispatched came with the newer frame or later |
| DataEventTheorems.UnflushedFramesCoalesce | src/components/DataEventsProvider.tsx:114-153 | the same of any two frames of one entity with no flush between them, however far apart |
| DataEventTheorems.BackoffOfKthFailure | src/components/DataEventsProvider.tsx:192-200 | the k-th consecutive failure waits min(5000 * 2^k, 60000) ms, and `connected` restarts the count |
| DataEventTheorems.StreamXorReconnect | src/components/DataEventsProvider.tsx:164-225 | until unmount exactly one of stream open and reconnect armed holds; afterwards neither, nor a flush timer |
| DataEventsProviders.DataEventsProvider.Mount | src/components/DataEventsProvider.tsx:159-203 | the mount effect opens the stream with nothing pending |
| DataEventsProviders.DataEventsProvider.IsEchoSuppressed | src/components/DataEventsProvider.tsx:81-89 | the verdict of the stored window, and the entry deleted once it has passed |
| DataEventsProviders.DataEventsProvider.FlushPending | src/components/DataEventsProvider.tsx:114-124 | a hidden tab only disarms; a visible one takes the whole map and drains it |
| DataEventsProviders.DataEventsProvider.DispatchAll | src/components/DataEventsProvider.tsx:126-152 | the loop settles every payload in order, rechecking and purging its entity |
| DataEventsProviders.DataEventsProvider.OnDataChange | src/components/DataEventsProvider.tsx:174-190 | malformed frames and echoes are dropped; another frame replaces its entity's payload and, if visible and unarmed, arms the timer 500 ms ahead |
| DataEventsProviders.DataEventsProvider.SetPending | src/components/DataEventsProvider.tsx:181-181 | an entity keeps its place in the map and its payload is replaced; a new one goes last |
| DataEventsProviders.DataEventsProvider.OnError | src/components/DataEventsProvider.tsx:192-200 | the stream is dropped, a reconnect armed after the current delay, the delay doubled up to a minute |
| DataEventsProviders.DataEventsProvider.ReconnectFires | src/components/DataEventsProvider.tsx:164-167 | the timer's `connect` opens exactly one stream |
| DataEventsProviders.DataEventsProvider.OnVisibilityChange | src/components/DataEventsProvider.tsx:206-214 | a shown tab with something pending flushes at once, its timer gone |
| DataEventsProviders.DataEventsProvider.Cleanup | src/components/DataEventsProvider.tsx:217-224 | unmounting closes the stream and drops both timers |
| AccountTree.FoldIgnoresOrder | src/components/AccountHierarchy.tsx:239-244 | the roll-up of a list of figures depends only on how often each occurs, dates and counts included |
| AccountTree.AggregateUnreviewed | src/components/AccountHierarchy.tsx:125-131 | the recursive count is the number to review over the account and all below it |
| AccountTree.FiguresOfTheSubtree | src/components/AccountHierarchy.tsx:197-266 | over an account and all below it: the dollar balance (or the plain one where there is none) and the reconciled amount added up with the user's sign reversal, the transactions to review, and a reconcile date that is null exactly when none has one and else the latest any of them has |
| AccountTree.DeriveNode | src/components/AccountHierarchy.tsx:209-266 | the accumulating code gives those five figures for the account's own subtree |
| AccountTree.DeriveTree | src/components/AccountHierarchy.tsx:203-269 | and for every account of the forest, in order |
| AccountSort.SortLevelIsStableSort | src/components/AccountHierarchy.tsx:139-150 | one level comes out by name in the locale, or by balance from large to small, as a permutation, ties in their old order |
| AccountSort.StableSortIsUnique | src/components/AccountHierarchy.tsx:140-150 | ordered, a permutation and ties kept leave one possible list, so whichever stable sort the engine has gives this one |
| AccountSort.SortOnlyPermutesSiblings | src/components/AccountHierarchy.tsx:139-155 | sorting only permutes siblings, at every level of the tree |
| AccountSort.SortChangesNoFigures | src/components/AccountHierarchy.tsx:139-155 | sorting first changes no derived figure of any account |
| AccountFilter.KeptIffMatchBelow | src/components/AccountHierarchy.tsx:279-303 | an account survives exactly when some descendant-or-self, reached without crossing a hidden account, matches the text and passes To Review |
| AccountFilter.TextMatchIs | src/components/AccountHierarchy.tsx:277-290 | an account matches when the trimmed, lower-cased text stands somewhere in its lower-cased name, which includes an empty text |
| AccountFilter.FilterKeepsExactly | src/components/AccountHierarchy.tsx:271-308 | the filtered tree lists exactly the accounts with no hidden one from the root down and a match at or below, in order, figures untouched |
| AccountFilter.DeriveRollsUp | src/components/AccountHierarchy.tsx:125-131 | no derived account has a smaller unreviewed count than one of its children, which is what the filter needs |
| AccountFilter.ShownAccounts | src/components/AccountHierarchy.tsx:550-552 | the previous two for the tree the component really filters: sorted, then rolled up |
| AccountFilter.FilterIsClean | src/components/AccountHierarchy.tsx:279-303 | in the result nothing is hidden, everything passes To Review, and every leaf matches the text itself |
| AccountFilter.FilterTwiceIsOnce | src/components/AccountHierarchy.tsx:271-308 | filtering a filtered tree changes nothing |
| AccountExpansion.FindAncestorPathIsExact | src/components/AccountHierarchy.tsx:157-166 | with unique guids, null exactly for an absent target, otherwise the one list of its proper ancestors from the root |
| AccountExpansion.VisitDefaults | src/components/AccountHierarchy.tsx:170-178 | the recursive visit adds exactly the parents above the depth limit |
| AccountExpansion.BuildExpandedDefaults | src/components/AccountHierarchy.tsx:168-181 | the record holds exactly the parents at depth below `expandToDepth` |
| AccountExpansion.ApplyManualExpanded | src/components/AccountHierarchy.tsx:183-195 | a manual entry overrides the default of its guid, whichever way, and no other |
| AccountExpansion.MarkPath | src/components/AccountHierarchy.tsx:1125-1131 | every account on the path becomes manually expanded, all other entries stay |
| AccountExpansion.VisibleUpToDepth | src/components/AccountHierarchy.tsx:558-561 | with no manual overrides and no filter the visible accounts are exactly those at depth at most the limit |
| AccountExpansion.FilteringShowsEverything | src/components/AccountHierarchy.tsx:558-561 | while a text or To Review filters, every account of the tree is visible, whatever was toggled |
| AccountExpansion.TogglesOverrideDepth | src/components/AccountHierarchy.tsx:558-561 | otherwise a toggled account is as toggled and any other is expanded exactly as a parent above the depth limit |
| AccountExpansion.FocusRevealsTarget | src/components/AccountHierarchy.tsx:1120-1133 | marking the ancestors found in the raw tree makes a target that survives the filter visible in the sorted, derived, filtered table, under any default and any earlier toggles |
| Rounding.RoundedSum | src/lib/validation.ts:193-197 | rounding two amounts and rounding their sum differ by at most one unit, and by none exactly when the residues do not spill over |
| Rounding.RoundedOpposites | src/lib/validation.ts:193-197 | an amount and its negation round to opposite numbers unless the amount is a half, and then are off by one |
| Rounding.RoundIsNearest | src/lib/validation.ts:193-197 | the rounded number is within half a unit, above at a half, and the amount itself when that is whole |
| InlineSave.KeptFractionsAreVerbatim | src/components/AccountLedger.tsx:123-134 | stored fractions survive an untouched side exactly when neither stored denominator is zero |
| InlineSave.UntouchedSaveIsVerbatim | src/components/AccountLedger.tsx:181-225 | an edit of neither amount nor transfer sends both stored splits back with their fractions, guids, accounts, states and memos |
| InlineSave.SharesNeverRecomputed | src/components/AccountLedger.tsx:820-833 | a stored share or foreign-currency transaction is sent with the fractions of its own and other split verbatim, or handed to the full editor, and that exactly on a money change |
| InlineSave.EverySplitIsSentIff | src/components/AccountLedger.tsx:805-810 | an untouched save sends every stored split verbatim if and only if there are exactly the two and no trading split |
| InlineSave.SidesAreNotTrading | src/components/AccountLedger.tsx:806-810 | the own and the other side are stored splits without the trading prefix, and missing only if there is none |
| InlineSave.FoundSplitIsFirst | src/components/AccountLedger.tsx:809-810 | and each is the first such split of the list |
| InlineSave.FullEditorIff | src/components/AccountLedger.tsx:820-833 | the full editor is opened if and only if a stored transaction with a quantity unlike its value has its structure, amount or transfer changed; otherwise the two-split or the claimed payload is sent |
| InlineSave.SentIdentity | src/components/AccountLedger.tsx:204-225 | both sides go to the accounts of the edit; a guid is kept as long as the split stays on its account, memo likewise, and a reconcile state as long as neither amount nor account moved |
| InlineSave.NewRowCarriesTheAmount | src/components/AccountLedger.tsx:136-152 | a new row sends the typed amount on the own side and its negation on the other, in cents, to the nearest cent and exactly when whole, with no guid |
| InlineSave.EditedPairCarriesTheAmount | src/components/AccountLedger.tsx:136-152 | after an amount edit on currency splits the own numerator is within half of amount times its denominator, the other one within half of minus that, and equal when the product is whole |
| InlineSave.SharesKeepTheirQuantity | src/components/AccountLedger.tsx:138-145 | a share or foreign quantity is left as stored while the value follows the amount |
| InlineSave.EditedAmountsBalance | src/components/AccountLedger.tsx:136-152 | after an amount edit on currency splits each side carries the typed amount with its sign to the nearest unit, the two values cancel up to half a unit of each denominator, and entirely when the amount is exact at both |
| InlineSave.EqualDenominatorsBalanceIffNotHalf | src/components/AccountLedger.tsx:136-152 | at one common denominator they cancel if and only if the amount is not half a unit |
| InlineSave.ClaimsAreOneToOne | src/components/AccountLedger.tsx:840-846 | a suggestion claims a prior split of its own account, no prior split is claimed twice, and there is a claim exactly while the account has prior splits left |
| InlineSave.ClaimCount | src/components/AccountLedger.tsx:840-846 | per account the number claimed is the smaller of its prior and its suggested splits |
| InlineSave.ClaimedPayloadCarries | src/components/AccountLedger.tsx:841-858 | each suggestion is sent to its account with its amount to the nearest cent, the claimed split's memo, and the claimed split's state only together with its guid |
| InlineSave.IntactIs | src/components/AccountLedger.tsx:847-848 | the same amount means less than half a cent apart, whatever the prior denominator |
| InlineSave.SentGuidsAreSound | src/components/AccountLedger.tsx:847-857 | payload guids are distinct, and each names a prior split of that account within half a cent of the suggested amount |
| InlineSave.KeepsGuidIff | src/components/AccountLedger.tsx:840-857 | suggestion j is sent under the guid of prior split k if and only if both lie on one account, have the same rank there, and differ by less than half a cent |
| InlineSave.SameSplitsKeptIff | src/components/AccountLedger.tsx:836-857 | every suggestion that has a prior split of the same account and amount keeps a guid if and only if each of them finds that amount at its own rank |
| InlineSave.ReorderedSuggestionsLoseTheirSplits | src/components/AccountLedger.tsx:836-848 | the failing input of that: two suggestions in the other order keep neither guid |
| InlineSave.FindUnclaimed | src/components/AccountLedger.tsx:843-845 | the search finds the account's first unclaimed prior split, which is the one of the next rank |
| InlineSave.ClaimPriors | src/components/AccountLedger.tsx:840-859 | the claim loop with its set of claimed guids sends exactly the rank-by-rank pairing |
| Paging.StablePagingIsExact | src/components/AccountLedger.tsx:2171-2197 | over a stable duplicate-free list, after a arrivals exactly the first 100 * (a + 1) rows are loaded in order, however requests begin, fail and arrive, and `hasMore` drops exactly at the page that completes the list |
| Paging.PagingTerminates | src/components/AccountLedger.tsx:2171-2197 | |list| / 100 answered requests after a reset load the whole list and end paging |
| Paging.OneRequestInFlight | src/components/AccountLedger.tsx:2171-2177 | in every run, reloads, inserts and deletions included, `loading` holds exactly while a page is in flight, and a page is asked for, at the offset, exactly when none is and more is left |
| Paging.HeadInsertsKeepAPrefix | src/components/AccountLedger.tsx:685-701 | while rows are inserted only at the head, and no more of them than the offset of each page served, what is loaded is a duplicate-free prefix of the list as it was at the reset, and all of it at the end |
| Paging.PrefixIffServedInTime | src/components/AccountLedger.tsx:2184-2189 | a page keeps the prefix if and only if no more rows than its offset were inserted when it was served |
| Paging.PrefixIffArrivalsInTime | src/components/AccountLedger.tsx:2171-2197 | over any run with rows inserted at the head the loaded rows are a prefix of the list as it was at the reset if and only if every page that arrived was served in time; late pages that failed do no harm |
| Paging.SkippedForGood | src/components/AccountLedger.tsx:2184-2190 | a row before the offset that is not loaded is never brought in by any amount of paging |
| Paging.DeletionIsSafeIffBehindTheFrontier | src/components/AccountLedger.tsx:2184-2190 | at any moment, a request in flight included, deleting a row elsewhere leaves paging exact if and only if the row lies behind the offset and behind the page already answered |
| Paging.DeletionSkipsTheNextRow | src/components/AccountLedger.tsx:2189-2190 | otherwise the next row to load stays out until a reload |
| Paging.DeletionSkipsBehindThePendingPage | src/components/AccountLedger.tsx:2184-2190 | and with an answered page in flight, the first row behind that page |
| Paging.ReloadIsSafeIffNothingBeyondIsPending | src/components/AccountLedger.tsx:686-701 | a reload starts over cleanly if and only if no page beyond the first is in flight |
| Paging.LatePageLeavesAHole | src/components/AccountLedger.tsx:2184-2190 | otherwise the late page is appended behind the first one and the rows between are never loaded |
| PagedLedgers.FirstOccurrencesAreTheRows | src/components/AccountLedger.tsx:2090-2101 | deduplicating keeps every guid once and changes nothing in a duplicate-free list |
| PagedLedgers.PagedLedger.ReplaceInitial | src/components/AccountLedger.tsx:2090-2101 | the loop over the new initial rows resets rows, offset and `hasMore` to the deduplicated list |
| PagedLedgers.PagedLedger.FetchTransactions | src/components/AccountLedger.tsx:685-701 | a first page replaces rows, offset and `hasMore`; a failure changes nothing |
| PagedLedgers.PagedLedger.BeginFetchMore | src/components/AccountLedger.tsx:2171-2177 | nothing is sent while loading or complete; otherwise the current offset, with `loading` set |
| PagedLedgers.PagedLedger.CompleteFetchMore | src/components/AccountLedger.tsx:2179-2196 | unseen rows are appended, the offset grows by the whole page, a short page ends paging, `loading` is released on every path |
| PagedLedgers.PagedLedger.FilterFresh | src/components/AccountLedger.tsx:2185-2186 | the filter keeps exactly the rows not yet shown, in order |
| Decimal.AcceptsExactlyTheGrammar | src/components/ReconciliationPanel.tsx:84-94 | `toMinorUnits` accepts exactly the decimals with at most `scale` fraction digits, and its result is the exact value times 10^scale |
| Decimal.PrintedIsReadBack | src/components/ReconciliationPanel.tsx:97-99 | it inverts the fixed-point printer for every integer and every scale |
| Decimal.ShownIsParsed | src/components/ReconciliationPanel.tsx:86-89 | each decimal is read with its own sign, whole and fraction digits |
| Decimal.DecimalPlacesForScu | src/lib/reconcile.ts:62-67 | the division loop finds the number of places |
| Decimal.PlacesOfPowers | src/lib/reconcile.ts:62-67 | k places exactly for a unit of 10^k, none for any other |
| Decimal.ServerAgreesIffTrimmed | src/lib/reconcile.ts:69-79 | the server's parser agrees with the panel's on every string, except that it refuses what the panel would trim |
| Reconciling.NotFoundIffSomeMissing | src/lib/reconcile.ts:315-323 | comparing counts refuses exactly the requests that name a split that does not exist |
| Reconciling.RefusedForTheFirstFault | src/lib/reconcile.ts:303-355 | a selection passes exactly when every split exists, is of the account, is open, is posted by the statement's day and is a whole number of units; else it is refused for the first of these that fails |
| Reconciling.UnitsAreExact | src/lib/reconcile.ts:81-87 | a split counts as n units exactly when n times its denominator is its numerator times the unit |
| Reconciling.FinishesIff | src/lib/reconcile.ts:355-400 | a session finishes exactly when the selection passes, the balance is exact, the statement is readable and the two tie out or an adjustment is asked for and possible |
| Reconciling.RefusedBecause | src/lib/reconcile.ts:355-400 | and else names the first thing in the way |
| Reconciling.AcceptedSelection | src/lib/reconcile.ts:303-353 | what passes the checks exists, is of this account and not yet reconciled |
| Reconciling.FinishedSessionTiesOut | src/lib/reconcile.ts:355-436 | a finished session leaves the reconciled balance at the statement's ending balance in minor units, with or without an adjustment |
| Reconciling.FinishedSessionTouchesOnlyTheSelection | src/lib/reconcile.ts:378-436 | it changes nothing but the state of the selected splits, and adds splits exactly for a difference |
| Reconciling.OtherBalancesStay | src/lib/reconcile.ts:410-436 | no other account's reconciled balance moves, the imbalance account's included |
| Reconciling.AdjustmentBalances | src/lib/reconcile.ts:410-425 | the two splits of an adjustment cancel, the open one is the imbalance account's, and both bear the statement's date |
| Reconciling.BalanceIsTheLastStatement | src/lib/reconcile.ts:250-436 | after any sequence of sessions on an account, finished or refused, its reconciled balance is the last statement it was finished with |
| Reconciling.NoSplitIsReconciledTwice | src/lib/reconcile.ts:334-341 | no split is reconciled by two sessions, whatever sessions come between |
| Reconciling.SplitTable.FinalizeReconciliation | src/lib/reconcile.ts:250-436 | the checks in their order, the adjustment, the marking; a refusal leaves the table as it was |
| Reconciling.SplitTable.SumOf | src/lib/reconcile.ts:355-355 | the reduce is the sum of the selected units |
| ReconcileRows.ToggleTwiceIffWholeOrNone | src/lib/reconciliation-selection.ts:32-41 | toggling a row twice restores the selection unless the row was selected in part |
| ReconcileRows.ToggleSelectsOrClears | src/lib/reconciliation-selection.ts:27-41 | a toggle takes the row's open splits out if all were selected, puts them in if one was missing, and leaves every other split alone |
| ReconcileRows.OnlyOpenSplitsAreSelected | src/lib/reconciliation-selection.ts:23-47 | however rows are toggled, selected and cleared, only splits shown as not yet reconciled are selected; selecting all takes every one of them |
| ReconcileRows.RowTurnsReconciledIff | src/components/AccountLedger.tsx:641-657 | a row turns 'y' exactly when the session took one of its splits and left none of them open |
| ReconcileRows.SplitsAfterReconcile | src/components/AccountLedger.tsx:642-655 | the row shows the same splits afterwards, the selected ones as 'y', legacy single-split rows included |
| ReconcileRows.OtherSplitsAreMarked | src/components/AccountLedger.tsx:642-657 | the full list of the row's splits is marked along with its own, and nothing else of the row changes |
| ReconcileRows.SingleSplitRow | src/lib/reconciliation-selection.ts:13-23 | a row with only the old single-split fields selects, counts and turns with that one split |
| ReconcileRows.StateStillAgrees | src/components/AccountLedger.tsx:653-655 | a row whose state says whether all its splits are reconciled still does so afterwards |
| ReconcileRows.LedgerStillMirrorsTheTable | src/components/AccountLedger.tsx:636-660 | the local update leaves the ledger showing what the server's table holds after the session |
| ReconcileRows.SelectedBalanceIsTheServers | src/lib/reconciliation-selection.ts:49-57 | the selected balance summed over the rows is the one the server computes from its table |
| ReconcileRows.ReconcileLedger.Toggle | src/lib/reconciliation-selection.ts:32-41 | the loop of deletes or adds gives the toggled selection |
| ReconcileRows.ReconcileLedger.HandleReconcileComplete | src/components/AccountLedger.tsx:636-660 | the loops over rows and splits leave every row showing its splits with the selected ones reconciled, a row reconciled exactly when the session completed it, the selection empty and the session closed |
| ReconcilePanels.DifferenceIsExact | src/components/ReconciliationPanel.tsx:97-103 | the difference of three parsed strings is the exact integer difference: the printed balances are never refused or rounded |
| ReconcilePanels.PostsIff | src/components/ReconciliationPanel.tsx:105-118 | the selection, the typed balance and the wish to record a difference go out as they are, exactly when something is selected, the balance is readable, and it ties out or the difference is to be recorded; else the first of these that fails is named |
| ReconcilePanels.GateAgreesWithServer | src/components/ReconciliationPanel.tsx:84-118 | for every positive unit, with the ledger in step and a selection the server accepts, the panel posts exactly what the server fulfils, as it stands, but for an empty selection, an untrimmed balance, and a unit that is no power of ten |
| ReconcilePanels.ScaleOfPower | src/components/ReconciliationPanel.tsx:84-84 | the rounded logarithm of a unit of 10^k is k |
| ReconcilePanels.PanelPostsOddUnits | src/components/ReconciliationPanel.tsx:84-118 | for a unit that is no power of ten the panel still posts every readable statement it is told to record, while the server refuses every request |
| ReconcilePanels.TypedBalanceSurvives | src/components/ReconciliationPanel.tsx:63-82 | from the opening of a session the field holds what the user last typed, whatever renders and balances follow; untouched, the first balance that became known; else nothing |
| ReconcilePanels.ReconciliationPanel.AfterRender | src/components/ReconciliationPanel.tsx:63-82 | the two effects reset a new session and apply the bank balance at most once, never over a typed one |
| ReconcilePanels.ReconciliationPanel.BeginFinish | src/components/ReconciliationPanel.tsx:105-121 | the three refusals in order, each with its error and nothing else changed; otherwise the request, saving |
| InvestmentSplits.BuildInvestmentSplits | src/components/InvestmentTransactionForm.tsx:87-246 | for every account the pushed splits add up to what was entered for it, in sign and to the cent, and to the share unit on the stock account; all values are cents and their sum is what rounding a trade's two parts separately adds or loses |
| InvestmentSplits.SplitsMoveAsEntered | src/components/InvestmentTransactionForm.tsx:87-246 | per action, with distinct accounts: a buy brings shares and total to the stock account, commission to expense and takes both from cash, a sell the reverse, a dividend moves income to cash, a return of capital stock to cash, a stock split only shares; every other account gets nothing |
| InvestmentSplits.SubmittedAsEntered | src/components/InvestmentTransactionForm.tsx:489-502 | an accepted form is sent with the numbers and accounts entered in it |
| InvestmentSplits.ErrorsAreTheBrokenRules | src/components/InvestmentTransactionForm.tsx:421-487 | an error is reported exactly when its rule is broken, rule by rule: which actions it concerns and which fields break it; text that is no number breaks no positivity rule but the total's |
| InvestmentSplits.ValidateForm | src/components/InvestmentTransactionForm.tsx:421-487 | the form passes if and only if it breaks no rule |
| InvestmentSplits.AcceptedTrade | src/components/InvestmentTransactionForm.tsx:427-455 | what acceptance tells: shares not negative, a positive total, an expense account for a positive commission, no oversell |
| InvestmentSplits.TradeImbalance | src/components/InvestmentTransactionForm.tsx:107-175 | the value sum of a buy or sell is the rounded parts, commission included, less their rounded total |
| InvestmentSplits.SimpleActionsBalance | src/components/InvestmentTransactionForm.tsx:177-242 | dividends, returns of capital and stock splits are in cents and sum to zero in value whatever the input |
| InvestmentSplits.TradeBalancesIff | src/components/InvestmentTransactionForm.tsx:107-175 | with a non-negative commission a buy or sell is off by at most one cent, and by none exactly when the rounding residues of its two parts do not spill over |
| InvestmentSplits.AcceptedTradeBalancesIff | src/components/InvestmentTransactionForm.tsx:107-175 | what the form accepts sums to zero, at whole cents, if and only if the commission is not negative |
| StockPositions.GuardInUnits | src/components/InvestmentTransactionForm.tsx:446-449 | the guard refuses exactly more than half a unit above the units held, and a short position counts as nothing held |
| StockPositions.FormStaysNonNegativeIff | src/components/InvestmentTransactionForm.tsx:446-455 | an accepted form keeps the position from going negative except when it sells exactly half a unit over, and then it ends at -1 |
| StockPositions.InlineGuardInUnits | src/components/AccountLedger.tsx:1043-1058 | an edited sell counts as available again, an edited buy stays counted |
| StockPositions.InlineStaysNonNegativeIff | src/components/AccountLedger.tsx:1043-1073 | an inline save keeps the position from going negative if and only if its shares meet a guard: none for a new sell or a sell edited into another, off the grid too; for a buy edited into a sell, half a unit over what is held without it; for an edit into a buy, half a unit under what is missing |
| StockPositions.NeverNegativeIffCareful | src/components/AccountLedger.tsx:1043-1073 | over any run of form entries and inline edits the position never goes negative if and only if every accepted step meets those two conditions |
| StockPositions.GridRunNeverNegative | src/components/InvestmentTransactionForm.tsx:446-455 | with shares on the commodity grid and no edit of a buy, no run ever goes negative |
| StockPositions.HalfUnitSellsDrift | src/components/InvestmentTransactionForm.tsx:446-449 | once nothing is held, n sells of half a unit are all accepted and take n whole units |
| StockPositions.BuyEditedIntoSellGoesShort | src/components/AccountLedger.tsx:1048-1051 | a lone buy of any size may be edited into a sell of that size, which leaves the account short by it |
| StockPositions.InlinePairBalancesIff | src/components/AccountLedger.tsx:1067-1074 | the two inline values cancel unless the total is half way between two cents, and then are off by one |
| StockPositions.InlineMovesAsEntered | src/components/AccountLedger.tsx:1067-1078 | an inline buy brings shares and total to the stock account against the transfer account, a sell the reverse, each to the nearest unit |
| StockPositions.StockAccount.Submit | src/components/InvestmentTransactionForm.tsx:504-519 | validation, then the splits of an accepted form added to the holdings; a refused form changes nothing |
| StockPositions.StockAccount.SaveInline | src/components/AccountLedger.tsx:1033-1073 | the guard, then the new quantity in place of the edited one or behind the others |

## Left out

- `drain`, the in-flight promise set of the registry, BullMQ, Redis, Prisma and process exit: environment.
- What a sync, a price refresh or a named job does: a task that ends, well or badly.
- One registry for both schedulers, and the startup recovery loops that call `setSchedule`: they would add only calls of modelled operations.
- The React Query invalidations inside `flush`: fixed key lists with no condition to prove.
- Remounting the provider within one page, where the cleared flush timer's reference is still set: the model ends at unmount.
- Labels, formatting and per-commodity balances of derived accounts: copied or printed, never combined.
- The optimistic rows the ledger shows while a save is pending: undone or replaced by a reload.
- A reset answered later than it was sent, and a page requested between a filter change and its first answer: a reload is one step here.
- The request's date, currency and description fields, and the server side of inline saves: passed through.
- Memos of investment splits and the messages of form errors: text only.
- Number parsing by `parseFloat`: a field is blank, not a number, or an exact number; only finite amounts reach an inline save, and an inline investment save is taken with numeric shares and total.
- Deleting an investment transaction: no guard exists in the modelled code, so the position may go anywhere.
- Locking, sessions and the bump of `enter_date` in `finalizeReconciliation`: one finalize is one atomic step, as its advisory lock and database transaction make it.
- A share adjustment is refused like any impossible adjustment; the two causes are one flag here.
- The adjustment row is not added to the ledger by the local update either; it appears with the next reload.
- SimpleFinTiming.FirstTickInWindow: adds the time a rebuild takes between clearing and arming to the upper bound, because a first tick that falls into that gap is cleared and armed again; last sync and cadence are those read until the first tick.
- InlineSave.EditedAmountsBalance: counts the difference in units of one over the product of the denominators, which is the promised half unit of each without division.
- Drag and resize of the panel, the investment form's calculated field, keyboard handling, toasts and all markup: presentation.
