# Habit tracker: verified model

A Dafny model of the parts of a habit-tracking backend where state, time and
money interact, with proofs about every run of their operations. One account is
modelled at a time, except for webhooks, where the store holds every account.
Each database transaction is one atomic step, except in the two concurrency
models (`Purchases`, `WebhookRaces`), where the statements of different
transactions interleave.

| file | what it models |
|---|---|
| `Streaks.dfy` | runs of consecutive days: the reward engine's walk, its cycle check, the analytics scan and the profile scan |
| `Progression.dfy` | experience and levels |
| `Schedule.dfy` | which days a habit expects; Monday weeks and account weeks |
| `Ledger.dfy`, `LedgerKeys.dfy` | the append-only coin ledger, one-shot reversals, and the text of milestone keys |
| `Completions.dfy` | the completion row state machine, the reward engine, the daily plan, shop, freezes and repair as functions on one state |
| `HabitStore.dfy` | the same services as a class whose methods write the tables step by step, each proved equal to its function |
| `CompletionAnswers.dfy` | what one toggle, award, plan step or purchase answers, told from its inputs and stored fields |
| `RewardLaws.dfy`, `BaseAwards.dfy`, `Milestones.dfy`, `Farming.dfy`, `DayRuns.dfy` | what every run keeps: balances, base awards, streak bonuses, and what toggling one day can earn |
| `Scenarios.dfy` | runs from a new account on which a property of the rewards fails, and who may still win on an archived habit |
| `Purchases.dfy` | debit-first purchases under every interleaving of their statements |
| `Stacks.dfy` | the habit stacking graph and its bounded cycle check |
| `Budgets.dfy`, `BudgetBook.dfy`, `BudgetAnswers.dfy` | choosing the budget of an expense; every write to budgets and expenses, and what each answers |
| `Subscriptions.dfy` | lazy, time-driven expiry with cancel, resume and activation |
| `Webhooks.dfy`, `WebhookService.dfy`, `WebhookAnswers.dfy`, `WebhookRaces.dfy`, `ChargeLaws.dfy`, `EventLaws.dfy` | payment webhooks: dedupe gate, handlers, what each delivery answers, concurrent deliveries, applied charges, and access over runs of events |
| `Analytics.dfy`, `AnalyticsAnswers.dfy`, `Adaptive.dfy` | completion rates and weekday buckets; adaptive proposals |

Conventions. Day keys (`YYYY-MM-DD`) are integers, so their lexicographic order
is numeric order. Instants are milliseconds. Money and rates are exact reals
where the source uses floats, and integers elsewhere. A ledger entry's id is its
index, so "latest by creation time and id" is "last appended". A caught unique
violation writes nothing and continues, as the handlers are written. Pure
functions specify; where the source changes rows step by step, a method with the
same steps is proved to leave the state its function names, and the `Answers`
lemmas say what that state is in terms of the call's inputs and the stored
fields, with amounts and thresholds written out.

Where the code and its own comments differ, the model follows the code:

- `computeCurrentStreak` says the cycle start equals the end date on a streak of
  0; the code returns the day after (`src/core/utils/streak-milestone.utils.ts:6`, `:31`).
- `findReversibleAward` says it finds an unreversed award; it finds the latest
  one of the kind, reversed or not, and the unique index makes the second
  reversal a no-op (`src/module/rewards/rewards.service.ts:134-148`).
- A create that names a stack target passes it as both arguments of the cycle
  check and is always rejected (`src/module/habit/habit.service.ts:277-282`).

Properties that fail, each with the condition under which it holds and an input
on which it does not:

- Reversal takes back only broken bonuses. It takes back a bonus exactly when its
  cycle is broken or a day of it is unprotected and has 400 later completed days,
  the engine's window (`ReversalExactly`); any longer unbroken history loses its
  first bonus when its last day is toggled off (`WindowForgets`). No bonus that
  counts is ever left with a broken cycle, at any length (`RunKeepsCycles`).
- Every bonus that counts keeps its cycle. A daily-plan deletion keeps that
  exactly if the day was not completed, is frozen, or is needed by no bonus
  (`PlanUncompleteExact`, `PlanRemoveExact`); a four-day run breaks it
  (`PlanDropLeavesBonus`).
- Archived habits receive no new wins. A toggle wins on an archived habit exactly
  when the day has a row and the call names a value or kind that succeeds, and the
  daily plan wins on every existing habit (`ArchivedToggleWins`,
  `ArchivedPlanWins`, `ArchivedHabitWins`).
- An expense whose day a budget covers is linked. It is left unlinked exactly when
  no budget covering its day spans its instant (`UnlinkedThoughCovered`,
  `LastDayMissed`).
- A cancel keeps the row's own access. Under an admin or free-access override it
  does exactly when the stored fields gave the paid period's access already
  (`OverrideCancelKeepsAccess`); a cancelled expired trial grants access for ever
  (`OverrideCancelRevives`).
- The end of renewal keeps access until the paid period ends. The same stored
  fields decide (`StopKeepsAccess`); a disabled trial never ends
  (`DisabledTrialNeverEnds`).
- A charge is applied once. A charge applied before is applied again exactly when
  its webhook's key is new, its payment is known, and another charge of the owner
  was applied last (`AppliedAgainExactly`, `AppliedTwice`).
- Reads are invisible. They are to later reads, and to a failed-payment event
  unless the read expired an active row and there is a grace period
  (`ReadBeforeFailure`, `ReadLosesGrace`).
- No more is completed than expected. On a weekly quota this holds exactly when
  the past days done stay within the pro-rated quota (`CompletedWithinExpected`,
  `QuotaExceeded`).
- A committed purchase is the service's own call on the committed state. It is
  exactly when the checks made at its start still hold there
  (`CommitIsServiceCall`); a freeze can be charged for a day completed meanwhile
  (`FreezeOfCompletedDay`).

## Model

| member | source | states |
|---|---|---|
| `Streaks.ComputeCurrentStreak` | src/core/utils/streak-milestone.utils.ts:15-32 | The backward walk returns the maximal run of completed or frozen days ending on the day, up to the 3650 valve, and the first day of what it counted |
| `Streaks.IsMilestoneCycleIntact` | src/core/utils/streak-milestone.utils.ts:39-52 | True exactly when every day of the cycle is completed or frozen |
| `Streaks.RunUnique` | src/core/utils/streak-milestone.utils.ts:25-31 | A block that ends on the day and cannot be extended backwards is the run: the specification admits one length |
| `Streaks.ReachedMilestoneIsIntact` | src/core/utils/streak-milestone.utils.ts:39-52 | Every milestone not above the streak passes the cycle check at the streak's own start, valve included |
| `Streaks.StreakMonotone` | src/core/utils/streak-milestone.utils.ts:10-14 | Completing or freezing more days never shortens the streak |
| `Streaks.LongestStreakFromDates` | src/core/utils/behavior-analytics.utils.ts:234-245 | On strictly ascending days the result is attained by some block of consecutive days and exceeded by none |
| `Streaks.CalculateLongestStreak` | src/core/utils/streak.utils.ts:11-49 | The profile's deduplicate, sort and gap scan returns the longest block for any order and repetition |
| `Streaks.LongestStreaksAgree` | src/core/utils/streak.utils.ts:27-49 | The analytics scan and the profile scan agree on any reordering, with repetitions, of the same days |
| `Streaks.CurrentStreakFrom` | src/core/utils/behavior-analytics.utils.ts:253-267 | The analytics walk is the run ending today, or yesterday when today is open, up to the valve |
| `Streaks.CurrentWithinLongest` | src/core/utils/behavior-analytics.utils.ts:253-267 | For every today the current streak is at most the longest one |
| `Progression.AddExperience` | src/module/profile/profile.service.ts:151-177 | The update loop leaves the specified profile, experience below the level's need and a level never lower |
| `Progression.AddXpKeepsShape` | src/module/profile/profile.service.ts:159-167 | Any amount, negative included, leaves 0 <= xp < needed and never lowers the level |
| `Progression.RemovalStaysInLevel` | src/module/profile/profile.service.ts:151-167 | A removal takes its amount down to zero and leaves the level |
| `Progression.AddXpConserves` | src/module/profile/profile.service.ts:159-167 | A non-negative addition raises cumulative experience 100(l-1) + 25(l-1)(l-2) + xp by exactly its amount |
| `Progression.CumulativeInjective` | src/core/utils/progression.utils.ts:5-7 | Well-formed profiles with equal cumulative experience are equal |
| `Progression.CalculateLevelFromTotalXp` | src/core/utils/progression.utils.ts:9-23 | The loop splits a total into a level and a remainder below its need, with the same cumulative experience |
| `Progression.FoldIsLevelFromTotal` | src/module/profile/profile.service.ts:151-177 | Adding any list of non-negative amounts from level 1 ends where the level table puts their sum |
| `Schedule.CountScheduledDays` | src/core/utils/schedule.utils.ts:69-80 | The loop lists the scheduled days of the window, latest first |
| `Schedule.ScheduledDaysExact` | src/core/utils/schedule.utils.ts:69-80 | The list holds exactly the scheduled days of the window, strictly descending, so none twice |
| `Schedule.NamedDays` | src/core/utils/schedule.utils.ts:45-50 | On named weekdays, each day of any Monday week is scheduled exactly when its own name, Mon to Sun, is listed, or none is |
| `Schedule.IntervalDays` | src/core/utils/schedule.utils.ts:51-60 | An interval habit is due exactly on its anchor, 2026-01-01 without one, and every n days after it; below 2, every day |
| `Schedule.IntervalWindow` | src/core/utils/schedule.utils.ts:51-60 | Any window of w days on or after the anchor of an every-n-days habit has floor(w/n) or ceil(w/n) scheduled days, exactly w/n when n divides w |
| `Schedule.MondayWeeksTile` | src/core/utils/week.utils.ts:27-42 | A day's Monday week contains it and exactly the days that share the week; the previous range is that of seven days earlier |
| `Schedule.UserWeeksTile` | src/core/utils/week.utils.ts:100-121 | Account weeks tile the days from creation on and are numbered consecutively from 1 |
| `Ledger.PostKeepsSound` | src/module/rewards/reward-engine.service.ts:439-466 | A new entry with its balance update keeps the balance equal to the ledger sum and every one-shot source unique |
| `Ledger.ReverseOnceKeepsSound` | src/module/rewards/reward-engine.service.ts:408-436 | Reversing an entry once, or finding it already reversed, keeps the ledger sound |
| `Ledger.ReverseBrokenExact` | src/module/rewards/reward-engine.service.ts:204-224 | The loop over a habit's streak bonuses reverses exactly those whose cycle is broken, besides those reversed before |
| `Ledger.ClaimAllExact` | src/module/rewards/reward-engine.service.ts:268-289 | Claiming a list of keyed bonuses adds each key not yet in the ledger once and no other row |
| `LedgerKeys.StreakKeyRoundTrips` | src/module/rewards/reward-engine.service.ts:29-47 | A built key parses back to its habit, milestone and start exactly when habit and start are colon-free, and otherwise parses to nothing |
| `LedgerKeys.PrefixFindsOwnHabit` | src/module/rewards/reward-engine.service.ts:209 | The prefix query of one habit matches another habit's key only if the habits are equal |
| `LedgerKeys.KeysAreUnique` | src/module/rewards/reward-engine.service.ts:29-36 | Different streak bonuses have different keys, never equal to an identity key |
| `RewardLaws.AwardKeepsBases` | src/module/rewards/reward-engine.service.ts:116-180 | Awarding a newly completed row gives it its one base award and disturbs no other row's |
| `RewardLaws.WithdrawBase` | src/module/rewards/reward-engine.service.ts:381-405 | Reversing the latest award of the row's kind removes the row's only base award that counts, although the query ignores reversals |
| `RewardLaws.LogKeeps` | src/module/habit/habit.service.ts:481-577 | The create or update path keeps the whole invariant through upgrade, downgrade, kind change and partial log |
| `RewardLaws.ToggleOffKeeps` | src/module/habit/habit.service.ts:449-479 | The removal path keeps the whole invariant |
| `RewardLaws.PlanCompleteKeeps` | src/module/daily-plan/daily-plan.service.ts:262-294 | The daily plan's completion keeps the invariant, over a partial row or none |
| `RewardLaws.PlanDropKeeps` | src/module/daily-plan/daily-plan.service.ts:233-254 | The daily plan's deletion keeps the invariant |
| `RewardLaws.BuyKeeps` | src/module/rewards/reward-shop.service.ts:64-124 | A purchase keeps the invariant; an accepted one leaves a non-negative balance and its item or day taken |
| `RewardLaws.RepairRestores` | src/module/rewards/rewards.service.ts:202-239 | From any drift, the repair makes the ledger sum equal the cached balance and leaves the balance alone |
| `RewardLaws.StepKeepsConsistent` | src/module/habit/habit.service.ts:405-628 | Every operation keeps the invariant that ties balance, ledger, rows and purchases |
| `RewardLaws.ReachableBalances` | src/module/rewards/reward-engine.service.ts:408-466 | In every reachable state the balance is the ledger sum, no entry is reversed twice, no milestone paid twice, no item or day charged twice |
| `CompletionAnswers.ToggleRejects` | src/module/habit/habit.service.ts:405-427 | A toggle is rejected exactly as not found for an unknown habit, as a bad request for a reduced version the habit lacks, and as a conflict for a new row on an archived habit; every other call is accepted |
| `CompletionAnswers.ToggleAnswers` | src/module/habit/habit.service.ts:429-577 | An accepted plain call on an existing row removes it; any other stores the kind given, the value given or else the goal, under the row's old id or a new one, done exactly when the kind is reduced or the value reaches the goal; ten points come and go with a done day, and no other row moves |
| `CompletionAnswers.TogglePays` | src/module/habit/habit.service.ts:481-577 | A toggle that completes a day, or completes it as another kind, leaves a standing base award of that kind's coins, every streak milestone reached and every identity level earned, and adds no other bonus |
| `CompletionAnswers.AwardGrants` | src/module/rewards/reward-engine.service.ts:94-144 | A full, minimum or emergency completion gains a standing base award of 10, 3 or 2 coins, or of the habit's own amount, and none if that is not positive |
| `CompletionAnswers.AwardPaysMilestones` | src/module/rewards/reward-engine.service.ts:244-291 | After a paying award every milestone among 3, 7, 14, 30, 60 and 100 the streak has reached is in the ledger; each new streak row is one of those, for this habit and cycle, at 5, 25, 50, 100, 250 or 500 coins; none is added otherwise |
| `CompletionAnswers.ReachedMilestoneIsPaid` | src/module/rewards/reward-engine.service.ts:244-291 | The same told from days: within the 400-day window, if exactly the last n days are completed or frozen, every milestone up to n is in the ledger for the cycle that starts n days back |
| `CompletionAnswers.AwardPaysIdentities` | src/module/rewards/reward-engine.service.ts:293-379 | After a paying award every level of 15, 50, 125 and 250 points earned by an active identity the habit feeds is in the ledger; each new identity row is one of those, at 20 coins; full completions count two points, reduced ones one |
| `CompletionAnswers.PlanCompletes` | src/module/daily-plan/daily-plan.service.ts:256-294 | A finished task leaves a done day alone and completes an open one at its goal, keeping the row's id and kind, for ten coins and ten points |
| `CompletionAnswers.PlanUncompletes` | src/module/daily-plan/daily-plan.service.ts:296-305 | Leaving COMPLETED removes the row that task wrote and no other, with ten points, and takes back at most one standing base award of the row, for its amount |
| `CompletionAnswers.PlanRemoves` | src/module/daily-plan/daily-plan.service.ts:233-254 | Deleting a task removes the row it wrote; only a completed one takes back its base award and, when asked, ten points |
| `CompletionAnswers.RedeemAnswers` | src/module/rewards/reward-shop.service.ts:60-126 | A redemption is accepted exactly when the item exists, is active, is not owned and the balance covers its cost; it then takes the cost from the balance in one row of minus the cost, adds the item and touches nothing else; each refusal has its error |
| `CompletionAnswers.FreezeAnswers` | src/module/rewards/streak-freeze.service.ts:33-110 | The same for a freeze at 100 coins, for a scheduled day not after today of an unarchived habit, neither done nor frozen |
| `CompletionAnswers.RepairAnswers` | src/module/rewards/rewards.service.ts:202-239 | The repair writes one adjustment of the drift if there is any, and nothing else |
| `BaseAwards.ReachableRowHoldsExactlyOne` | src/module/habit/habit.service.ts:429-628 | In every reachable state a completed row holds exactly one base award that counts, of its current kind and the amount last paid, or none if that was zero |
| `BaseAwards.ReachablePartialHoldsNone` | src/module/habit/habit.service.ts:534-544 | A partial or deleted row holds no base award that counts |
| `Milestones.ReversalRestoresCycles` | src/module/rewards/reward-engine.service.ts:188-227 | Whatever the ledger held, after a reversal every bonus of the habit that counts has its whole cycle completed or frozen |
| `Milestones.ReversalExactly` | src/module/rewards/reward-engine.service.ts:201-224 | A standing bonus is reversed exactly when its cycle is broken or a day of it is unfrozen with 400 or more later completed days |
| `Milestones.ReversalTakesOnlyBroken` | src/module/rewards/reward-engine.service.ts:201-224 | So with at most 400 completed days exactly the broken bonuses are reversed |
| `Scenarios.WindowForgets` | src/module/rewards/reward-engine.service.ts:468-477 | From a new account, after any unbroken run of more than 401 days, toggling the last day off reverses the standing bonus of days 1 to 3, all still completed |
| `Milestones.RunKeepsCycles` | src/module/rewards/reward-engine.service.ts:188-291 | Over every run without daily-plan deletions, every streak bonus that counts has its whole cycle completed or frozen, for histories of any length |
| `Milestones.PlanUncompleteExact` | src/module/daily-plan/daily-plan.service.ts:296-305 | Un-completing a task keeps every bonus justified exactly when the day was not completed, is frozen, or is needed by no bonus |
| `Milestones.PlanRemoveExact` | src/module/daily-plan/daily-plan.service.ts:233-254 | The same condition for deleting a task |
| `Scenarios.PlanDropLeavesBonus` | src/module/daily-plan/daily-plan.service.ts:296-305 | A run from a new account after which un-completing, or deleting, a task leaves a streak bonus standing on a gap |
| `Scenarios.ArchivedToggleWins` | src/module/habit/habit.service.ts:422-427 | On an archived habit an open day is won by a toggle exactly when it has a row and the call names a value or a configured kind that succeeds |
| `Scenarios.ArchivedPlanWins` | src/module/daily-plan/daily-plan.service.ts:256-294 | The daily plan wins an open day exactly when the habit exists, archived or not |
| `Scenarios.ArchivedHabitWins` | src/module/habit/habit.service.ts:422-427 | A run on which an archived habit wins both ways while a plain toggle is refused |
| `Farming.SumIsLive` | src/module/rewards/reward-engine.service.ts:408-436 | The ledger sum is the sum of the entries that still count |
| `Farming.KeptIffOutgrown` | src/module/rewards/reward-engine.service.ts:244-291 | After a day is toggled on and off, a new streak bonus survives exactly when its milestone is below the streak the day had reached |
| `Farming.RoundNetGain` | src/module/habit/habit.service.ts:448-577 | One on-off round gains exactly the new bonuses covered without the day plus 20 coins per new identity level; base coins come and go |
| `Farming.RoundsCannotBeFarmed` | src/module/habit/habit.service.ts:448-577 | However often the day is toggled on and off, every round after the first leaves the balance and the rows of the first |
| `DayRuns.AnyRunIsFree` | src/module/habit/habit.service.ts:429-577 | After one plain round on a day of a paying habit, any run of toggles on it, with any values and kinds, that leaves it undone leaves that round's balance, within the 400-day window |
| `DayRuns.AwardIsBase` | src/module/rewards/reward-engine.service.ts:116-180 | Once a day is exhausted, an award of any kind on it pays the base coins and no bonus |
| `HabitStore.Store.CreateAward` | src/module/rewards/reward-engine.service.ts:439-466 | The insert and balance update leave the specified wallet, or nothing on a taken key |
| `HabitStore.Store.ReverseEntryOnce` | src/module/rewards/reward-engine.service.ts:408-436 | Leaves the wallet of a single reversal and returns what it took back |
| `HabitStore.Store.ReverseCompletionRewards` | src/module/rewards/reward-engine.service.ts:188-227 | The two-part reversal loop leaves the specified wallet and returns the total reversed |
| `HabitStore.Store.ClaimStreakMilestones` | src/module/rewards/reward-engine.service.ts:244-291 | The milestone loop claims the specified bonuses and returns streak and total |
| `HabitStore.Store.ClaimIdentityMilestones` | src/module/rewards/reward-engine.service.ts:293-379 | The nested identity loop claims the specified bonuses and returns their total |
| `HabitStore.Store.AwardForCompletion` | src/module/rewards/reward-engine.service.ts:116-180 | Base, streak and identity awards in order leave the specified wallet and total |
| `HabitStore.Store.ToggleCompletion` | src/module/habit/habit.service.ts:405-628 | The endpoint leaves the specified state, error and coin change in every branch |
| `HabitStore.Store.LogCompletion` | src/module/habit/habit.service.ts:481-577 | The create or update path leaves the specified state and coin change |
| `HabitStore.Store.SyncCompletion` | src/module/daily-plan/daily-plan.service.ts:256-307 | The daily plan's second writer leaves the specified rows, ledger and experience |
| `HabitStore.Store.RemoveDailyPlanCompletion` | src/module/daily-plan/daily-plan.service.ts:233-254 | Deleting a task's completion leaves the specified state |
| `HabitStore.Store.RedeemItem` | src/module/rewards/reward-shop.service.ts:60-126 | Debit, check, insert: the specified state on success and the old state on every error |
| `HabitStore.Store.PurchaseFreeze` | src/module/rewards/streak-freeze.service.ts:33-110 | The same protocol on a habit day, with its own checks in order |
| `HabitStore.Store.ReconcileBalance` | src/module/rewards/rewards.service.ts:155-180 | Reports both balances and says consistent exactly when they agree, changing nothing |
| `HabitStore.Store.RepairBalanceFromCache` | src/module/rewards/rewards.service.ts:202-239 | Leaves the repaired state and returns the drift |
| `Purchases.CommitIsBuy` | src/module/rewards/reward-shop.service.ts:83-124 | A commit writes what an atomic purchase on the committed state would, with a non-negative balance |
| `Purchases.CommitCharges` | src/module/rewards/reward-shop.service.ts:83-124 | A commit takes exactly the price, an item's cost or 100 for a freeze, from the committed balance, adds the one row of minus the price and the one item or day, and touches nothing else |
| `Purchases.InterleavingsAreSequential` | src/module/rewards/reward-shop.service.ts:60-126 | Every interleaving of shop, freeze and other transactions reaches a database that the commits reach one by one, each succeeding |
| `Purchases.ChargedIffCommitted` | src/module/rewards/reward-shop.service.ts:100-119 | A transaction is charged if and only if it commits, then once; an aborted one leaves no debit |
| `Purchases.OneDebitPerPurchase` | src/module/rewards/streak-freeze.service.ts:73-108 | Each item and frozen day has exactly one debit, under every interleaving |
| `Purchases.CommitIsServiceCall` | src/module/rewards/streak-freeze.service.ts:39-64 | A commit is the whole service call on the committed state exactly when the checks made at its start still hold there |
| `Purchases.FreezeOfCompletedDay` | src/module/rewards/streak-freeze.service.ts:56-64 | An interleaving that charges a freeze for a day completed after the check |
| `Stacks.WouldCreateStackCycle` | src/core/utils/stack.utils.ts:25-52 | The bounded walk answers the specified refusal for any edges, repeated and cyclic ones included |
| `Stacks.RefusesExactly` | src/core/utils/stack.utils.ts:25-52 | On an acyclic graph it refuses exactly the edges that close a cycle or whose parent chain exceeds 100 habits |
| `Stacks.ResolveStackChain` | src/core/utils/stack.utils.ts:59-77 | Terminates on any edges with a duplicate-free chain, oldest cue first, which starts at a root when the graph is acyclic and else where the walk would repeat |
| `Stacks.CreateWithTargetRejected` | src/module/habit/habit.service.ts:106-113 | Every create that names a stack target is rejected |
| `Stacks.ReachableAcyclic` | src/module/habit/habit.service.ts:242-288 | Over every run of creates, edits and deletes from no habits, the stack graph has no cycle |
| `Stacks.UpdateStores` | src/module/habit/habit.service.ts:147-168 | An accepted Set stores the target as the habit's edge, Clear removes exactly its edge, Unchanged changes nothing; every other edge and flag stays |
| `Stacks.UpdateAnswers` | src/module/habit/habit.service.ts:242-288 | In a valid stack a Set is accepted exactly when the habit exists, the target is another existing, unarchived habit, the edge closes no cycle and the target's chain has at most 100 habits; each refusal has its error |
| `Stacks.CreateAndDeleteStore` | src/module/habit/habit.service.ts:88-202 | A create adds one unarchived habit without an edge; a delete archives a habit with history and otherwise removes it with its edge and every edge to it |
| `Stacks.HabitStacks.UpdateHabit` | src/module/habit/habit.service.ts:127-172 | Sets, clears or leaves the edge as specified, errors in order, and keeps the graph acyclic |
| `Stacks.HabitStacks.DeleteHabit` | src/module/habit/habit.service.ts:179-202 | Archives a habit with history; otherwise removes it and the edges to it |
| `Budgets.OverlapIsByDay` | src/module/budget/budget.service.ts:126-134 | The write-time overlap test on instants is exactly sharing a calendar day |
| `Budgets.DurationIsDays` | src/module/budget/budget.service.ts:84-94 | The duration is the number of calendar days, both ends included |
| `Budgets.ResolveIsAuto` | src/module/budget/budget.service.ts:567-597 | Sorting and tie-breaking returns the strict minimum by duration and period priority if there is one and nothing otherwise, for every order of the rows |
| `Budgets.NeverAmbiguous` | src/module/budget/budget.service.ts:588-596 | When budgets of one period are day-disjoint, nothing is returned only if no budget spans the instant |
| `Budgets.UnlinkedThoughCovered` | src/module/budget/budget.service.ts:567-597 | In every book of day-disjoint periods an expense is left unlinked exactly when no budget covering its day spans its instant |
| `Budgets.LoneBudgetPicked` | src/module/budget/budget.service.ts:567-579 | A lone budget covering the expense's day is picked exactly when it spans the instant |
| `Budgets.LastDayMissed` | src/module/budget/budget.service.ts:77-82 | An expense at noon on a budget's last day is left unlinked when the budget is stored to end at midnight |
| `BudgetBook.NormalizeKeeps` | src/module/budget/budget.service.ts:238-296 | What the rules accept is stored well kept, a weekly amount the sum of its weeks, and stored budgets pass the rules unchanged |
| `BudgetBook.StepKeepsSound` | src/module/budget/budget.service.ts:321-512 | Every write keeps budgets of one period day-disjoint, weekly totals exact and links covering |
| `BudgetBook.RunKeepsSound` | src/module/budget/budget.service.ts:117-140 | The same over every run of budget and expense writes |
| `BudgetBook.ReachableNeverAmbiguous` | src/module/budget/budget.service.ts:541-598 | In every reachable book an expense gets an automatic budget exactly when some budget spans it |
| `BudgetBook.EmptyPatchIsIdle` | src/module/budget/budget.service.ts:363-402 | A PATCH without fields passes every rule again and leaves the whole book as it was |
| `BudgetBook.DeleteMovesItsExpenses` | src/module/budget/budget.service.ts:445-463 | Deleting a budget loses no expense, touches only its own, and moves each to the strictly most specific budget left, or to none exactly when none spans it |
| `BudgetAnswers.CoversByDay` | src/module/budget/budget.service.ts:77-82 | A budget covers an instant exactly when its UTC day lies between the first and the last |
| `BudgetAnswers.BeatsMeans` | src/module/budget/budget.service.ts:567-597 | One budget beats another exactly when it lasts fewer days, or as many and its period is the more specific |
| `BudgetAnswers.NormalizeAnswers` | src/module/budget/budget.service.ts:238-296 | A draft is refused or stored by rules told from its fields: dates in order, a positive amount, weeks and allocations; a weekly amount is the sum of its weeks |
| `BudgetAnswers.ConflictsAreClashes` | src/module/budget/budget.service.ts:117-140 | A draft conflicts exactly when another budget of its period shares a calendar day with it |
| `BudgetAnswers.CreateAnswers` | src/module/budget/budget.service.ts:321-354 | A create answers the first failing rule or adds exactly the normalised budget |
| `BudgetAnswers.UpdateAnswers` | src/module/budget/budget.service.ts:356-443 | An update takes each field from the patch where given and from the budget otherwise, answers the first failing rule, or replaces that budget and moves exactly the expenses it no longer covers |
| `BudgetAnswers.DeleteAnswers` | src/module/budget/budget.service.ts:445-463 | A delete removes exactly that budget and moves its expenses to the best budget left, or to none |
| `BudgetAnswers.LinkAnswers` | src/module/budget/budget.service.ts:541-598 | An expense is linked to the budget asked for, which must exist and cover its day, and otherwise to the one that beats all others spanning it |
| `BudgetAnswers.CreateExpenseAnswers` | src/module/budget/budget.service.ts:474-491 | A new expense keeps its date and category and gets its link; the link's error comes before the category's |
| `BudgetAnswers.UpdateExpenseAnswers` | src/module/budget/budget.service.ts:493-507 | An update keeps what it does not name, links anew on the resulting date, and touches no other expense |
| `BudgetBook.BudgetService.ResolveBudgetForExpense` | src/module/budget/budget.service.ts:541-598 | Returns the requested budget, its error, or the strict minimum, from rows in any order |
| `BudgetBook.BudgetService.InsertBudget` | src/module/budget/budget.service.ts:321-354 | Leaves the specified book or error |
| `BudgetBook.BudgetService.ChangeBudget` | src/module/budget/budget.service.ts:356-443 | Merge, vet, replace and re-link leave the specified book or error |
| `BudgetBook.BudgetService.RelinkExpenses` | src/module/budget/budget.service.ts:426-439 | The loop moves exactly the expenses the budget no longer covers |
| `BudgetBook.BudgetService.RemoveBudget` | src/module/budget/budget.service.ts:445-463 | Leaves the specified book or error |
| `BudgetBook.BudgetService.InsertExpense` | src/module/budget/budget.service.ts:474-491 | Leaves the specified book or error, the budget checked before the category |
| `BudgetBook.BudgetService.ChangeExpense` | src/module/budget/budget.service.ts:493-507 | Leaves the specified book or error; without a requested budget the link is chosen anew |
| `Subscriptions.GrantedUntilItsEnd` | src/module/subscription/subscription.service.ts:589-638 | A read grants access exactly before the row's own deadline, for every status |
| `Subscriptions.EarlierReadIsInvisible` | src/module/subscription/subscription.service.ts:185-195 | Reading at an earlier instant first changes nothing a later read stores, shows or grants |
| `Subscriptions.AccessFollowsPayment` | src/module/subscription/subscription.service.ts:412-554 | Over every timed run of reads, cancels, resumes and activations, a user without an override has access exactly until the last paid end |
| `Subscriptions.ActiveUntilPeriodEnd` | src/module/subscription/subscription.service.ts:412-469 | An active row paid until e grants access exactly before e, however it is read, cancelled and resumed |
| `Subscriptions.ResumeUndoesCancel` | src/module/subscription/subscription.service.ts:447-469 | Resuming in time restores the row the cancel found |
| `Subscriptions.ReadAnswers` | src/module/subscription/subscription.service.ts:589-638 | A read stores expired exactly when the date of the row's status has passed, non-renewing for a cancelled row, and no other change; it grants exactly under an override or before that date |
| `Subscriptions.CancelAnswers` | src/module/subscription/subscription.service.ts:412-439 | A cancel is accepted exactly under an override or on an active row that has not lapsed; it marks the row non-renewing now, or leaves it as read |
| `Subscriptions.ResumeAnswers` | src/module/subscription/subscription.service.ts:447-469 | A resume is accepted exactly under an override or on an active or ending row that has not lapsed; it clears a pending cancellation and changes nothing else |
| `Subscriptions.CancelUnderOverride` | src/module/subscription/subscription.service.ts:413-427 | Under an override a cancel is accepted in every state and moves the row's own access to the paid period |
| `Subscriptions.FollowsPeriodExactly` | src/module/subscription/subscription.service.ts:589-625 | When a row's own access is its paid period's, told from status, trial end, grace end and period end |
| `Subscriptions.OverrideCancelKeepsAccess` | src/module/subscription/subscription.service.ts:413-427 | It keeps the row's own access exactly when those stored fields already gave the paid period's |
| `Subscriptions.OverrideCancelRevives` | src/module/subscription/subscription.service.ts:413-427 | An expired row without a period end, cancelled by an admin, grants access for ever without the role |
| `Subscriptions.Account.GetEffectiveSubscription` | src/module/subscription/subscription.service.ts:185-242 | Persists the expired status, and grants exactly under an override or before the row's deadline |
| `Subscriptions.Account.CancelRenewal` | src/module/subscription/subscription.service.ts:412-439 | Leaves the specified row and answer |
| `Subscriptions.Account.ResumeRenewal` | src/module/subscription/subscription.service.ts:447-469 | Leaves the specified row and answer |
| `Webhooks.RepeatsChangeNothing` | src/module/subscription/webhook.service.ts:67-85 | Any run of deliveries, verifications and account operations ends in the same store as the run with every repeated dedupe key dropped |
| `WebhookAnswers.KeysByField` | src/module/subscription/webhook.service.ts:441-447 | Two deliveries of one event have equal keys exactly when their first non-empty fields agree, case by case over reference, subscription code, invoice code and id, or when neither has any |
| `WebhookAnswers.SameRequestMeans` | src/module/subscription/webhook.service.ts:441-447 | Two deliveries of colon-free events name the same request exactly when event and first non-empty field, or "unknown", agree |
| `WebhookAnswers.DuplicateExactly` | src/module/subscription/webhook.service.ts:67-85 | After any run from an empty log a delivery is answered as a duplicate exactly when an earlier one named the same request |
| `WebhookAnswers.ProcessedIsLogged` | src/module/subscription/webhook.service.ts:67-98 | A delivery unlike every logged one is processed and its key logged |
| `WebhookAnswers.ChargeFields` | src/module/subscription/webhook.service.ts:449-465 | The interval, amount, code and price of a charge, told from the payload's fields in their order of preference |
| `WebhookAnswers.ChargePlan` | src/module/subscription/webhook.service.ts:467-486 | The plan a charge buys: the first configured with its code; without one the tier of its amount and interval, or basic monthly if no interval is named |
| `WebhookAnswers.ChargeAnswers` | src/module/subscription/webhook.service.ts:127-189 | A charge delivery that is applied activates exactly its account's row, field by field, and settles exactly its payment; one that is not changes no row and no payment |
| `WebhookAnswers.FindUserAnswers` | src/module/subscription/webhook.service.ts:410-439 | The account an event hits: the one whose row holds the payload's customer code, else the one with its email, else none |
| `WebhookAnswers.UpsertFields` | src/module/subscription/webhook.service.ts:196-229 | Every field a subscription event writes, told from the payload |
| `WebhookAnswers.EventFields` | src/module/subscription/webhook.service.ts:231-338 | Every field an invoice, failed-payment, not-renew or disable event writes, told from the row and the payload |
| `WebhookAnswers.VerifyRefuses` | src/module/subscription/subscription.service.ts:347-375 | A verification of no reference, an unknown payment or another user's writes nothing; of a settled payment it only reads the row; a failed one marks the payment failed |
| `WebhookAnswers.VerifyActivates` | src/module/subscription/subscription.service.ts:377-401 | A successful verification activates exactly the payer's row with the payment's interval and amount, marks exactly that payment paid, and reads the row |
| `WebhookService.Service.Handle` | src/module/subscription/webhook.service.ts:59-99 | The gate logs a new key, dispatches once, and replies processed, duplicate or ignored as specified |
| `WebhookService.Service.OnChargeSuccess` | src/module/subscription/webhook.service.ts:126-189 | Matches the payer, skips the user's last charge, activates and settles the payment as specified |
| `WebhookService.Service.OnSubscriptionUpsert` | src/module/subscription/webhook.service.ts:191-229 | Moves the deadline of a period-based row to the next payment date if one is given, and touches neither status, trial, grace, price nor last charge, nor any other row |
| `WebhookService.Service.OnInvoiceCreate` | src/module/subscription/webhook.service.ts:231-261 | Moves the deadline of a period-based row to the invoice's period end if one is given, and touches neither status, plan nor renewal flags, nor any other row |
| `WebhookService.Service.OnPaymentFailed` | src/module/subscription/webhook.service.ts:263-289 | Sets the deadline of an active row to the end of the grace period, leaves every other deadline and all money fields alone |
| `WebhookService.Service.OnNotRenew` | src/module/subscription/webhook.service.ts:291-316 | Makes the deadline the next payment date or the period's end, or none at all, and touches only the renewal fields of that row |
| `WebhookService.Service.OnDisable` | src/module/subscription/webhook.service.ts:318-338 | Makes the deadline the period's end, or none at all, and touches only the renewal fields of that row |
| `EventLaws.EventMovesAccess` | src/module/subscription/webhook.service.ts:191-338 | Every event moves the deadline of the row it hits as one table says and leaves trial, price, last charge and free access alone |
| `EventLaws.StopKeepsAccess` | src/module/subscription/webhook.service.ts:318-338 | The end of renewal keeps the row's own access exactly when that already was the paid period's, told from stored fields |
| `EventLaws.AccessFollowsEvents` | src/module/subscription/webhook.service.ts:59-338 | Over every timed run of webhooks, verifications, reads, cancels and resumes, a user without an override has access exactly until the last deadline an action set for them |
| `EventLaws.DisabledTrialNeverEnds` | src/module/subscription/webhook.service.ts:330-337 | A trial whose subscription is disabled grants access for ever |
| `WebhookRaces.EveryInterleavingHandlesOnce` | src/module/subscription/webhook.service.ts:70-88 | Under every interleaving of concurrent deliveries no key is handled twice, none logged before is handled, and the tables are those of the handlers run one by one |
| `ChargeLaws.ChargesAppliedOnce` | src/module/subscription/webhook.service.ts:158-164 | In every reachable store keys are unique, each row names its last charge, and a charge is applied once, or twice only by verification and then its webhook with another charge between; never three times |
| `ChargeLaws.WebhookAppliesExactly` | src/module/subscription/webhook.service.ts:127-188 | Every delivery of a charge applies it, to its payment's owner or the account its payload names, exactly when its key is new and that account's last charge is another |
| `ChargeLaws.AppliedAgainExactly` | src/module/subscription/webhook.service.ts:158-177 | In every reachable store a charge applied before is applied again exactly when its key is new, its payment is known and another charge of the owner was applied last |
| `ChargeLaws.VerifyKeeps` | src/module/subscription/subscription.service.ts:347-401 | Server-side verification keeps that invariant: a settled payment is never activated again |
| `ChargeLaws.AppliedTwice` | src/module/subscription/webhook.service.ts:158-164 | A run that applies one charge twice |
| `ChargeLaws.ReadBeforeFailure` | src/module/subscription/webhook.service.ts:274-288 | A read before a failed-payment event changes later access exactly when it expired an active row and the grace period is not zero |
| `EventLaws.ReadLosesGrace` | src/module/subscription/webhook.service.ts:274-288 | A run on which the account that was read first is locked out and the unread one keeps access |
| `Analytics.BuildDaySeries` | src/core/utils/behavior-analytics.utils.ts:112-138 | One observation a day up to today, flagged as scheduled on or after the start, with the last completion row of the day |
| `Analytics.ComputeRateForWindow` | src/core/utils/behavior-analytics.utils.ts:187-218 | The counting loop returns the specified rate |
| `Analytics.RatesAreFractions` | src/core/utils/behavior-analytics.utils.ts:187-231 | For every schedule there is no rate exactly when nothing was expected, and then nothing was done; a rate is in [0, 1] and the miss rate is one minus it |
| `Analytics.CompletedWithinExpected` | src/core/utils/behavior-analytics.utils.ts:152-163 | Off a quota no more is completed than expected; on a quota exactly when the past days done stay within its share |
| `Analytics.QuotaExceeded` | src/core/utils/behavior-analytics.utils.ts:157-160 | A weekly habit with two completed days of one expected |
| `Analytics.TodayOnlyHelps` | src/core/utils/behavior-analytics.utils.ts:180-217 | An open today costs nothing and completing it never lowers the rate |
| `Analytics.SeriesCountsSchedule` | src/core/utils/behavior-analytics.utils.ts:127-137 | The days counted are those the scheduler lists up to yesterday, from the later of the window's and the habit's start on |
| `AnalyticsAnswers.LookupAnswers` | src/core/utils/behavior-analytics.utils.ts:118-119 | The last completion row of a day decides it |
| `AnalyticsAnswers.ExpectedAnswers` | src/core/utils/behavior-analytics.utils.ts:152-163 | A quota expects the least whole number covering its share of the window, at most the eligible days; every other schedule expects each eligible day |
| `AnalyticsAnswers.RateAnswers` | src/core/utils/behavior-analytics.utils.ts:187-218 | The rate of the last days is the completed over the expected among the scheduled days of the window before today and from the habit's start, with today on both sides if it is done, and at most one |
| `AnalyticsAnswers.WeekdayAnswers` | src/core/utils/behavior-analytics.utils.ts:326-349 | A weekday's bucket counts that weekday's scheduled and completed days before today; it has a rate from three scheduled days on |
| `Analytics.WeekdayStats` | src/core/utils/behavior-analytics.utils.ts:326-349 | The bucket loop returns the counts of each weekday, Monday first, with a rate from three scheduled days on |
| `Analytics.WeekdaysSumToRate` | src/core/utils/behavior-analytics.utils.ts:326-349 | Over the same series the buckets sum to the scheduled and completed past counts of the completion rate |
| `Adaptive.ProposalsShrink` | src/module/habit/adaptive-analysis.utils.ts:132-198 | Proposed goals are whole, at least 1 and below the goal; proposed quotas at least 2 and below the quota; confidence is in [0, 1] |
| `Adaptive.TargetAnswers` | src/module/habit/adaptive-analysis.utils.ts:92-165 | A target reduction is proposed exactly when there is enough history, the habit does not go well already, it is too hard, its rate is at most 0.55 and its goal above one; the new goal is half in whole units, and each sign adds its hundredths to the confidence |
| `Adaptive.FrequencyAnswers` | src/module/habit/adaptive-analysis.utils.ts:167-198 | A lighter quota is proposed exactly when no smaller target is, the rate is at most 0.5 and the quota at least five; it is three fifths, rounded down |
| `Adaptive.TimeAnswers` | src/module/habit/adaptive-analysis.utils.ts:200-226 | Another time is proposed exactly when neither is, and the best bucket, not the scheduled one, has half again as many completions as the worst; each bucket has its own time |
| `Adaptive.TargetShownWhen` | src/module/habit/adaptive-analysis.utils.ts:138-143 | A target reduction clears the confidence floor exactly when the rate is at most 0.35 or one more sign backs it |
| `Adaptive.FrequencyShownWhen` | src/module/habit/adaptive-analysis.utils.ts:168-184 | For weekly quotas up to 7, a lighter quota is shown exactly when the habit is too hard or the quota is 6 |
| `Adaptive.ChainHalves` | src/module/habit/adaptive-analysis.utils.ts:134-137 | From a whole goal n, k accepted reductions leave n / 2^k, and 2^k is at most n |
| `Adaptive.ChainReachesOne` | src/module/habit/adaptive-analysis.utils.ts:134-137 | The bound is met: floor(log2 n) reductions that are shown bring n to 1 |
| `Adaptive.QuotaLightenedOnce` | src/module/habit/adaptive-analysis.utils.ts:168-176 | A quota of at most eight is lightened once: whatever the next report, the lighter one stays |

## Left out

- Adaptive.ChainHalves: stated for whole goals; a fractional goal is whole after its first accepted reduction (`ProposalsShrink`), from where it applies.
- Concurrent toggles of one day: `toggleCompletion` reads the row outside its transaction, so its properties are proved for sequential runs; the branch that adopts a raced row is not modelled.
- BudgetBook.CreateBudget: the source checks for overlaps outside any transaction (`src/module/budget/budget.service.ts:333-339`); the model makes check and insert one step, so two concurrent creates that overlap are not captured.
- BudgetBook.UpdateBudget: likewise, its overlap check runs before its transaction (`src/module/budget/budget.service.ts:396-403`), and an expense write resolves its budget before the insert; each is one step here.
- DayRuns.AnyRunIsFree: past the 400-day window a change of kind may take back an older bonus, so only the plain rounds of `RoundsCannotBeFarmed` are claimed there.
- Daily-plan steps write experience in a second transaction; the model counts both as one step.
- Temptation bundles, the virtual reward fund, badges and notifications triggered by a completion: they do not touch coins or rows.
- Experience restored on toggle-off: experience is clamped at zero and levels never fall, so removing a completion does not restore it.
- The current-streak half of `calculateStreaks`: it compares a gap with a running count and is not a consecutive-day streak.
- Rounding of floats: budgets, rates and proposals use exact arithmetic, so a weekly share that floats would round across an integer is not captured.
- Calendar conversion and time zones: day keys and the month or year after an instant are inputs.
- Creation of a missing subscription row on a read: every account that is read has one.
- A customer code shared by several accounts: the source's unordered lookup is modelled as the account whose row was created first.
- Checkout: payments exist before their charge is delivered; a webhook that overtakes the insert of its payment is not modelled.
- Failures inside a webhook handler between two writes: each handler is atomic.
- Parsing of milestone keys the system never builds: a number is read in decimal digits only.
- `Stacks.HabitStacks.CreateHabit`: identity links and other fields of a habit are not part of the row.
- Expense categories: fixed while budgets and expenses change; titles, notes, incomes and summaries are not modelled.
- Plan tiers and entitlements of a subscription, and cancelling at the payment provider.
- Momentum, risk and difficulty scores, time-of-day analysis and the fingerprint of a proposal: inputs or easy members.
- Controllers, guards, mail, exports, the AI coach, admin dashboards and seed scripts: wiring and wording.
