# CodenameAlpha portfolio logic in Dafny

This project models the logic of the CodenameAlpha portfolio dashboard. At its centre is the allocation rebalancer. A portfolio is an ordered list of ticker→percentage entries. When one slider moves, the rebalancer spreads the difference over the other entries in proportion to their size. It then puts the rounding residue on the first-largest other entry, so the total comes back to 100%. The project models its three variants:

- `handlePortfolioAllocationChange` in `lib/utils.ts`, keyed by ticker.
- The array copy in the dashboard's `handleAllocationChange`.
- The inverse operation, `removeTicker`, in both portfolio forms.

Around it are the forms' `addTicker`, the study-ticker list, the submit checks, the dashboard scenarios, the notification and trading-algorithm lists, the what-if scenario arithmetic and the optimization results view.

Representation choices:

- **Percentages** are integers counting tenths of a percent (`Allocations.Full` = 1000), because every slider has step 0.1.
- **Rounding.** `Math.round(x)` is `floor(x + 1/2)`. Rounding a quotient is `Allocations.RoundDiv`, whose meaning is the lemma `Allocations.RoundDivNearest`. Rounding a slider value to tenths is `Allocations.RoundTenths`.
- **Key order.** An allocation is a sequence of `(ticker, tenths)` pairs with distinct tickers, in JavaScript key order. For tickers that are not integer-like, that is insertion order.
- **Money** (what-if page, dashboard impact) and chart values are `real`.

How the code maps to Dafny:

- **The rebalancer** is specified once, on value sequences: `Rebalancing.Rebalanced`. Everything else is proved against it:
  - the ticker-keyed loop method `PortfolioUtils.HandlePortfolioAllocationChange`;
  - the in-place array method `Dashboard.RebalanceSliders`;
  - the slider handlers of both forms.
- **Removing a ticker** is specified by `OptimizationForm.RemovedTicker` and implemented by the loop method `OptimizationForm.RemoveTickerFrom`.
- **React state** becomes classes:
  - the dashboard's `allocations`/`activeScenario` (`Dashboard.DashboardState`);
  - the optimization form (`OptimizationForm.OptimizationFormState`);
  - the risk-analysis form (`RiskAnalysisForm.RiskAnalysisFormState`).

  Their methods commit the state each handler's last update leaves.
- **Pure handlers** are functions from the old state to the new one: notifications, shipyard, the what-if `handleCustomChange`, and the optimization results.

The drift fix-ups ("within 0.1 of 100 but not 100") are modelled as written. `Allocations.NoDriftInTenths` proves they never fire on tenths.

## Model

| member | source | states |
|---|---|---|
| Allocations.RoundDivNearest | lib/utils.ts:63 | the result is the nearest integer to p/q with halves rounded up, i.e. `Math.round` of the quotient, for either sign of q |
| Allocations.RoundTenths | lib/utils.ts:15 | the result r is the number of tenths `Math.round(x * 10)` gives: x·10 lies in [r − ½, r + ½) |
| Allocations.RoundTenthsOfTenths | components/optimization-form.tsx:48-60 | a value that is already a whole number of tenths is unchanged by rounding to one decimal |
| Allocations.NoDriftInTenths | lib/utils.ts:109-119 | a total in whole tenths is never within 0.1 of 100 without being 100, so the final drift fix-up never runs |
| Allocations.OffByATenthIffNotFull | lib/utils.ts:76-77 | the "rounded total is not 100" test of the correction step fires exactly when the total differs from 100% |
| Allocations.UpsertSpec | components/optimization-form.tsx:49-67 | `{ ...p, [t]: v }` keeps tickers distinct, sets t to v, leaves every other ticker's value alone and changes the total by v minus t's old value |
| Allocations.RemoveKeepsOrder | components/optimization-form.tsx:92-95 | `delete p[t]` keeps the other tickers in their order |
| Allocations.RemoveAt | components/optimization-form.tsx:92-95 | removing the key held at position i cuts out exactly that entry |
| Allocations.RemoveSpec | components/optimization-form.tsx:92-95 | `delete p[t]` removes exactly t's entry, keeps the others in order and distinct, and lowers the total by t's value |
| Allocations.Upper | components/optimization-form.tsx:58 | `toUpperCase` keeps the length, leaves no lower-case letter, turns each lower-case letter into the same letter of the capital alphabet and keeps every other character |
| Allocations.UpperIdempotent | components/optimization-form.tsx:58 | upper-casing an already upper-cased ticker changes nothing |
| Allocations.IndexOf | lib/utils.ts:17 | the position of a present ticker is where its first (and only) entry is |
| Rebalancing.RebalancedTotal | lib/utils.ts:43-57 | with at least one other entry, the rebalanced values total exactly 100% when the others sum to more than 0 or the new value is at most 100% |
| Rebalancing.SpreadEquallyTotal | lib/utils.ts:33-57 | when the others sum to 0, each gets the rounded equal share and the residual on the first other entry brings the total to 100% |
| Rebalancing.SpreadEquallyShape | lib/utils.ts:35-42 | in the equal-share branch, the changed entry keeps its new value and every other entry except the first other one gets round((100 − new)/n) |
| Rebalancing.EqualShareNonNegative | lib/utils.ts:36-38 | the equal share is never negative while the new value is at most 100% |
| Rebalancing.EqualShareCanGoNegative | lib/utils.ts:51-55 | 99.5% over seven zero tickers: each gets 0.1 and the residual pushes the first to −0.1, so the equal-share branch does not keep values non-negative |
| Rebalancing.ProportionalShape | lib/utils.ts:58-70 | in the proportional branch every other entry is non-negative, and every one but the first-largest is max(0, old + round(−difference·old/otherSum)), a function of its own old value |
| Rebalancing.ProportionalShareIsScaled | lib/utils.ts:61-66 | old + round(−d·old/S) is round(old·(S − d)/S), clamped at 0 |
| Rebalancing.CorrectLargestTotal | lib/utils.ts:72-105 | after the correction (residual onto the first-largest other entry; if negative, zero it and let the changed entry absorb the rest) the total is exactly 100% |
| Rebalancing.ChangedEntryKeepsNewValue | lib/utils.ts:92-105 | the changed entry ends at something other than its new value only in the proportional branch, and then the first-largest other entry was set to 0 |
| Rebalancing.FirstLargestOtherExists | lib/utils.ts:82-87 | with another entry present, a first maximal other entry exists |
| Rebalancing.FirstLargestOtherUnique | lib/utils.ts:82-87 | the strict `>` of the reduce picks one entry only: the earliest maximal one |
| Rebalancing.FindFirstEligible | lib/utils.ts:51-56 | the `for … break` scan returns the first other entry that is positive (or any, when the residual is positive), or the length when there is none |
| Rebalancing.FindLargestOther | lib/utils.ts:82-87 | the reduce loop returns the first maximal entry other than the changed one |
| Rebalancing.RoundDivUnique | lib/utils.ts:63 | the rounded quotient is unique |
| Rebalancing.ProportionalExample | components/dashboard.tsx:66-95 | moving the first default slider from 40% to 70% gives [70, 10, 15, 5] |
| Rebalancing.EqualShareExample | lib/utils.ts:33-57 | {100, 0, 0} with the first at 50% gives [50, 25, 25] |
| PortfolioUtils.HandlePortfolioAllocationChange | lib/utils.ts:9-122 | the loops compute the rebalanced allocation: the same key list; the input itself when the rounded value equals the old one; the lone ticker at its new value when there is one ticker |
| PortfolioUtils.SpreadEquallyStep | lib/utils.ts:33-57 | the equal-share loops plus the first-eligible residual produce the equal-share values |
| PortfolioUtils.AssignEqualShare | lib/utils.ts:39-42 | every other ticker is assigned the equal share; the changed one keeps its value |
| PortfolioUtils.AssignProportional | lib/utils.ts:60-70 | every other ticker is assigned its proportional share of its own old value; the changed one is untouched |
| PortfolioUtils.CorrectLargestStep | lib/utils.ts:72-105 | the correction step applied to the loop's state yields the corrected values |
| PortfolioUtils.RebalanceTotal | lib/utils.ts:9-122 | a real change with at least two tickers ends at exactly 100% (sliders stay within 0–100%) |
| PortfolioUtils.RebalanceKeepsKeys | lib/utils.ts:17-26 | the result has exactly the input's tickers, in order and distinct |
| PortfolioUtils.RebalanceValues | lib/utils.ts:22-105 | bridge from the keyed rebalance to the value-level one: the keyed result is `Rebalanced` on the values, written back under the same tickers, so the value-level shape lemmas apply to the keyed code |
| Dashboard.RebalanceSliders | components/dashboard.tsx:166-275 | on a fresh array copy: nothing is stored when the value is unchanged or there is a single slider; otherwise the result is the rebalanced array |
| Dashboard.DashboardState.HandleAllocationChange | components/dashboard.tsx:166-275 | the committed allocations are the rebalanced ones, or unchanged (single slider, unchanged value); the active scenario stays |
| Dashboard.DashboardState.ApplyScenario | components/dashboard.tsx:120-137 | the state becomes the scenario toggle's result |
| Dashboard.SliderChangeKeepsValid | components/dashboard.tsx:113-117 | a slider change leaves a valid (100%) allocation |
| Dashboard.ScenarioKeepsValid | components/dashboard.tsx:120-136 | applying or clearing a scenario keeps the allocation valid; every preset sums to 100% |
| Dashboard.ScenarioToggle | components/dashboard.tsx:120-136 | selecting a scenario activates it; selecting it again clears it and restores [40, 20, 30, 10] |
| Dashboard.ScenarioImpact | components/dashboard.tsx:140-161 | no active scenario gives the total value with no change; otherwise the change is total × (multiplier − 1); the change is negative exactly for market-crash and inflation-spike and positive exactly for bond-rally |
| Dashboard.ImpactPercent | components/dashboard.tsx:145-155 | a market crash loses 8% of the total, an inflation spike 3%, a bond rally gains 4%, and any other scenario leaves the value unchanged |
| OptimizationForm.RemoveTickerFrom | components/optimization-form.tsx:92-161 | the delete-and-redistribute loops compute the specified removal |
| OptimizationForm.ShareRemovedEqually | components/optimization-form.tsx:104-120 | with the rest at 0, each gets round(100/n) and the first key absorbs 100 − total |
| OptimizationForm.ShareRemovedProportionally | components/optimization-form.tsx:121-143 | each remaining value is grown proportionally and rounded, then the first-largest absorbs the residual |
| OptimizationForm.EqualRedistributionTotal | components/optimization-form.tsx:104-120 | the equal redistribution totals 100% |
| OptimizationForm.ProportionalRedistributionTotal | components/optimization-form.tsx:121-143 | the proportional redistribution totals 100% |
| OptimizationForm.AbsorbAtLargestTotal | components/optimization-form.tsx:131-143 | absorbing 100 − total at the first-largest key makes the total 100% and touches no other key |
| OptimizationForm.RemoveTickerTotal | components/optimization-form.tsx:92-161 | removing a ticker from a portfolio of two or more leaves exactly 100% |
| OptimizationForm.RemoveTickerKeys | components/optimization-form.tsx:92-98 | the result has every original key but the removed one, in order; removing the last ticker leaves the empty portfolio |
| OptimizationForm.RemoveTickerProportional | components/optimization-form.tsx:121-130 | every key but the first-largest gets round(v·(rest + removed)/rest), which never shrinks a non-negative entry |
| OptimizationForm.ProportionalShareOfRemoved | components/optimization-form.tsx:121-130 | on values: every entry other than the first largest holds its grown, rounded share round(v·(total+removed)/total) |
| OptimizationForm.ProportionalShareGrows | components/optimization-form.tsx:121-130 | with everything non-negative, no entry other than the first largest ends below its old value |
| OptimizationForm.GrowEach | components/optimization-form.tsx:122-128 | every remaining value becomes its grown, rounded share; the keys stay as they were |
| OptimizationForm.RemoveTickerEqual | components/optimization-form.tsx:104-113 | with the rest at 0, every key after the first gets round(100/n) |
| OptimizationForm.GrowthAtLeast | components/optimization-form.tsx:124-127 | growing a non-negative share by a non-negative removed amount never lowers it |
| OptimizationForm.AddTickerTo | components/optimization-form.tsx:45-69 | nothing happens unless both inputs are non-empty; otherwise the portfolio becomes the specified addition of the upper-cased ticker at its rounded value |
| OptimizationForm.AddTickerTotal | components/optimization-form.tsx:49-69 | adding to a 100% portfolio keeps it at 100%, whether the value fits the room or forces a rebalance |
| OptimizationForm.AddPresentAtZero | components/optimization-form.tsx:53-68 | re-adding a present ticker at 0% fits the room: the key is set to 0 with no rebalance and the total drops by its old value |
| OptimizationForm.AddTickerKeys | components/optimization-form.tsx:49-69 | a new ticker is appended after the existing keys; a present one keeps the key list; keys stay distinct |
| OptimizationForm.AddTickerWithinRoom | components/optimization-form.tsx:49-63 | when the value fits into 100 − total, the ticker gets it and every other key keeps its value |
| OptimizationForm.Without | components/optimization-form.tsx:173-175 | the filter keeps exactly the other tickers |
| OptimizationForm.AddThenRemoveStudyTicker | components/optimization-form.tsx:163-175 | adding an absent study ticker and removing it again restores the list |
| OptimizationForm.WithoutKeepsNoDuplicates | components/optimization-form.tsx:173-175 | removing a study ticker keeps the list duplicate-free |
| OptimizationForm.SubmitAcceptedIffFull | components/optimization-form.tsx:182-191 | in tenths, the |total − 100| > 0.01 refusal accepts exactly the portfolios at 100% |
| OptimizationForm.OptimizationFormState.AddTicker | components/optimization-form.tsx:45-90 | the committed portfolio is the specified addition, and the inputs are cleared; without both inputs nothing changes |
| OptimizationForm.OptimizationFormState.HandleSliderChange | components/optimization-form.tsx:215-222 | the slider commits the rebalanced portfolio and nothing else |
| OptimizationForm.OptimizationFormState.RemoveTicker | components/optimization-form.tsx:92-161 | the portfolio becomes the specified removal and nothing else changes |
| OptimizationForm.OptimizationFormState.AddStudyTicker | components/optimization-form.tsx:163-171 | a non-empty, absent upper-cased ticker is appended and the input cleared, otherwise nothing changes; the list stays duplicate-free |
| OptimizationForm.OptimizationFormState.RemoveStudyTicker | components/optimization-form.tsx:173-175 | the study list loses that ticker and nothing else changes |
| OptimizationForm.OptimizationFormState.HandleSubmit | components/optimization-form.tsx:177-197 | the optimizer runs (and loading stays on) exactly when the total passes the 0.01 check |
| RiskAnalysisForm.AddTickerAsWritten | components/risk-analysis-form.tsx:29-82 | without both inputs the portfolio is unchanged; with both, the committed portfolio holds the upper-cased ticker at the rounded value, every other ticker keeps its value, the keys stay distinct, and a new ticker is appended after the old keys |
| RiskAnalysisForm.AddTickerAsWrittenOverfills | components/risk-analysis-form.tsx:56-77 | the last `setPortfolio` adds a new ticker on top: the total grows by its value and passes 100% |
| RiskAnalysisForm.AddTickerAsWrittenExample | components/risk-analysis-form.tsx:29-82 | {A: 100} plus B at 50% commits 150% where the rebalanced state was 100% |
| RiskAnalysisForm.RiskAnalysisFormState.AddTicker | components/risk-analysis-form.tsx:29-55 | commits the rebalanced addition, as the optimization form does |
| RiskAnalysisForm.RiskAnalysisFormState.HandleSliderChange | components/risk-analysis-form.tsx:193-200 | the slider commits the rebalanced portfolio |
| RiskAnalysisForm.RiskAnalysisFormState.RemoveTicker | components/risk-analysis-form.tsx:84-153 | the portfolio becomes the specified removal |
| RiskAnalysisForm.RiskAnalysisFormState.HandleSubmit | components/risk-analysis-form.tsx:155-173 | the analysis runs exactly when the total passes the 0.01 check |
| Notifications.MarkAsRead | app/dashboard/notifications/page.tsx:40-46 | same length and order; each entry keeps every field but `read`, which becomes true exactly where the id matches or it was already read |
| Notifications.MarkAllAsRead | app/dashboard/notifications/page.tsx:48-52 | every entry becomes read and keeps its other fields |
| Notifications.DeleteNotification | app/dashboard/notifications/page.tsx:54-58 | an entry survives exactly when it was present and its id differs |
| Notifications.MarkAsReadIdempotent | app/dashboard/notifications/page.tsx:40-46 | marking the same id twice equals marking it once |
| Notifications.MarkAsReadUnreadCount | app/dashboard/notifications/page.tsx:40-52 | marking an id read lowers the unread count by that id's unread entries; marking all read leaves none |
| Notifications.DeleteKeepsOrder | app/dashboard/notifications/page.tsx:54-58 | deletion distributes over concatenation, so the surviving entries keep their order |
| Notifications.DeleteCount | app/dashboard/notifications/page.tsx:54-58 | deletion shortens the list by exactly the number of entries with that id |
| Notifications.DeleteIdempotent | app/dashboard/notifications/page.tsx:54-58 | deleting an id twice equals deleting it once |
| Notifications.HandleSettingChange | app/dashboard/notifications/page.tsx:60-65 | the named flag flips and no other flag changes |
| Notifications.SettingChangeTwice | app/dashboard/notifications/page.tsx:60-65 | flipping a setting twice restores the settings |
| Notifications.TypeStylesDistinct | app/dashboard/notifications/page.tsx:77-88 | alert/info/warning get three distinct styles, and exactly the other types get the grey default |
| Shipyard.ToggleAlgoStatus | app/dashboard/shipyard/page.tsx:20-28 | same length; a matching algo flips active↔paused (other statuses become active); non-matching algos are untouched |
| Shipyard.ToggleTwice | app/dashboard/shipyard/page.tsx:20-28 | with every status active or paused, toggling keeps that and toggling twice restores the list |
| Shipyard.HandleNewAlgoSubmit | app/dashboard/shipyard/page.tsx:30-61 | exactly one algo is appended after the unchanged existing ones, with id "algo"+(n+1), status active, zero performance and the form's fields; the modal closes and the form resets to BTC/weekly/100 |
| Shipyard.Decimal | app/dashboard/shipyard/page.tsx:32 | the printed number is non-empty decimal digits, two or more exactly from 10 on |
| Shipyard.DecimalInjective | app/dashboard/shipyard/page.tsx:32 | different numbers print differently |
| Shipyard.SubmitKeepsIdsDistinct | app/dashboard/shipyard/page.tsx:30-49 | with sequential ids, submitting keeps them sequential and the new id clashes with none |
| WhatIf.MarketCrashPerHolding | app/dashboard/what-if/page.tsx:94-112 | the crash loss is the sum of per-holding losses (stocks and funds p%, crypto 1.5·p%, cash nothing); newTotal = total − loss, difference = −loss |
| WhatIf.CrashSums | app/dashboard/what-if/page.tsx:94-108 | the two filtered sums, scaled, equal the per-holding losses |
| WhatIf.CrashNeverGains | app/dashboard/what-if/page.tsx:94-112 | with non-negative holdings and drop, the loss is non-negative |
| WhatIf.BullRunPerHolding | app/dashboard/what-if/page.tsx:114-133 | the gain is the sum of per-holding gains (stocks stockPercent, crypto cryptoPercent, funds and cash nothing) |
| WhatIf.BullSums | app/dashboard/what-if/page.tsx:114-128 | the two filtered sums, scaled, equal the per-holding gains |
| WhatIf.Find | app/dashboard/what-if/page.tsx:139 | `find` returns the first holding with that id (every earlier holding has another id), or none when no holding has it |
| WhatIf.CalculateCustomScenario | app/dashboard/what-if/page.tsx:135-153 | the `+=` loop gives newTotal = total + Σ value·percent/100 over impacts with a matching holding, and difference = that sum |
| WhatIf.NeutralImpactsGainNothing | app/dashboard/what-if/page.tsx:135-153 | impacts at 0% or with no matching holding leave the total unchanged |
| WhatIf.CustomGainAppend | app/dashboard/what-if/page.tsx:138-144 | the custom gain of two impact lists joined is the sum of their gains |
| WhatIf.InitialImpacts | app/dashboard/what-if/page.tsx:84-91 | one impact per holding, same id and name, at 0% |
| WhatIf.InitialStateConsistent | app/dashboard/what-if/page.tsx:56-91 | the page starts with every percent at 0, a difference of 0, and that impact agrees with the percents |
| WhatIf.SetPercent | app/dashboard/what-if/page.tsx:156-160 | only the matching asset's percent changes; length and order are kept |
| WhatIf.AsWrittenImpactLags | app/dashboard/what-if/page.tsx:155-178 | as written, the custom impact committed by an edit is the one before the edit |
| WhatIf.AsWrittenStaleExample | app/dashboard/what-if/page.tsx:155-178 | one $100 stock edited from 0% to 10% shows a difference of 0 where the percents give 10 |
| WhatIf.HandleCustomChangeKeepsConsistent | app/dashboard/what-if/page.tsx:155-178 | computed from the new percents, the impact stays consistent after every edit and the other scenarios are untouched |
| OptimizationResults.FindIndex | components/optimization-results.tsx:36-40 | −1 exactly when no scenario matches risk and alpha, otherwise the first matching index |
| OptimizationResults.HandleChartClick | components/optimization-results.tsx:33-45 | no payload selects nothing; otherwise the selection is the `findIndex` result, nothing on −1 |
| OptimizationResults.ChartClickSelectsFirstMatch | components/optimization-results.tsx:33-45 | a click selects something exactly when some scenario matches both coordinates, and then the first such one |
| OptimizationResults.ScatterData | components/optimization-results.tsx:51-55 | one size-1 point per scenario, in order |
| OptimizationResults.SelectedPoint | components/optimization-results.tsx:57-67 | one point exactly when a scenario is selected: its risk and alpha at size 2; none otherwise |
| OptimizationResults.ClickHighlightsClickedPoint | components/optimization-results.tsx:33-67 | after a matching click the highlight is the clicked point at size 2 |
| OptimizationResults.CurrentAllocation | components/optimization-results.tsx:165 | a ticker missing from the current allocation counts as 0; a present one gives its value |
| OptimizationResults.ColorOf | components/optimization-results.tsx:169-179 | each of the nine colours is exactly one interval of the change, the grey neutral band being (−0.5, 0.5) |
| OptimizationResults.ColorMonotone | components/optimization-results.tsx:169-179 | a larger change never gets a colour lower on the scale |
| OptimizationResults.Sign | components/optimization-results.tsx:189 | "+" is shown exactly for a strictly positive change |
| OptimizationResults.ChangeRows | components/optimization-results.tsx:164-199 | one row per scenario entry, in order, with change = allocation − current (missing = 0), its colour and its sign |
| OptimizationResults.NewTickerChange | components/optimization-results.tsx:165-167 | a ticker absent from the current allocation shows its whole allocation as the change, with "+" when positive |

## Left out

- Floating point: percentages are exact tenths and money is exact `real`. IEEE rounding of sums, `toFixed` and `toLocaleString` strings and the `percentChange` strings are not modelled. Under exact tenths the drift branches are dead, and `Allocations.NoDriftInTenths` proves it.
- `Number(newAllocation)` and `parseFloat(value)` are not modelled on strings. The parsed number is a parameter. A `NaN` from `parseFloat` is `None` in `WhatIf.ParsedPercent`. A `NaN` from `Number` in `addTicker` is not modelled.
- `isValidAllocation` compares a float sum to 100 with `===`. In tenths that is integer equality.
- The optimization form's `addTicker` "final check" (components/optimization-form.tsx:71-85) writes into the previous `portfolio` object after `setPortfolio` has been given a fresh copy. It never reaches the committed state, so it is not modelled.
- React mechanics (`useState` batching, `alert`, `setIsLoading` timers, `onRunAnalysis`/`onOptimize` callbacks) are not modelled. Each handler commits its last state update. `HandleSubmit` returns whether the callback would be called.
- The `alphaTarget`/`riskLevel` sliders of the optimization form are plain setters and are not modelled.
- `formatDate`, `new Date().toISOString()` and the charts are not modelled. The shipyard clock reading is a parameter of `Shipyard.HandleNewAlgoSubmit`.
- Fixtures are not modelled: mock/financeData.ts holdings, notifications and trading algorithms. The what-if portfolio is a parameter. The dashboard keeps its own constants.
- `toUpperCase` is modelled on ASCII letters only (`Allocations.Upper`).
- Integer-like tickers are not modelled. A JavaScript record lists keys such as "1" or "42" before its other keys, in ascending numeric order, so `{ ...p, ["1"]: v }` puts a new ticker "1" first. `Allocations.Upsert` always appends a new ticker. The model assumes tickers are not integer-like. For such tickers, key order decides the first other ticker (lib/utils.ts:26,51), the first-largest tie-break (lib/utils.ts:82-87), and the first or largest ticker in `removeTicker` (components/optimization-form.tsx:118,136-139). The model does not capture that ordering.
- The Sharpe ratio display `alpha / risk` is a plain float division and is not modelled.
- PortfolioUtils.RebalanceTotal: 100% is proved when the others sum to more than 0 or the new value is at most 100% (the slider range). With a new value above 100% over zero others, the total need not be 100%: the equal share is negative, and when the residual is negative no entry is eligible for it. Three entries at 0 with the first set to 110.1% end at 100.1% (`Rebalancing.OverfullCanMissFull`). Some such inputs still land on 100%, for example two entries at 0 with the first set to 110%.
- OptimizationForm.AddTickerTotal: proved for a new ticker, or for a present one at a positive value with other tickers. Two cases are excluded because the total really does leave 100%. Re-adding the only ticker at a value other than 100% rebalances a one-entry portfolio to that value. Re-adding a present ticker at 0% fits the remaining room, so the key is simply set to 0 and the total drops by its old value (components/optimization-form.tsx:55,63-68; `OptimizationForm.AddPresentAtZero`).
- RiskAnalysisForm.RiskAnalysisFormState.AddTicker commits the rebalanced addition, the evidently intended behaviour. The committed-as-written portfolio is `RiskAnalysisForm.AddTickerAsWritten` (see Findings).
- Global non-negativity is not claimed. The equal-share branch can push an entry below 0 (`Rebalancing.EqualShareCanGoNegative`). Only the proportional step is proved non-negative.

## Findings

| source | as written | input that shows it | evidently intended | confidence | as-written member | corrected member |
|---|---|---|---|---|---|---|
| components/risk-analysis-form.tsx:56-77 | after rebalancing, `addTicker` calls `setPortfolio` again with the pre-update portfolio plus the new ticker; the later update wins and the rebalanced state is lost | portfolio {A: 100}, add B at 50: the committed portfolio is {A: 100, B: 50}, total 150% | commit the rebalanced portfolio ({A: 50, B: 50}) as the optimization form does | high, not executed | RiskAnalysisForm.AddTickerAsWrittenExample | OptimizationForm.AddTickerTotal |
| app/dashboard/what-if/page.tsx:167-177 | `handleCustomChange` recomputes the custom impact with `calculateCustomScenario()`, which reads `customScenario` from before the edit | one $100 stock, percent edited from 0 to 10: the shown difference is 0 instead of 10 | compute the impact from the new impacts | high, not executed | WhatIf.AsWrittenStaleExample | WhatIf.HandleCustomChangeKeepsConsistent |
