# Scenario planner: a Dafny model

This project models the arithmetic and state logic of the workforce scenario
planner in the resourcing demo. The planner helps accelerate the NP-MM-401
study by moving full-time-equivalent staff (FTE) from two deprioritised
studies (NP-HEM-215, NP-MM-318) and from an unstaffed bench. It covers three
parts of the source:

- The slider-driven calculator in `src/utils/scenarioCalculations.js`.
  - A reallocation percentage becomes a whole number of freed FTE (`Math.round(13·pct/100)`).
  - The requirement table's gap is summed, and the remaining gap is clamped at zero.
  - Cost is linear in weeks and sites. The market lead is in tenths of a month.
  - The freed FTE are handed out greedily to the table rows, in order, as chart rows with display labels.
  - A four-way verdict (optimal, feasible, caution, at risk) is chosen by a decision chain.
- The state logic of the planner page `src/pages/ScenarioPlanner.jsx`.
  - The clamped study and bench steppers write into nested JavaScript objects.
  - The "optimised for weeks" mark changes under optimise, manual edit and the weeks slider. The banner, button state and caption are derived from it.
  - The reallocation grid's covered/gap totals.
  - The on-track / at-risk / significantly-impacted classification of each deprioritised study.
- The reference tables in `src/data/demoData.js`: the FTE requirement table, the study phases and statuses, and the slider ranges.

Modules, one per concern:

| file | module | contents |
|---|---|---|
| wrappers.dfy | `Wrappers` | `Option`, standing for `undefined`/`null` and `??` |
| rounding.dfy | `Rounding` | `Math.round` on integer quotients (half up, exact), `Min`, `Max` |
| text.dfy | `Text` | first-space replacement, first word, decimal rendering of counts |
| js_object.dfy | `JsObject` | string-keyed JavaScript objects: lookup, spread update, sum of values |
| demo_data.dfy | `DemoData` | the reference tables and their consistency lemmas |
| scenario_calculations.dfy | `ScenarioCalculations` | the calculator |
| scenario_planner.dfy | `ScenarioPlanner` | the page's state, handlers, flags, grid totals, the deprioritised-study filter and its risk classification |
| demo_scenario.dfy | `DemoScenario` | what the calculator yields on the shipped tables |

Modelling choices:

- `Math.round(n/d)` is `floor(n/d + 1/2)`. Ties go towards positive infinity for every sign. Dafny's `/` floors for a positive divisor, so `Rounding.RoundHalfUp` computes `(2n + d) / (2d)`. Its contract is the defining bound: the result is within half a unit of `n/d`, with the tie going up. `RoundHalfUpUnique` shows no other integer meets that bound.
- The calculator reads its role table from a module constant. Here the table is the explicit parameter `table`, and `DemoData.FteRequirements` is the instance the page uses. `ChartData(table, pct)` is `ChartRows(table, ReallocatedFtes(pct))`. The greedy hand-out is the recursive `ChartRows`, which threads the running `remaining` from row to row exactly as the source's `map` callback updates it.
- JavaScript objects (the reallocation, the bench allocation, the bench pool, `coveredByRole`) are entry lists (`JsObject.Obj`). A read returns the value of the first entry with the key. `{...o, [k]: v}` overwrites in place or appends. JavaScript never holds a key twice. Here that is the invariant `JsObject.DistinctKeys`: spread updates preserve it, and `ScenarioPlanner.ObjectsStayWellFormed` shows the page's objects keep it in every reachable state, given an engine that returns JavaScript objects. `Object.values(o).reduce(...)` is `JsObject.Total`.
- Several helpers are imported by the page but not defined in `src/utils/scenarioCalculations.js`: the allocation engine, scaled requirements, coverage, external hiring, trial impact, and the `reallocationPool` / `unstaffedFTEPool` data. These are not part of this model and stay uninterpreted. The engine is the parameter `ScenarioPlanner.Engine`, with its two entry points used by `handleOptimise`. The pools are the parameters `pool` and `benchPool`. Scaled requirement rows have the same shape as `DemoData.RoleRequirement`.
- The model follows the definitions in `src/utils/scenarioCalculations.js`, not the call sites. The page calls `calcCostImpact(weeks, sites, externalHiringCount)`, but the definition takes two parameters, so the hiring count does not affect the cost. The page calls `calcVerdict` with five arguments, while the definition takes `(weeks, sites, pct)`. `CostImpact` and `CalcVerdict` model the definitions.
- The phase field `label` and the verdict field `label` are Dafny keywords. They are named `title` and `heading` here.

## Model

| member | source | states |
|---|---|---|
| Rounding.RoundHalfUp | src/utils/scenarioCalculations.js:14 | `Math.round(n/d)` is the integer within half a unit of `n/d`, ties rounded up |
| Rounding.RoundHalfUpUnique | src/utils/scenarioCalculations.js:14 | any integer within that half-unit bound is the rounded value, so the bound defines the rounding |
| Rounding.RoundHalfUpMonotone | src/utils/scenarioCalculations.js:52 | rounding never reverses the order of two quotients over the same divisor |
| ScenarioCalculations.ReallocatedFtes | src/utils/scenarioCalculations.js:7-15 | the freed FTE are 13·pct/100 rounded half up to a whole FTE |
| ScenarioCalculations.ReallocatedFtesMonotone | src/utils/scenarioCalculations.js:13-15 | a higher percentage never frees fewer FTE |
| ScenarioCalculations.ReallocatedFtesInSliderRange | src/utils/scenarioCalculations.js:11-15 | over the documented 10–40 % range between 1 and 5 FTE are freed |
| ScenarioCalculations.CalcTotalGap | src/utils/scenarioCalculations.js:20-22 | the left-to-right `reduce` over the table yields the sum of all rows' `gap` fields |
| ScenarioCalculations.TotalGapSnoc | src/utils/scenarioCalculations.js:21 | each step of the reduce adds the next row's gap to the running sum |
| ScenarioCalculations.TotalGapNonNegative | src/utils/scenarioCalculations.js:20-22 | a table without negative gaps has a non-negative total gap |
| ScenarioCalculations.RemainingGap | src/utils/scenarioCalculations.js:28-32 | the remaining gap is never negative, is at least total minus freed, and is either 0 or exactly total minus freed |
| ScenarioCalculations.RemainingGapNonIncreasing | src/utils/scenarioCalculations.js:28-32 | reallocating a larger share never leaves a larger gap |
| ScenarioCalculations.CostImpact | src/utils/scenarioCalculations.js:40-44 | the cost of a real scenario is never negative, and it exceeds the verdict's 5,000 threshold exactly when 2·weeks + 3·sites > 125 |
| ScenarioCalculations.CostImpactLinear | src/utils/scenarioCalculations.js:40-44 | cost is zero at zero, and each extra week adds 80 and each extra site 120 (£k) |
| ScenarioCalculations.CostImpactStrictlyIncreasing | src/utils/scenarioCalculations.js:40-44 | more weeks or more sites always cost strictly more |
| ScenarioCalculations.MarketLead | src/utils/scenarioCalculations.js:51-53 | the lead is a whole number of tenths of a month within half a tenth of weeks/4·0.75 (ties up) |
| ScenarioCalculations.MarketLeadMonotone | src/utils/scenarioCalculations.js:51-53 | more acceleration never shortens the market lead |
| ScenarioCalculations.ChartRows | src/utils/scenarioCalculations.js:60-76 | one row per table row, with `required`/`available` copied unchanged and covered + still-needed equal to the row's gap |
| ScenarioCalculations.ChartRowsLabels | src/utils/scenarioCalculations.js:68-69 | each row's chart label is its role name with the first space turned into a line break, and its short label is the first word |
| ScenarioCalculations.ChartRowsCoverageBounded | src/utils/scenarioCalculations.js:64-66 | every row's covered count lies between 0 and that row's gap |
| ScenarioCalculations.ChartRowsCoveredTotal | src/utils/scenarioCalculations.js:60-76 | the rows cover min(freed FTE, total gap) in all: everything freed is used unless the gap is smaller |
| ScenarioCalculations.ChartRowsExhausted | src/utils/scenarioCalculations.js:65-66 | with nothing left to hand out, no row is covered |
| ScenarioCalculations.ChartRowsFirstRowAbsorbs | src/utils/scenarioCalculations.js:64-66 | if the first row's gap can absorb all the freed FTE, it takes them all and the later rows get nothing |
| ScenarioCalculations.NothingAfterShortfallCons | src/utils/scenarioCalculations.js:62-66 | prepending a row keeps the in-order property when a short first row is followed only by uncovered rows |
| ScenarioCalculations.ChartRowsInOrder | src/utils/scenarioCalculations.js:62-66 | the hand-out follows table order: once a row is left short, every later row has covered = 0 |
| ScenarioCalculations.ChartData | src/utils/scenarioCalculations.js:60-76 | one bar per requirement row. For a non-negative percentage and a table without negative gaps, the bars fill in table order and together cover the smaller of the freed FTE and the total gap |
| ScenarioCalculations.ChartDataFillsInOrder | src/utils/scenarioCalculations.js:60-76 | for a non-negative percentage and a table without negative gaps, the chart rows for the freed FTE leave no later row covered after a short one, and cover min(freed FTE, total gap) in all |
| ScenarioCalculations.CalcVerdict | src/utils/scenarioCalculations.js:84-99 | exactly one level applies. Optimal iff gap 0 and cost ≤ 5000. Feasible iff gap 0 and cost > 5000. Caution iff gap 1–2. At risk iff gap > 2. The heading matches the level, and the caution/risk texts start with the gap in decimal followed by a non-digit |
| ScenarioCalculations.VerdictIgnoresMarketLead | src/utils/scenarioCalculations.js:84-92 | the market lead computed in `calcVerdict` has no effect: equal cost and percentage give equal verdicts |
| Text.IndexOfSpace | src/utils/scenarioCalculations.js:68-69 | locates the first space in a name, or reports that the name has none |
| Text.ReplaceFirstSpace | src/utils/scenarioCalculations.js:68 | `replace(' ', '\n')` keeps the length of the name |
| Text.ReplaceFirstSpaceOnlyTouchesFirstSpace | src/utils/scenarioCalculations.js:68 | only the first space changes, into a line break; every other character stays |
| Text.FirstWord | src/utils/scenarioCalculations.js:69 | `split(' ')[0]` contains no space |
| Text.LabelsRecoverName | src/utils/scenarioCalculations.js:68-69 | name = first word + space + rest, and the chart label = first word + line break + rest, so the name can be recovered from the label |
| Text.LabelsOfJoinedName | src/utils/scenarioCalculations.js:68-69 | conversely, a space-free word joined to any rest by a space is read back as that word |
| Text.NatToString | src/utils/scenarioCalculations.js:96-98 | `${gap}` renders a count as non-empty decimal digits without a leading zero |
| Text.NatToStringRoundTrip | src/utils/scenarioCalculations.js:96-98 | reading the rendered count back gives the count |
| Text.NatToStringInjective | src/utils/scenarioCalculations.js:96-98 | different counts render as different decimal strings |
| ScenarioCalculations.VerdictTextDeterminesGap | src/utils/scenarioCalculations.js:96-98 | two caution or risk verdicts with the same text report the same remaining gap: the number at the head of the text determines the gap |
| JsObject.Get | src/pages/ScenarioPlanner.jsx:527 | a property read finds a value exactly when the object has the key, and that value is the one stored in the first entry for the key |
| JsObject.Put | src/pages/ScenarioPlanner.jsx:531 | a spread update sets the key and leaves every other key's value. It adds only that key, growing the object by one entry exactly when the key was new |
| JsObject.PutKeepsKeysDistinct | src/pages/ScenarioPlanner.jsx:540 | a spread update never produces a duplicate key |
| JsObject.PutEntriesFrom | src/pages/ScenarioPlanner.jsx:531 | every entry after a spread update is the written one or an entry of the original object |
| JsObject.TotalAfterPut | src/pages/ScenarioPlanner.jsx:361-362 | writing one entry changes the sum of values by exactly that entry's change, a missing entry counting as 0 |
| ScenarioPlanner.Find | src/pages/ScenarioPlanner.jsx:528-529 | `find` returns the first element with the requested key, and nothing exactly when no element has it |
| ScenarioPlanner.FirstMatchIsFound | src/pages/ScenarioPlanner.jsx:528-529 | whichever element is the first with the key is the one `find` returns |
| ScenarioPlanner.MaxFteFromFirstEntries | src/pages/ScenarioPlanner.jsx:527-530 | the stepper's ceiling is the `maxFTE` of the first pool entry for the study and, within it, the first entry for the role |
| ScenarioPlanner.Clamp | src/pages/ScenarioPlanner.jsx:530 | for a non-negative ceiling the stored value lies in [0, max], an in-range value is kept, and values below or above snap to 0 or max |
| ScenarioPlanner.StepReallocation | src/pages/ScenarioPlanner.jsx:526-532 | `[studyId][role]` becomes the clamped current + delta; every other study and every other role of that study keeps its value |
| ScenarioPlanner.StepBench | src/pages/ScenarioPlanner.jsx:537-541 | bench `[role]` becomes the clamped current + delta against the bench ceiling; every other role keeps its value |
| ScenarioPlanner.UnknownTargetStoresZero | src/pages/ScenarioPlanner.jsx:527-530 | a study or role missing from the pool has ceiling 0, so the stored value is 0 |
| ScenarioPlanner.UnknownBenchRoleStoresZero | src/pages/ScenarioPlanner.jsx:538-540 | a role missing from the bench pool is stored as 0 |
| ScenarioPlanner.StepperButtons | src/pages/ScenarioPlanner.jsx:222-233 | an enabled − or + button moves an in-range value by exactly one; −1 at 0 and +1 at the ceiling change nothing |
| ScenarioPlanner.Initial | src/pages/ScenarioPlanner.jsx:486-492 | the page opens at the default weeks and sites, with the engine's allocation for those weeks and marked as optimised for them. The hiring dialog is closed and no study is expanded |
| ScenarioPlanner.FlagsAgree | src/pages/ScenarioPlanner.jsx:508-512 | the button is disabled iff the allocation is optimised, the AI scenario is optimised, and each banner goes with its caption: user-modified with "Optimise Allocation", AI recommended with "AI Recommendation Active", optimised with "Allocation Optimised" |
| ScenarioPlanner.BannerOf | src/pages/ScenarioPlanner.jsx:80-137 | the AI-recommended banner shows iff the page is on the AI scenario, the optimised banner iff the allocation is optimised for other than the AI scenario, and the user-modified banner iff it is not optimised |
| ScenarioPlanner.ButtonCaption | src/pages/ScenarioPlanner.jsx:622-624 | the caption is "AI Recommendation Active" iff on the AI scenario, "Allocation Optimised" iff optimised otherwise, and "Optimise Allocation" iff the button is enabled |
| ScenarioPlanner.SetWeeks | src/pages/ScenarioPlanner.jsx:486 | moving the weeks slider changes only the weeks: allocation, mark, sites, dialog and expanded study stay. The result counts as optimised iff the mark names the new weeks |
| ScenarioPlanner.Optimise | src/pages/ScenarioPlanner.jsx:514-522 | optimise adopts the engine's allocation for the current weeks and leaves the page optimised with the button disabled. The hiring dialog opens iff that allocation leaves roles to hire, and an open dialog stays open |
| ScenarioPlanner.StepperChange | src/pages/ScenarioPlanner.jsx:524-533 | a study edit rewrites only that cell and leaves the bench untouched. It sets the mark to none (the source's `null`) and keeps weeks, sites, dialog and expanded study. So the page is neither optimised nor the AI scenario and shows the user-modified banner |
| ScenarioPlanner.UnstaffedChange | src/pages/ScenarioPlanner.jsx:535-542 | a bench edit rewrites only that bench role and leaves the study allocations untouched. It sets the mark to none and keeps weeks, sites, dialog and expanded study, with the same banner and button consequences |
| ScenarioPlanner.CloseHiringDialog | src/pages/ScenarioPlanner.jsx:560 | closing the dialog hides it and changes nothing else: allocation, mark, weeks, sites and expanded study stay |
| ScenarioPlanner.ToggleStudy | src/pages/ScenarioPlanner.jsx:770 | a card header expands its study unless that study is already expanded, in which case no study is expanded. Allocation, mark, weeks, sites and dialog stay |
| ScenarioPlanner.StepReallocationKeepsWellFormed | src/pages/ScenarioPlanner.jsx:531 | the nested spread update keeps study keys and each study's role keys distinct |
| ScenarioPlanner.StepperChangeKeepsWellFormed | src/pages/ScenarioPlanner.jsx:524-533 | a study edit keeps the page's objects free of duplicate keys |
| ScenarioPlanner.UnstaffedChangeKeepsWellFormed | src/pages/ScenarioPlanner.jsx:535-542 | a bench edit keeps the page's objects free of duplicate keys |
| ScenarioPlanner.ObjectsStayWellFormed | src/pages/ScenarioPlanner.jsx:486-542 | given an engine that returns JavaScript objects, the first render and every handler leave allocations without duplicate keys |
| ScenarioPlanner.MarkMatchesEngineInvariant | src/pages/ScenarioPlanner.jsx:486-542 | in every reachable state, a mark naming a number of weeks means the allocation shown is the engine's recommendation for those weeks |
| ScenarioPlanner.OptimisedMeansEngineAllocation | src/pages/ScenarioPlanner.jsx:509-522 | whenever the page shows "optimised", re-running the engine would not change the allocation |
| ScenarioPlanner.GapRolesCounts | src/pages/ScenarioPlanner.jsx:149 | the grid keeps each requirement row with a positive gap as many times as the table lists it, and no other row |
| ScenarioPlanner.GapRolesMembers | src/pages/ScenarioPlanner.jsx:149 | a row is shown exactly when it is a table row with a positive gap |
| ScenarioPlanner.GapRolesCons | src/pages/ScenarioPlanner.jsx:149 | a leading row is kept in front of the filtered rest exactly when its gap is positive |
| ScenarioPlanner.GapRolesAppend | src/pages/ScenarioPlanner.jsx:149 | filtering keeps order: the filter of two row lists joined is the two filtered lists joined |
| ScenarioPlanner.CoveredOf | src/pages/ScenarioPlanner.jsx:195 | a row's covered count is the smaller of its gap and the FTE covering its role (0 when none): it exceeds neither, and equals one of them |
| ScenarioPlanner.ReallocationGridTotals | src/pages/ScenarioPlanner.jsx:149-152 | the total gap and total covered are the sums of gap and capped coverage over the gap rows. Total covered ≤ total gap, and the grid reports full coverage iff total covered reaches total gap, which holds iff every gap row is individually covered |
| ScenarioPlanner.CoveredSumCharacterised | src/pages/ScenarioPlanner.jsx:151-196 | summed row by row, the capped coverage stays within the summed gap, and it reaches the gap exactly when every row is covered |
| ScenarioPlanner.GapRolesKeepTotal | src/pages/ScenarioPlanner.jsx:149-150 | leaving out the zero-gap rows does not change the total gap |
| ScenarioPlanner.TotalGapAppend | src/pages/ScenarioPlanner.jsx:150 | the gap total of two row lists joined is the sum of their totals |
| ScenarioPlanner.ClassifyTrial | src/pages/ScenarioPlanner.jsx:360-370 | the removed FTE are the sum of the study's allocations. 0 is on track, a non-zero count up to 2 is at risk, more than 2 is significantly impacted. The label from the second decision chain always names the level |
| ScenarioPlanner.StepperMovesOnlyItsStudy | src/pages/ScenarioPlanner.jsx:361-362 | a stepper edit moves the edited study's removed-FTE count by exactly the cell's change and leaves every other study's count unchanged |
| ScenarioPlanner.BenchEditKeepsRisk | src/pages/ScenarioPlanner.jsx:360-370 | bench edits never change any study's risk classification |
| ScenarioPlanner.DeprioritisedCounts | src/pages/ScenarioPlanner.jsx:544 | the filter keeps each study with status 'deprioritise' as many times as the list holds it, and no other study |
| ScenarioPlanner.DeprioritisedMembers | src/pages/ScenarioPlanner.jsx:544 | a study is in the filtered list exactly when it is a deprioritised study of the list |
| ScenarioPlanner.DeprioritisedCons | src/pages/ScenarioPlanner.jsx:544 | a leading study is kept in front of the filtered rest exactly when it is deprioritised |
| ScenarioPlanner.DeprioritisedAppend | src/pages/ScenarioPlanner.jsx:544 | filtering keeps order: the filter of two lists joined is the two filtered lists joined |
| DemoData.FteRequirementsConsistent | src/data/demoData.js:226-232 | every requirement row stores gap = required − available, and that gap is not negative |
| DemoData.StudyPhasesConsistent | src/data/demoData.js:69-192 | every phase stores fteGap = fteRequired − fteAvailable, and is 'at-risk' exactly when that gap is positive |
| DemoData.OneAcceleratedStudy | src/data/demoData.js:50-194 | exactly one study (the first) is accelerated, and the others are deprioritised |
| DemoData.DefaultsWithinRanges | src/data/demoData.js:199-221 | each slider's default lies within its [min, max] |
| DemoScenario.FteRequirementsTotalGap | src/data/demoData.js:226-232 | the requirement table's total gap is 6 and no gap is negative |
| DemoScenario.SliderRangeNeverCloses | src/data/demoData.js:214-232 | over the 10–40 % slider range fewer FTE are freed than the 6 needed, 1 to 5 remain, and the verdict is never optimal or feasible |
| DemoScenario.DefaultScenario | src/data/demoData.js:199-221 | at the defaults (12 weeks, 15 sites, 25 %) the cost is 2760, the lead 2.3 months, 3 FTE are freed, 3 remain and the verdict is at risk |
| DemoScenario.DefaultChart | src/utils/scenarioCalculations.js:60-76 | at 25 % the 3 freed FTE all cover Clinical Operations and no other row gets any |
| DemoScenario.DefaultChartLabels | src/utils/scenarioCalculations.js:68-69 | the first bar is labelled "Clinical" on the axis and "Clinical", line break, "Operations" in full |
| DemoScenario.DemoDeprioritisedStudies | src/pages/ScenarioPlanner.jsx:544 | on the shipped study table the risk panel lists NP-HEM-215 and NP-MM-318, in that order |
| DemoScenario.OpensOnAiScenario | src/pages/ScenarioPlanner.jsx:486-512 | the page opens on the AI-recommended scenario with the optimise button disabled |

## Left out

- The allocation engine and the helpers the page imports for it (`calcOptimalAllocation`, `calcScaledFteRequirements`, `calcCoveredByRole`, `calcExternalHiringNeeded`, `calcTrialImpact`, `calcChartDataFromAllocation`, `calcRemainingGapFromAllocation`, `calcTotalReallocated`) and the `reallocationPool` / `unstaffedFTEPool` data are not part of this model. `src/utils/scenarioCalculations.js` does not define them. The engine is an uninterpreted parameter, and the pools are parameters.
- The page's values that only pass these helpers' results through are left out for the same reason: external hiring count, total reallocated, the trial impact summary text, and the phase-by-phase slippage. `totalUnstaffed` is `JsObject.Total` of the bench allocation.
- ScenarioCalculations.ReallocatedFtes: the result is exact rounding of the rational 13·pct/100. The source rounds a double, which agrees for all slider-range inputs (no product is close to a .5 tie) but is not modelled bit for bit.
- ScenarioCalculations.MarketLead: the result is the exact decimal tenths/10. The source returns the nearest double to it.
- JavaScript numbers are IEEE doubles, exact only up to 2^53, and `${n}` switches to exponent notation from 1e21 on. The model uses unbounded integers and plain decimal rendering. Every value the sliders and the shipped tables can produce is far below both bounds, so the two agree there.
- Date and locale formatting (`getTargetDate`) and the float-rounded timeline week labels: display-only formatting.
- The chart interpolation in `src/data/simulationData.js` and `ScenarioSimulation.jsx`: floating-point display blending.
- Rendering, styling, charts, routing and navigation components, and the Tailwind configuration: presentation only.
- Password gates: a plain equality check against a hard-coded secret.
- The checklist and approval state of the actions page: outside the planner.
- Narrative static content of `demoData.js` (competitor alert, KPI cards, checklist, e-mail and chat texts): no logic.
- The verdict's colour and the status badge mapping: presentation of `CalcVerdict`'s level.
