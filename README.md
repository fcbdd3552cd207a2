# MLOps roadmap progress tracker — verified model

The application shows a fixed roadmap of five phases with three steps each
and lets the user tick steps off. Its only logic is in `src/app/App.tsx`:

- the catalog constant `roadmapData`;
- the state updater inside `handleStepToggle`, which rebuilds the store
  `Record<number, number[]>` (phase number to completed step numbers);
- the derived numbers `totalSteps`, `totalCompleted` and `overallProgress`.

The model is written as pure functions and lemmas, because the source is pure
too: the updater never mutates the previous store, and the totals are
`reduce` expressions.

- `lists.dfy` (module `Lists`): duplicate-freedom, subsequences and a counting bound on integer lists.
- `catalog.dfy` (module `Catalog`): the roadmap as a constant `seq<Phase>`, its step count, and its shape.
- `progress.dfy` (module `Progress`): the store as `map<int, seq<int>>`. It has the read with a default of `[]`, the filter, and the toggle.
- `totals.dfy` (module `Totals`): the completed count, the rounded percentage, and the invariant that keeps the percentage in range.

Two behaviours of the code are worth knowing:

- Toggling twice does not always give back the same store. A phase with no
  entry comes back mapped to `[]`. A step that was already recorded moves to
  the end of the list (`Progress.ToggleTwiceNotIdentity`). The set of
  completed steps is restored (`Progress.ToggleTwiceSameSteps`).
- The source divides by `totalSteps` with no zero guard (`App.tsx:168`), so
  `Totals.OverallProgress` requires `total > 0`. The roadmap's total is 15
  (`Catalog.RoadmapTotalSteps`).

## Model

| member | source | states |
|---|---|---|
| `Catalog.RoadmapPhases` | src/app/App.tsx:19-135 | the roadmap has five phases, numbered 1 to 5 in order, each with three steps |
| `Catalog.RoadmapStepNumbers` | src/app/App.tsx:19-135 | read phase after phase, the step numbers are 1, 2, …, 15 |
| `Catalog.ConsecutiveSteps` | src/app/App.tsx:19-135 | a catalog whose phase i holds steps 3(b+i)+1..3(b+i)+3 lists its steps as one run 3b+1, 3b+2, … |
| `Catalog.RoadmapWellFormed` | src/app/App.tsx:19-135 | phase numbers are unique, and step numbers are unique within each phase |
| `Catalog.TotalSteps` | src/app/App.tsx:166 | the summed step counts equal the number of steps the catalog lists |
| `Catalog.RoadmapTotalSteps` | src/app/App.tsx:166 | the roadmap has 15 steps in all |
| `Progress.Completed` | src/app/App.tsx:149 | a phase with no entry reads as `[]`; the same read gives each phase card its list (App.tsx:217) |
| `Progress.Remove` | src/app/App.tsx:155 | the filtered list holds every value except `n` exactly as often as before (multiset), and no `n` |
| `Progress.RemoveIsSubsequence` | src/app/App.tsx:155 | the filter keeps the surviving elements in their original order |
| `Progress.RemoveUnique` | src/app/App.tsx:155 | any order-preserving sublist with those contents is the filter's result, so order plus contents pin down the filter |
| `Progress.Toggle` | src/app/App.tsx:147-164 | after a toggle, `n` is in phase `p`'s list exactly when it was absent before (a missing key reads as `[]`); the key `p` is added or kept; every other key keeps its entry |
| `Progress.ToggleFrame` | src/app/App.tsx:153-161 | every other phase reads as before, and every other step of phase `p` keeps its completed state |
| `Progress.ToggleAppends` | src/app/App.tsx:158-161 | toggling an absent step gives the old list with `n` appended at the end |
| `Progress.ToggleRemovesAll` | src/app/App.tsx:152-156 | toggling a present step removes every occurrence, keeps the other elements in order, and keeps their multiplicities |
| `Progress.ToggleKeepsNoDuplicates` | src/app/App.tsx:150-161 | a duplicate-free list stays duplicate-free after a toggle |
| `Progress.ToggleTwiceSameSteps` | src/app/App.tsx:147-163 | toggling twice leaves phase `p` with the same set of completed steps, and every other phase unchanged |
| `Progress.ToggleTwiceAbsent` | src/app/App.tsx:147-163 | toggling an absent step twice restores the list exactly. The store is restored when `p` had an entry; otherwise it gains the entry `p ↦ []` |
| `Progress.ToggleTwicePresent` | src/app/App.tsx:147-163 | toggling a present step twice gives the filtered list with `n` at the end |
| `Progress.ToggleTwiceNotIdentity` | src/app/App.tsx:147-163 | two concrete stores that a double toggle does not give back |
| `Totals.TotalCompleted` | src/app/App.tsx:167 | the completed count is at least the length of each phase's list |
| `Totals.TotalCompletedSplit` | src/app/App.tsx:167 | the count is one phase's list length plus the count of the rest, for any phase, so the order of `Object.values` does not matter |
| `Totals.TotalCompletedToggle` | src/app/App.tsx:147-167 | marking adds one to the completed count; un-marking subtracts the number of occurrences removed |
| `Totals.ToggleKeepsConsistent` | src/app/App.tsx:147-164 | toggling a declared step keeps a consistent store consistent. Consistent means: only catalog phases, only that phase's declared steps, no duplicates |
| `Totals.ToggleRunKeepsConsistent` | src/app/components/PhaseCard.tsx:93-102 | any run of the toggles the phase cards issue (declared phase and step numbers) keeps the store consistent |
| `Totals.CardTogglesDeclared` | src/app/components/PhaseCard.tsx:93-102 | the toggle a roadmap card issues for its phase and one of its steps targets a declared step of that phase, so it meets the requirement of `Totals.ToggleRunKeepsConsistent` |
| `Totals.ConsistentBound` | src/app/App.tsx:166-167 | a consistent store's completed count never exceeds the catalog's total steps |
| `Totals.OverallProgress` | src/app/App.tsx:168 | the percentage is the integer r with r − ½ ≤ 100·completed/total < r + ½ (round half up). It is at least 0, and at most 100 when completed ≤ total |
| `Totals.RoundingBracket` | src/app/App.tsx:168 | the integer quotient formula satisfies the round-half-up bracket and the range |
| `Totals.FifteenStepsHaveNoTies` | src/app/App.tsx:168 | with 15 steps, 100·completed/15 is never a half-integer, so the tie rule never matters |
| `Totals.ProgressExamples` | src/app/App.tsx:168 | 0 of 15 gives 0, 2 of 15 gives 13, 15 of 15 gives 100 |
| `Totals.ConsistentProgressInRange` | src/app/App.tsx:166-168 | for a consistent store the roadmap's overall percentage lies in [0, 100] |
| `Totals.StaleEntriesCount` | src/app/App.tsx:167-168 | repeated entries and unknown phases count towards the total, and a store holding 16 entries for an unknown phase reads above 100 percent of the roadmap |
| `Totals.TwoStepsScenario` | src/app/App.tsx:147-168 | from an empty store, marking steps 1 and 2 of phase 1 gives the list [1, 2] and 13 percent |
| `Totals.ToggleBackScenario` | src/app/App.tsx:147-168 | from an empty store, toggling step 1 of phase 1 twice gives an empty list and 0 percent |

## Left out

- Loading the store from `localStorage` and parsing it with `JSON.parse`, and saving it with `JSON.stringify` (`App.tsx:138-145`). These are browser and runtime calls whose code is not part of this model. The model takes any `map<int, seq<int>>` as the starting store. It does not model the exception that malformed stored text raises at `App.tsx:140`.
- React state and effect plumbing, and all rendering: the header, badges and progress-bar width in `App.tsx:170-240`, and all of `src/app/components/PhaseCard.tsx`. That covers its expand/collapse flag, its colour class tables, its floating-point per-phase bar width, and its `includes` check for the tick icon.
- Titles, subtitles and step descriptions: display text with no part in the logic. A phase keeps its number, its colour tag and its step numbers.
- Colour tags: the source's `color` is a free `string` (`App.tsx:16`) that only selects CSS classes (`PhaseCard.tsx:54`, `61`, `71`). The model narrows it to the roadmap's five tags (`Catalog.Color`), and no modelled operation reads it.
- JavaScript numbers are doubles. The model uses mathematical integers for phase and step numbers and counts. Non-integer or NaN keys are not modelled.
- Totals.OverallProgress: models `Math.round((completed / total) * 100)` with exact integer round-half-up, not with floating-point division. For the roadmap's 15 steps the exact value is never within 1/30 of a half (`Totals.FifteenStepsHaveNoTies`), so rounding error in the floating-point division cannot change the result.
- Totals.TotalCompleted: a ghost function. JavaScript's `Object.values` visits integer-like keys in ascending order; the model leaves the order open, and `Totals.TotalCompletedSplit` shows the sum does not depend on it.
