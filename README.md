# Minesetter reverse solver, level editor and site loader, in Dafny

This project models the reverse-Minesweeper ("Minesetter") level tools of the Orpita
Studio website. A level is a rectangular board with the following cells:

- blocks and switches (a switch is either blocked or open);
- must-bombs;
- up to three star conditions.

The player places normal bombs (+1 to every non-bomb neighbour), power bombs (+2) and
negative bombs (-1). The score is the sum of the numbers shown. The solver enumerates
every placement for every switch mask and keeps the placements whose score lies in the
target range. It then evaluates the star conditions on each of them.

Three generations of the solver are modelled.

- The LevelDesign worker (`LevelDesign`) adds heatmaps, a score histogram and
  condition-intersection buckets, with two caps.
- The RMV2 worker (`Rmv2Worker`) keeps records until `maxSolutions`.
- The RMV1 in-page solver (`Rmv1Solver.Session`) uses a global abort flag.

All three perform the same search. `Search` writes that search once, as the sequence of
events it produces. Each solver is specified as a left fold of its own step over that
sequence. Each solver's imperative loops (one method per loop level) are proved to
compute exactly that fold.

The project also models these parts:

- the editor's click and grid logic (`Editor`);
- the condition parsers and the gathering of the three star slots
  (`ConditionParsers`, over `Text`);
- the numbers shown when a solution is viewed (`SolutionView`);
- the post-solve analysis (`Analysis`);
- the RMV2 controller that drives the worker (`Controller`);
- the grid helpers of `RMV2/utils.js` (`Grid`, `Utils`);
- the site's language and link script (`SiteLoad`).

Several pieces of code appear in more than one file. They are identical, so each is
modelled once:

- `nCrBig` appears three times.
- `computeNeighbors` appears four times, counting the inline copy in `refreshGridVisual`.
- `buildGrid` and the condition templates appear in both `ui-core.js` files.
- `cellClicked` has the same text in both `ui-core.js` files, but RMV2's state defines
  no `stars` set (`RMV2/state.js:14` is commented out), so the RMV2 copy throws at the
  first `stars` access. The model follows the RMV1 copy, where the set exists.
- The inline star-condition switch is the same in the RMV1 `store` and the RMV2 worker.

Where the copies differ, each difference is modelled separately:

- `getCombinations` for a negative k;
- the polarity of `setSwitches`;
- the zero-value cells that `emptyCellsCount` counts;
- the reading of the target bounds;
- the estimate's fallback value.

Where the code and its comments disagree, the model follows the code.

- The LevelDesign `anyCellValue` scans every cell, bomb cells included, whose value
  is 0.
- The LevelDesign `emptyCellsCount` does not exclude blocked cells.
- The LevelDesign `setSwitches` reads SWITCH_OFF as blocked. RMV1 and RMV2 read
  SWITCH_ON as blocked.
- `getCombinations` in LevelDesign and RMV2 yields one empty combination for a
  negative k. RMV1 yields none.

Integers are unbounded, except where the code narrows them, and there the narrowing is
written out:

- `1 << n` (`Placement.ShiftOne`);
- the `Uint32Array` heatmaps, which wrap at 2^32 (`LevelDesign.Bump32`);
- JavaScript `%` and BigInt `/`, which truncate toward zero (`Grid.JsRem`,
  `Analysis.Quot`).

## Model

| member | source | states |
|---|---|---|
| Common.Without | Games/Minesetter/LevelDesign/solver-worker.js:208 | `filter(x => !drop.includes(x))` keeps exactly the elements not in `drop`, and never grows |
| Common.OrDefault | RMV2/solver.js:66-74 | `parseInt(...) \|\| d`: a readable non-zero number is kept; an unreadable entry (NaN) or 0 falls back to the default |
| Combinatorics.NCrBig | Games/Minesetter/LevelDesign/solver-worker.js:19-27 | the loop with the symmetry step and exact BigInt division returns the binomial coefficient C(n,k), and 0 when k < 0 or k > n |
| Combinatorics.ChooseBeyond | Games/Minesetter/LevelDesign/solver-worker.js:21 | C(n,k) = 0 when k > n, the first early return |
| Combinatorics.ChooseAll | Games/Minesetter/LevelDesign/solver-worker.js:22 | C(n,n) = 1, the second early return |
| Combinatorics.ChooseSymmetric | Games/Minesetter/LevelDesign/solver-worker.js:23 | C(n,k) = C(n,n-k), which justifies replacing k by n-k |
| Combinatorics.ChooseStep | Games/Minesetter/LevelDesign/solver-worker.js:25 | k·C(n,k) = (n-k+1)·C(n,k-1), so each BigInt division in the loop is exact |
| Combinatorics.ChoosePositive | Games/Minesetter/LevelDesign/solver-worker.js:19-27 | C(n,k) ≥ 1 for 0 ≤ k ≤ n |
| Combinatorics.ChooseOne | Games/Minesetter/LevelDesign/solver-worker.js:19-27 | C(n,1) = n |
| Combinatorics.ChooseFactorial | Games/Minesetter/LevelDesign/solver-worker.js:19-27 | the recursive coefficient agrees with n!/(k!(n-k)!) |
| Combinatorics.CombosCount | Games/Minesetter/LevelDesign/solver-worker.js:35-47 | the number of k-selections of indices lo..n-1 is C(n-lo,k) |
| Combinatorics.CombosSelections | Games/Minesetter/LevelDesign/solver-worker.js:38-46 | every enumerated index list is strictly increasing, has length k and lies in [lo,n) |
| Combinatorics.CombosComplete | Games/Minesetter/LevelDesign/solver-worker.js:38-46 | every strictly increasing k-selection of [lo,n) is enumerated |
| Combinatorics.CombosSorted | Games/Minesetter/LevelDesign/solver-worker.js:38-46 | the enumeration is strictly lexicographically increasing |
| Combinatorics.CombosDistinct | Games/Minesetter/LevelDesign/solver-worker.js:38-46 | no selection is enumerated twice |
| Combinatorics.CombosFirst | Games/Minesetter/LevelDesign/solver-worker.js:38 | the first selection is 0,1,…,k-1 (offset by lo) |
| Combinatorics.NextAllAtMaximum | Games/Minesetter/LevelDesign/solver-worker.js:42-43 | when every index sits at its maximum, the stepping ends the enumeration |
| Combinatorics.NextAt | Games/Minesetter/LevelDesign/solver-worker.js:42-45 | otherwise the rightmost index below its maximum is bumped and the tail reset to consecutive values |
| Combinatorics.CombosChain | Games/Minesetter/LevelDesign/solver-worker.js:39-46 | one step of the index stepping leads from each selection to the next one in the enumeration, and ends after the last |
| Combinatorics.CombosChainEnd | Games/Minesetter/LevelDesign/solver-worker.js:43-44 | the stepping ends exactly at the last selection |
| Combinatorics.Pick | Games/Minesetter/LevelDesign/solver-worker.js:40 | `indices.map(x => arr[x])` picks the elements at the given indices, in order |
| Combinatorics.PickAll | Games/Minesetter/LevelDesign/solver-worker.js:40 | mapping a list of index lists picks each of them |
| Combinatorics.Advance | Games/Minesetter/LevelDesign/solver-worker.js:41-45 | the in-place update of the index array performs one step of the enumeration, or reports the end |
| Combinatorics.StepSubsets | Games/Minesetter/LevelDesign/solver-worker.js:38-46 | the generator loop yields exactly the enumeration of k-subsets of arr, in order |
| Combinatorics.GetCombinations | Games/Minesetter/LevelDesign/solver-worker.js:35-47 | `getCombinations` yields one empty combination for k = 0, nothing for k > \|arr\|, one empty combination for a negative k, otherwise the k-subsets in order |
| Combinatorics.SubsetsCount | RMV2/solver-worker.js:95-113 | the generator yields C(\|arr\|,k) combinations |
| Combinatorics.SubsetsAreSubsequences | RMV2/solver-worker.js:95-113 | every yielded combination picks arr at a strictly increasing index list |
| Combinatorics.SubsetMembers | RMV2/solver-worker.js:95-113 | every yielded combination uses elements of arr only |
| Combinatorics.SubsetsComplete | RMV2/solver-worker.js:95-113 | every pick at a strictly increasing k-index list is yielded |
| Combinatorics.SubsetsDistinct | RMV2/solver-worker.js:95-113 | from a duplicate-free array no combination is yielded twice |
| Grid.JsRem | RMV2/utils.js:73 | JavaScript `%` agrees with the mathematical remainder on non-negative ids |
| Grid.IdxRoundTrip | RMV2/utils.js:72-85 | `rcToIdx(idxToRC(i)) == i` for every non-negative id |
| Grid.RcRoundTrip | RMV2/utils.js:72-85 | `idxToRC(rcToIdx(r,c)) == (r,c)` for r ≥ 0 and 0 ≤ c < cols |
| Grid.NegativeIdNoRoundTrip | RMV2/utils.js:72-85 | with `Math.floor` and a truncating `%`, id -1 does not round-trip (cols = 3 gives (-1,-1) and back -4) |
| Grid.NeighborMap | Games/Minesetter/LevelDesign/solver-worker.js:124-141 | the neighbour map has one list per cell |
| Grid.ScanCell | Games/Minesetter/LevelDesign/solver-worker.js:126-139 | the dr/dc loop of one cell collects the in-board, non-blocked targets in scan order |
| Grid.Visit | Games/Minesetter/LevelDesign/solver-worker.js:131-136 | one (dr, dc) pass appends exactly the target cell when it is on the board, not the cell itself and not blocked |
| Grid.ComputeNeighbors | Games/Minesetter/LevelDesign/solver-worker.js:124-141 | `computeNeighbors` fills the array with the neighbour map of the blocked set |
| Grid.ScanMembers | Games/Minesetter/LevelDesign/solver-worker.js:130-137 | a cell is collected iff it is not blocked and is one of the in-board offsets already scanned |
| Grid.TargetDecodes | Games/Minesetter/LevelDesign/solver-worker.js:133-135 | each in-board target lies on the board one row/column step away |
| Grid.SlotOf | Games/Minesetter/LevelDesign/solver-worker.js:130-137 | every adjacent cell is reached by some scan offset |
| Grid.NeighborsExactly | Games/Minesetter/LevelDesign/solver-worker.js:124-141 | j is in the list of i iff i ≠ j, both are on the board, they are at most one row and one column apart, and j is not blocked (blocked cells have empty lists) |
| Grid.NeighborsSymmetric | Games/Minesetter/LevelDesign/solver-worker.js:124-141 | adjacency is symmetric |
| Grid.NeighborListShape | Games/Minesetter/LevelDesign/solver-worker.js:124-141 | each list has at most 8 entries, no duplicates, never the cell itself, and only non-blocked board cells |
| Grid.TargetsDiffer | Games/Minesetter/LevelDesign/solver-worker.js:130-135 | two different offsets never reach the same cell |
| Grid.ScanShape | Games/Minesetter/LevelDesign/solver-worker.js:130-137 | a partial scan collects at most one cell per offset other than (0,0) and no duplicates |
| Placement.ShiftOneExact | Games/Minesetter/LevelDesign/solver-worker.js:150 | `1 << n` is 2^n for n < 31 |
| Placement.ShiftOneWraps | Games/Minesetter/LevelDesign/solver-worker.js:150 | `1 << 31` is negative and `1 << 32` is 1 (the shift count is taken mod 32) |
| Placement.AddOnce | Games/Minesetter/LevelDesign/solver-worker.js:192 | `Set.add` keeps the members and adds x |
| Placement.BlockedListExactly | Games/Minesetter/LevelDesign/solver-worker.js:190-193 | a switch is blocked under mask i iff bit j of i is set for one of its positions; the list has no duplicates |
| Placement.BlockedSwitches | Games/Minesetter/LevelDesign/solver-worker.js:190-193 | the bit loop builds the blocked-switch list of the mask |
| Placement.AvailExactly | Games/Minesetter/LevelDesign/solver-worker.js:199-202 | the available cells are increasing and are exactly the board cells neither blocked nor must-bombs |
| Placement.AvailableCells | Games/Minesetter/LevelDesign/solver-worker.js:199-202 | the k loop computes the available cells |
| Placement.WeightedAppend | Games/Minesetter/LevelDesign/solver-worker.js:97-115 | the score contribution of a concatenated bomb list is the sum of the parts |
| Placement.TypeScore | Games/Minesetter/LevelDesign/solver-worker.js:101-107 | `calculateTypeScore` adds `impact` once per (bomb, non-bomb neighbour) pair |
| Placement.CalculateScoreImpact | Games/Minesetter/LevelDesign/solver-worker.js:97-115 | the score is +1 per non-bomb neighbour of each must-bomb and normal bomb, +2 per power bomb and -1 per negative bomb |
| Placement.AddList | Games/Minesetter/LevelDesign/solver-worker.js:250 | adding to one neighbour list keeps the board size |
| Placement.AddImpact | Games/Minesetter/LevelDesign/solver-worker.js:249-251 | `addVal` keeps the board size |
| Placement.Zeros | Games/Minesetter/LevelDesign/solver-worker.js:248 | the field starts at 0 on every cell |
| Placement.ZerosAreAllZero | Games/Minesetter/LevelDesign/solver-worker.js:248 | every cell of the fresh field is 0 |
| Placement.SumUpdate | Games/Minesetter/LevelDesign/solver-worker.js:250 | `cellValues.set(n, get(n) + val)` raises the field total by val |
| Placement.AddListTotal | Games/Minesetter/LevelDesign/solver-worker.js:250 | one bomb's update raises the total by w per non-bomb neighbour |
| Placement.AddImpactTotal | Games/Minesetter/LevelDesign/solver-worker.js:249-251 | one `addVal` call raises the field total by the bombs' weighted score |
| Placement.AddListKeepsBombs | Games/Minesetter/LevelDesign/solver-worker.js:250 | bomb cells are never written |
| Placement.AddImpactKeepsBombs | Games/Minesetter/LevelDesign/solver-worker.js:249-251 | bomb cells keep their value through `addVal` |
| Placement.AddListAt | Games/Minesetter/LevelDesign/solver-worker.js:250 | a non-bomb cell gains w per occurrence in the neighbour list |
| Placement.AddImpactAt | Games/Minesetter/LevelDesign/solver-worker.js:249-251 | a non-bomb cell gains w for every bomb of the list it neighbours |
| Placement.AddVal | RMV2/solver-worker.js:208-213 | the nested `addVal` loops compute the per-cell update |
| Placement.CellField | RMV1/solver.js:73-99 | the field has one value per cell |
| Placement.CellFieldTotal | RMV1/solver.js:40-99 | the field's total equals the placement's score |
| Placement.CellFieldAt | RMV1/solver.js:73-99 | a bomb cell shows 0; any other cell shows (#normal + 2·#power − #negative neighbouring bombs) |
| Placement.ComputeCellValues | RMV1/solver.js:73-99 | `calculateCellValues` computes the field |
| Conditions.Classify | Games/Minesetter/LevelDesign/solver-worker.js:267-276 | the bucket chain picks each of the eight buckets exactly for its combination of met conditions |
| Conditions.CountTrue | Games/Minesetter/LevelDesign/solver-worker.js:267 | `filter(Boolean).length` is at most the length, and 0 iff no condition is met |
| Conditions.CountTrueSet | RMV2/solver-worker.js:242 | setting an unset flag adds one star |
| Conditions.Bump | Games/Minesetter/LevelDesign/solver-worker.js:268-276 | counting a bucket adds one to it and to the total, leaving the other buckets unchanged |
| Conditions.AllBombed | Games/Minesetter/LevelDesign/solver-worker.js:65-66 | `placeBombAt` (LevelDesign) holds iff every listed cell is a bomb |
| Conditions.AnyBombed | RMV2/solver-worker.js:225 | `placeBombAt` (RMV1, RMV2) holds iff some listed cell is a bomb |
| Conditions.HasValue | Games/Minesetter/LevelDesign/solver-worker.js:67-69 | `anyCellValue` holds iff some cell has the value |
| Conditions.FindValue | Games/Minesetter/LevelDesign/solver-worker.js:67-69 | the early-return loop finds a cell with the value iff one exists |
| Conditions.ZeroCount | Games/Minesetter/LevelDesign/solver-worker.js:72-75 | the zero count is at most the number of cells |
| Conditions.CountZeros | Games/Minesetter/LevelDesign/solver-worker.js:72-75 | the counting loop returns the number of zero-valued cells outside the excluded set |
| Conditions.ZeroCountIsCardinality | Games/Minesetter/LevelDesign/solver-worker.js:72-75 | the recursive count is the size of the set of zero cells |
| Conditions.ZeroCountAntitone | RMV2/solver-worker.js:237-240 | excluding more cells (blocks as well as bombs) never increases the count |
| Conditions.ReqsHold | RMV2/solver-worker.js:235-236 | `cellValues` holds iff every required cell is a non-bomb board cell with the required value |
| Conditions.OffMeansBlocked | Games/Minesetter/LevelDesign/solver-worker.js:76-82 | the LevelDesign `setSwitches` holds iff each requirement reads SWITCH_OFF exactly when its switch is blocked |
| Conditions.OnMeansBlocked | RMV2/solver-worker.js:226-231 | the RMV2 and RMV1 `setSwitches` holds iff each requirement reads SWITCH_ON exactly when its switch is blocked |
| Conditions.Flip | RMV2/solver-worker.js:229 | swapping ON and OFF keeps each id and changes each state |
| Conditions.SwitchPolarityOpposite | Games/Minesetter/LevelDesign/solver-worker.js:76-82 | the two generations read the same requirement list with opposite polarity |
| Search.FlatMapAppend | Games/Minesetter/LevelDesign/solver-worker.js:207-226 | the events of a loop over concatenated combination lists are the events of each part, in order (every loop level is one instance) |
| Search.MaskRangeSplit | Games/Minesetter/LevelDesign/solver-worker.js:189-298 | the switch loop's events split at any mask |
| Search.FoldAppend | Games/Minesetter/LevelDesign/solver-worker.js:189-298 | running the search over two stretches is running it over the first, then the second |
| Search.FoldKeeps | Games/Minesetter/LevelDesign/solver-worker.js:189-298 | a property every step keeps holds after the whole search |
| Search.AllGoodAppend | Games/Minesetter/LevelDesign/solver-worker.js:207-226 | well-formed event stretches concatenate |
| Search.CombsWithin | Games/Minesetter/LevelDesign/solver-worker.js:207 | each combination takes its cells from its array, increasing when the array is |
| Search.WithoutIncreasing | Games/Minesetter/LevelDesign/solver-worker.js:208 | `rem1`/`rem2` stay in increasing order |
| Search.NegEventsGood | Games/Minesetter/LevelDesign/solver-worker.js:226 | each negative combination, with its normal and power combinations, forms a well-formed placement |
| Search.PowerEventsGood | Games/Minesetter/LevelDesign/solver-worker.js:211-226 | each power block yields well-formed placements |
| Search.NormalEventsGood | Games/Minesetter/LevelDesign/solver-worker.js:207-226 | each normal block yields well-formed placements |
| Search.MaskEventsGood | Games/Minesetter/LevelDesign/solver-worker.js:189-226 | every placement of a mask is well formed |
| Search.MaskRangeGood | Games/Minesetter/LevelDesign/solver-worker.js:189-298 | every placement of any mask range is well formed |
| Search.SearchPlacements | Games/Minesetter/LevelDesign/solver-worker.js:199-226 | every placement uses pairwise disjoint, increasing bomb lists of available cells: on the board, not blocked under its mask, not a must-bomb |
| Search.NeighborMapInBoard | Games/Minesetter/LevelDesign/solver-worker.js:124-141 | every neighbour id is a board cell |
| Search.GoodIsOk | Games/Minesetter/LevelDesign/solver-worker.js:226-230 | a well-formed placement can be scored, and its normal bombs avoid the must-bombs |
| Search.CurrentBlocks | Games/Minesetter/LevelDesign/solver-worker.js:195 | `new Set([...blocks, ...blockedSwitches])` holds exactly the cells of both lists |
| Search.ComputeView | Games/Minesetter/LevelDesign/solver-worker.js:190-202 | the per-mask set-up computes the blocked switches, blocked cells, neighbour map and available cells of the mask |
| Search.CombsCells | Games/Minesetter/LevelDesign/solver-worker.js:207 | combinations of board cells are board cells |
| Search.ViewInBoard | Games/Minesetter/LevelDesign/solver-worker.js:195-202 | a mask's neighbour map and available cells lie on the board |
| Search.FoldSnoc | Games/Minesetter/LevelDesign/solver-worker.js:226 | one more event is one more step |
| Search.StoppedStays | Games/Minesetter/LevelDesign/solver-worker.js:292 | once the search has stopped (`break outerLoop`), later events change nothing |
| Search.NegStep | Games/Minesetter/LevelDesign/solver-worker.js:226 | one iteration of the negative loop is one placement step |
| Search.NegRest | Games/Minesetter/LevelDesign/solver-worker.js:226 | leaving the negative loop early after a stop gives the same state as finishing it |
| Search.PowerStep | Games/Minesetter/LevelDesign/solver-worker.js:211 | one iteration of the power loop is one power block |
| Search.PowerRest | Games/Minesetter/LevelDesign/solver-worker.js:211 | leaving the power loop early after a stop gives the same state as finishing it |
| Search.NormalStep | Games/Minesetter/LevelDesign/solver-worker.js:207 | one iteration of the normal loop is one normal block |
| Search.NormalRest | Games/Minesetter/LevelDesign/solver-worker.js:207 | leaving the normal loop early after a stop gives the same state as finishing it |
| Search.MaskStep | Games/Minesetter/LevelDesign/solver-worker.js:189 | one iteration of the switch loop is one mask's events |
| Search.MaskRest | Games/Minesetter/LevelDesign/solver-worker.js:189 | leaving the switch loop early after a stop gives the same state as finishing it |
| Search.MaskFold | Games/Minesetter/LevelDesign/solver-worker.js:204-207 | a mask with too few free cells contributes nothing; otherwise it contributes its normal loop |
| Search.SkippedMaskFold | Games/Minesetter/LevelDesign/solver-worker.js:204 | the `continue` for an infeasible mask leaves the state unchanged |
| Search.OpenMaskFold | RMV1/solver.js:153-161 | a feasible mask first adds its count, then runs its normal loop |
| Search.EstimatePositive | Games/Minesetter/LevelDesign/solver-worker.js:174-182 | with enough free cells and fewer than 31 switches, the estimate is positive |
| Search.EstimateNegative | RMV2/solver-worker.js:43-54 | with exactly 31 switches and room for the bombs, `1 << 31` wraps and the estimate is negative |
| Search.ComputeEstimate | Games/Minesetter/LevelDesign/solver-worker.js:174-182 | the estimate is the product of the three binomials and 2^switches when the bombs fit, else the fallback (0 in LevelDesign, 1 in RMV2) |
| Search.Progress | Games/Minesetter/LevelDesign/solver-worker.js:216-218 | the percentage is capped to [0,100], and is the floor of processed·100/estimate while below 100 |
| Search.ProgressWithinEstimate | Games/Minesetter/LevelDesign/solver-worker.js:216-218 | while the processed count is within the estimate, no capping happens |
| LevelDesign.Status | Games/Minesetter/LevelDesign/solver-worker.js:260-265 | the status has three flags; flag k is the first condition of star k checked, or false when that star has none |
| LevelDesign.CheckCondition | Games/Minesetter/LevelDesign/solver-worker.js:58-86 | a missing or unknown condition is false; `getScore` compares the sum, `placeBombAt` needs every listed cell bombed, `anyCellValue` needs some cell with the value, `setSwitches` reads SWITCH_OFF as blocked |
| LevelDesign.StatusReadsFirstConditions | Games/Minesetter/LevelDesign/solver-worker.js:260-265 | only the first condition of each of the first three stars matters |
| LevelDesign.Field | Games/Minesetter/LevelDesign/solver-worker.js:248-256 | the field (player normal bombs, then must-bombs, then power and negative bombs) has one value per cell |
| LevelDesign.WithoutPrefix | Games/Minesetter/LevelDesign/solver-worker.js:253 | `finalNormal.filter(x => !mustBombs.includes(x))` gives back the player's normal bombs |
| LevelDesign.FieldTotal | Games/Minesetter/LevelDesign/solver-worker.js:230-256 | the field's total is the placement's score, and every bomb cell shows 0 |
| LevelDesign.Bump32 | Games/Minesetter/LevelDesign/solver-worker.js:243-245 | the heatmap keeps its size |
| LevelDesign.MapTotalBump | Games/Minesetter/LevelDesign/solver-worker.js:240 | `targetStats[sum] = (targetStats[sum] \|\| 0) + 1` adds one to the histogram's total |
| LevelDesign.InitialConsistent | Games/Minesetter/LevelDesign/solver-worker.js:148-170 | the empty containers satisfy the invariant |
| LevelDesign.InitialCaps | Games/Minesetter/LevelDesign/solver-worker.js:148-170 | the empty containers respect both caps |
| LevelDesign.InitialStored | Games/Minesetter/LevelDesign/solver-worker.js:148-170 | no solution is stored at the start |
| LevelDesign.InitialTotals | Games/Minesetter/LevelDesign/solver-worker.js:148-170 | all counters start at 0 |
| LevelDesign.CountConsistent | Games/Minesetter/LevelDesign/solver-worker.js:236-298 | counting an on-target placement keeps the counters equal (exact count, `totalFound`, histogram total, bucket total), the display cap, the analysis cap and the stop flag |
| LevelDesign.ApplyConsistent | Games/Minesetter/LevelDesign/solver-worker.js:226-298 | every event keeps the invariant |
| LevelDesign.FoldConsistent | Games/Minesetter/LevelDesign/solver-worker.js:189-298 | any stretch of the search keeps the invariant |
| LevelDesign.ResultConsistent | Games/Minesetter/LevelDesign/solver-worker.js:306-313 | in the reported state, the exact count, `totalFound`, histogram total and bucket total agree; min(found, maxSolutions) solutions are stored; the count never exceeds `maxAnalysisSolutions`; the search stopped exactly when it reached the cap; every stored sum is on target (what is counted is `LevelDesign.ResultCountsHits`) |
| LevelDesign.NewHit | Games/Minesetter/LevelDesign/solver-worker.js:228-288 | a placement is a hit only when it is on target; its record holds the normal combination, the power and negative bombs, its sum, three flags and the blocked switches |
| LevelDesign.HitsInTarget | Games/Minesetter/LevelDesign/solver-worker.js:233 | every hit of the search is on target and has three flags |
| LevelDesign.SumsOf | Games/Minesetter/LevelDesign/solver-worker.js:240 | the list of the records' sums, one per record |
| LevelDesign.StatsCountSums | Games/Minesetter/LevelDesign/solver-worker.js:240 | the histogram built by `targetStats[sum] = (targetStats[sum] \|\| 0) + 1` holds, for each sum, the number of records with that sum |
| LevelDesign.Bump32Append | Games/Minesetter/LevelDesign/solver-worker.js:243-245 | bumping a heatmap over two lists in turn is bumping it over their concatenation |
| LevelDesign.Bump32Count | Games/Minesetter/LevelDesign/solver-worker.js:243-245 | a `Uint32Array` heatmap cell ends at its start value plus the number of times it was listed, modulo 2^32 |
| LevelDesign.HeatCount | Games/Minesetter/LevelDesign/solver-worker.js:158-160 | a zeroed heatmap counts, modulo 2^32, how often each cell is listed |
| LevelDesign.BucketsCountClasses | Games/Minesetter/LevelDesign/solver-worker.js:268-276 | each intersection bucket holds the number of records whose flags fall into it |
| LevelDesign.CountAggregates | Games/Minesetter/LevelDesign/solver-worker.js:239-276 | a counted placement adds its record to the histogram, the three heatmaps and the buckets |
| LevelDesign.TracksStopped | Games/Minesetter/LevelDesign/solver-worker.js:292 | after `break outerLoop` later hits change nothing |
| LevelDesign.TracksQuiet | Games/Minesetter/LevelDesign/solver-worker.js:211-233 | progress ticks and off-target placements change nothing that is counted |
| LevelDesign.TracksHalt | Games/Minesetter/LevelDesign/solver-worker.js:236-293 | a hit with the analysis cap already reached ends the search, which only happens before anything is counted |
| LevelDesign.TracksCount | Games/Minesetter/LevelDesign/solver-worker.js:236-288 | a counted hit extends the count, the stored list (while under `maxSolutions`) and the aggregates by exactly its record |
| LevelDesign.ApplyTracks | Games/Minesetter/LevelDesign/solver-worker.js:228-298 | every event keeps the state tracking the hits seen so far |
| LevelDesign.ApplyCaps | Games/Minesetter/LevelDesign/solver-worker.js:228-298 | every event keeps the caps |
| LevelDesign.FoldTracks | Games/Minesetter/LevelDesign/solver-worker.js:189-302 | any stretch of the search from the start tracks its hits |
| LevelDesign.TracksReports | Games/Minesetter/LevelDesign/solver-worker.js:306-313 | a tracking state reports min(hits, maxAnalysisSolutions) as `totalFound`, the first min(totalFound, maxSolutions) hits as solutions, and the aggregates of the counted hits |
| LevelDesign.TracksNext | Games/Minesetter/LevelDesign/solver-worker.js:237-293 | after one more counted hit, `totalFound` is one higher, the stored list grows by that hit while under `maxSolutions`, and the search stops exactly at the analysis cap |
| LevelDesign.FoldReports | Games/Minesetter/LevelDesign/solver-worker.js:189-313 | any run of the search from the start reports its hits: their number up to the analysis cap, the first of them up to the display cap, and their statistics |
| LevelDesign.ResultCountsHits | Games/Minesetter/LevelDesign/solver-worker.js:233-313 | `totalFound` is the number of in-target placements of the search, up to `maxAnalysisSolutions`; the solutions are the first of them, up to `maxSolutions`; the histogram, heatmaps and buckets are those of the counted ones |
| LevelDesign.ResultStatistics | Games/Minesetter/LevelDesign/solver-worker.js:233-313 | `targetStats[k]` is how many counted placements score k; a heatmap cell is how often it is bombed among them, modulo 2^32; a bucket is how many have flags in it |
| LevelDesign.AggregatesCount | Games/Minesetter/LevelDesign/solver-worker.js:240-276 | aggregates built over some records count them, cell by cell, sum by sum and bucket by bucket |
| LevelDesign.ResultWithoutAnalysisCap | Games/Minesetter/LevelDesign/solver-worker.js:236-238 | without `maxAnalysisSolutions` the comparison is false, so the first on-target placement ends the search and nothing is counted or stored |
| LevelDesign.NoAnalysisCapCountsNothing | Games/Minesetter/LevelDesign/solver-worker.js:236-292 | without an analysis cap no state reachable under the caps counts anything |
| LevelDesign.StepHalts | Games/Minesetter/LevelDesign/solver-worker.js:292 | after `break outerLoop` nothing changes |
| LevelDesign.StepIgnoresMarkers | Games/Minesetter/LevelDesign/solver-worker.js:189-226 | the mask markers do not change the worker's state |
| LevelDesign.Step | Games/Minesetter/LevelDesign/solver-worker.js:228-298 | the worker's step stays put once stopped, and the mask markers change nothing |
| LevelDesign.Run.constructor | Games/Minesetter/LevelDesign/solver-worker.js:148-170 | the containers start empty, with three zeroed `Uint32Array` heatmaps of the board's size |
| LevelDesign.Run.ZeroArray | Games/Minesetter/LevelDesign/solver-worker.js:158-160 | `new Uint32Array(totalCells)` is a fresh array of zeros of the board's size |
| LevelDesign.Run.BumpAll | Games/Minesetter/LevelDesign/solver-worker.js:243 | `for (let x of xs) heat[x]++` raises each listed cell by one, wrapping at 2^32 |
| LevelDesign.Run.CellValues | Games/Minesetter/LevelDesign/solver-worker.js:248-256 | the zeroed map and the four `addVal` calls build the placement's field |
| LevelDesign.Run.BumpHeat | Games/Minesetter/LevelDesign/solver-worker.js:243-245 | the three heatmaps are incremented, wrapping at 2^32, at the final normal, power and negative bombs |
| LevelDesign.Run.CountPlacement | Games/Minesetter/LevelDesign/solver-worker.js:239-298 | the in-place update of all counters, heatmaps, buckets and the stored list is the specification's counting step |
| LevelDesign.Run.PlacementStatus | Games/Minesetter/LevelDesign/solver-worker.js:248-266 | the star flags are the conditions evaluated on the `cellValues` map the four `addVal` calls build |
| LevelDesign.Run.ProcessPlacement | Games/Minesetter/LevelDesign/solver-worker.js:228-298 | the body of the negative loop is one step of the specification |
| LevelDesign.Run.ProcessPower | Games/Minesetter/LevelDesign/solver-worker.js:211-300 | the body of the power loop (progress tick, then the negative loop) is the fold over its events |
| LevelDesign.Run.ProcessNormal | Games/Minesetter/LevelDesign/solver-worker.js:207-301 | the body of the normal loop is the fold over its events |
| LevelDesign.Run.ProcessMask | Games/Minesetter/LevelDesign/solver-worker.js:189-302 | the body of the switch loop is the fold over the mask's events |
| LevelDesign.RunSolver | Games/Minesetter/LevelDesign/solver-worker.js:145-314 | `runSolver` reports the estimate and the state the specification fold yields: `totalFound` and the exact count are the number of in-target placements up to `maxAnalysisSolutions`, the solutions the first of them up to `maxSolutions`, and the histogram, heatmaps and buckets those of the counted placements |
| Stars.Met | RMV2/solver-worker.js:224-241 | each condition type holds exactly when its definition does: `getScore` equal sum, `placeBombAt` some listed cell bombed, `anyCellValue` some cell with the value, `cellValues` every required cell non-bomb with its value, `emptyCellsCount` the number of zero cells neither blocked nor bombed, `setSwitches` ON exactly when blocked; an unknown type never holds |
| Stars.Status | RMV2/solver-worker.js:219-243 | three flags; flag k is the first condition of star k, and false for a missing or empty star |
| Stars.StatusReadsFirstConditions | RMV1/solver.js:192-194 | later conditions of a star are never read |
| Stars.Check | RMV1/solver.js:197-244 | the switch statement computes `Met` |
| Stars.Evaluate | RMV1/solver.js:188-250 | the `forEach` computes the status and a star count equal to the number of set flags |
| Stars.RecordOf | RMV1/solver.js:167-261 | the stored record has the must-bombs before the player's normal bombs, the power and negative bombs, the blocked switches, the placement's score as sum (equal to the field total), three flags and a star count of at most 3 |
| Stars.NewRecord | RMV1/solver.js:173-176 | a placement yields a record only when it is on target |
| Stars.RecordsGood | RMV2/solver-worker.js:202-252 | every record of the search is on target and is the record of its placement |
| Stars.Limit | RMV1/solver.js:263 | the stop test `length >= maxSolutions` fires after max(maxSolutions, 1) records |
| Stars.FirstRecords | RMV1/solver.js:263 | the kept records are a prefix of all records, at most the limit, and all of them when fewer |
| Rmv2Worker.StepHalts | RMV2/solver-worker.js:253-256 | after the early `return` nothing changes |
| Rmv2Worker.StepIgnoresMarkers | RMV2/solver-worker.js:137-165 | the mask markers do not change the state |
| Rmv2Worker.Step | RMV2/solver-worker.js:194-256 | the worker's step stays put once stopped, and the mask markers change nothing |
| Rmv2Worker.FoldCaps | RMV2/solver-worker.js:246-256 | the list never exceeds the cap, and the search has stopped exactly when it reached it |
| Rmv2Worker.FoldRecords | RMV2/solver-worker.js:202-256 | the kept list is a prefix of the records of the events seen, and all of them while not stopped |
| Rmv2Worker.ResultPostsFirstRecords | RMV2/solver-worker.js:253-264 | the posted solutions are the first max(maxSolutions,1) on-target records of the search (all of them without a cap); the early post happens iff there are that many |
| Rmv2Worker.ResultRecordsGood | RMV2/solver-worker.js:202-252 | every posted record is on target and matches its placement; at most `maxSolutions` are posted |
| Rmv2Worker.Run.constructor | RMV2/solver-worker.js:39 | the list starts empty |
| Rmv2Worker.Run.ProcessPlacement | RMV2/solver-worker.js:194-256 | the body of the negative loop is one step of the specification |
| Rmv2Worker.Run.ProcessPower | RMV2/solver-worker.js:163-257 | the body of the power loop is the fold over its events |
| Rmv2Worker.Run.ProcessNormal | RMV2/solver-worker.js:160-258 | the body of the normal loop is the fold over its events |
| Rmv2Worker.Run.ProcessMask | RMV2/solver-worker.js:137-259 | the body of the switch loop is the fold over the mask's events |
| Rmv2Worker.RunSolver | RMV2/solver-worker.js:33-265 | `runSolver` posts the estimate (fallback 1) and exactly the first max(maxSolutions,1) on-target records |
| Rmv1Solver.ReadBoundAsWritten | RMV1/solver.js:117-118 | `parseInt(...) \|\| -Infinity` and `\|\| Infinity` turn an entered 0, like NaN, into "no bound" on that side |
| Rmv1Solver.ZeroMinIgnored | RMV1/solver.js:117 | with minimum 0 entered, a placement scoring -1 is accepted |
| Rmv1Solver.ZeroMaxIgnored | RMV1/solver.js:118 | with maximum 0 entered, a placement scoring 1 is accepted |
| Rmv1Solver.ReadBound | RMV1/solver.js:117-118 | the corrected reading keeps every entered bound, 0 included |
| Rmv1Solver.ReadBoundKeepsZero | RMV1/solver.js:117-118 | with the corrected reading, bounds of 0 mean "at least 0", "at most 0", and together "exactly 0" |
| Rmv1Solver.ReadBoundAgreesAwayFromZero | RMV1/solver.js:117-118 | the corrected reading differs from the written one only on 0 |
| Rmv1Solver.LevelOf | RMV1/solver.js:113-115 | each bomb count is the number typed in, and 0 when the field does not read as a number; the board is the editor's as it is |
| Rmv1Solver.ReadConfig | RMV1/solver.js:113-122 | the target bounds are read with the corrected reading; `maxSolutions` is `parseInt(...) \|\| 5000` and never 0 |
| Rmv1Solver.ReadConfigAsWritten | RMV1/solver.js:113-122 | the configuration the program as written reads: both bounds by `\|\|`, the cap by `\|\| 5000` |
| Rmv1Solver.ConfigAsWrittenAgrees | RMV1/solver.js:117-118 | unless a target bound of 0 is entered, the as-written configuration is the modelled one; an entered 0 is dropped as written and kept as corrected |
| Rmv1Solver.StepHalts | RMV1/solver.js:131 | once the abort flag is raised, nothing changes |
| Rmv1Solver.Step | RMV1/solver.js:131-289 | the step stays put once the flag is up; the list only grows, by at most one record, and the total never falls |
| Rmv1Solver.InfeasibleMaskFold | RMV1/solver.js:153 | an infeasible mask (`continue` before the count) changes nothing |
| Rmv1Solver.FeasibleMaskFold | RMV1/solver.js:155-289 | a feasible mask adds its combination count, runs its loops, then may be cancelled at the yield |
| Rmv1Solver.TickIgnored | RMV1/solver.js:271-286 | this generation keeps no progress count inside the loops |
| Rmv1Solver.FoldCapped | RMV1/solver.js:263-283 | the list never exceeds the cap |
| Rmv1Solver.FoldRecords | RMV1/solver.js:167-283 | the list is a prefix of the records of the events seen, and all of them while not aborted |
| Rmv1Solver.FoldUncancelled | RMV1/solver.js:263-283 | without a cancel, an abort happens only with a full list |
| Rmv1Solver.ResultRecords | RMV1/solver.js:106-291 | the final list is a prefix of all on-target records, within the cap; without a cancel it is exactly the first max(maxSolutions,1) and the flag is raised iff that many exist; every record is on target |
| Rmv1Solver.FoldKeepsTotal | RMV1/solver.js:161 | only a mask's opening adds to `lastTotalCombinations` |
| Rmv1Solver.NegEventsPlaceOnly | RMV1/solver.js:279-284 | the negative loop produces only placements |
| Rmv1Solver.PowerEventsNoOpen | RMV1/solver.js:275-285 | the power loop opens no mask |
| Rmv1Solver.NormalEventsNoOpen | RMV1/solver.js:271-286 | the normal loop opens no mask |
| Rmv1Solver.MaskGain | RMV1/solver.js:153-161 | a mask adds C(a,b1)·C(max(0,a−b1),b2)·C(max(0,a−b1−b2),bn) when feasible, else nothing |
| Rmv1Solver.FoldMaskRange | RMV1/solver.js:130-290 | after any number of masks the total is the sum over some first masks, over all of them when not aborted |
| Rmv1Solver.ResultTotal | RMV1/solver.js:106-291 | `lastTotalCombinations` is the sum of the feasible masks' counts up to where the search stopped, and over all masks without an abort |
| Rmv1Solver.Combinations | RMV1/solver.js:20-32 | this generation's `getCombinations` yields the k-subsets, and nothing for k < 0 or k > \|arr\| |
| Rmv1Solver.ComputeSum | RMV1/solver.js:40-66 | `computeSum` returns the score of the placement with the bombs of all three lists excluded |
| Rmv1Solver.ComputeSumIsFieldTotal | RMV1/solver.js:40-99 | the score equals the total of `calculateCellValues` |
| Rmv1Solver.Session.constructor | RMV1/state.js:1-20 | the globals start empty, the flag lowered and the total 0 |
| Rmv1Solver.Session.Store | RMV1/solver.js:167-264 | `store` is one step of the specification: an on-target placement is pushed and the flag raised at the cap |
| Rmv1Solver.Session.NegLoop | RMV1/solver.js:279-284 | the negative loop is the fold over its events |
| Rmv1Solver.Session.PowerLoop | RMV1/solver.js:275-285 | the power loop is the fold over its events |
| Rmv1Solver.Session.NormalLoop | RMV1/solver.js:271-286 | the normal loop is the fold over its events |
| Rmv1Solver.Session.MaskBody | RMV1/solver.js:131-289 | the body of the switch loop is the fold over the mask's events, including a cancel at the yield |
| Rmv1Solver.Session.ResetProgress | RMV1/ui-core.js:46-56 | `resetProgress` lowers the abort flag and keeps the results |
| Rmv1Solver.Session.Cancel | RMV1/ui-core.js:431 | the Cancel button raises the abort flag and keeps the results |
| Rmv1Solver.Session.GetStarConditionsFromUI | RMV1/ui-core.js:360-397 | returns the gathered conditions, and raises the abort flag when an input is empty or a parser refuses |
| Rmv1Solver.Session.SolveHandler | RMV1/solver.js:106-291 | after a failed gathering, nothing is searched; otherwise the globals are those of the specification fold over the level built from the editor's board and the typed bomb counts, with the configuration read from the inputs |
| Editor.Add | RMV1/ui-core.js:123 | `Set.add` appends a new member at the end and keeps the order and distinctness |
| Editor.Delete | RMV1/ui-core.js:122 | `Set.delete` removes exactly that member and keeps distinctness |
| Editor.DeleteKeepsDistinct | RMV1/ui-core.js:122 | removal keeps a set duplicate-free |
| Editor.ClickKeepsConsistent | RMV1/ui-core.js:119-138 | a click keeps the sets duplicate-free, a block never shares its cell with another role, and a must-bomb never shares its cell with a star or a switch |
| Editor.ClickTouchesOnlyCell | RMV1/ui-core.js:119-138 | a click changes only the clicked cell's roles |
| Editor.Click | RMV1/ui-core.js:119-138 | each mode toggles its role at the cell; the star, switch and must-bomb modes leave a blocked cell alone, must-bomb mode also a switch; erase clears every role of the cell |
| Editor.BlockToggles | RMV1/ui-core.js:121-123 | block mode toggles the block, and a new block clears the cell's other roles |
| Editor.RoleModesGuarded | RMV1/ui-core.js:124-135 | star, switch and must-bomb modes do nothing on a block (must-bomb also on a switch), and otherwise toggle their role |
| Editor.EraseClears | RMV1/ui-core.js:136-137 | erase mode clears every role of the cell |
| Editor.ReachableConsistent | RMV1/ui-core.js:119-138 | every sequence of clicks from the empty board leaves consistent roles |
| Editor.Dimension | RMV2/ui-core.js:65-66 | `Math.max(2, parseInt(v) \|\| 5)`: 5 when blank, unreadable or 0; never below 2 |
| Editor.Level.constructor | RMV1/state.js:3-12 | the editor starts with no roles, block mode, and a 5×5 board |
| Editor.Level.CellClicked | RMV1/ui-core.js:119-138 | `cellClicked` applies the click function in place and changes nothing else |
| Editor.Level.BuildGrid | RMV2/ui-core.js:63-84 | `buildGrid` sets both dimensions and keeps the roles and the mode |
| Text.Split | RMV2/ui-core.js:277 | `split(',')` gives at least one part and no part contains the separator |
| Text.JoinSplit | RMV2/ui-core.js:277 | joining the parts of a split gives back the text |
| Text.SplitJoin | RMV2/ui-core.js:277 | splitting a join of separator-free parts gives back the parts |
| Text.SkipSpaces | RMV2/ui-core.js:277 | the scan stops at the first non-space |
| Text.SkipSpacesBack | RMV2/ui-core.js:277 | the backwards scan stops after the last non-space |
| Text.Trim | RMV2/ui-core.js:277 | `trim()` returns a part of the text with none of the white space or line terminators JavaScript trims at either end |
| Text.TrimNothing | RMV2/ui-core.js:277 | trimming leaves unpadded text alone |
| Text.TrimIdempotent | RMV2/ui-core.js:277 | trimming twice is trimming once |
| Text.TrimAll | RMV2/ui-core.js:277 | `map(s => s.trim())` trims each part |
| Text.NonEmpty | RMV2/ui-core.js:277 | `filter(Boolean)` keeps exactly the non-empty parts |
| Text.Tokens | RMV2/ui-core.js:277 | the comma tokens are trimmed and non-empty |
| Text.NonEmptyKeepsAll | RMV2/ui-core.js:277 | filtering non-empty parts changes nothing when none is empty |
| Text.TokensOfJoin | RMV2/ui-core.js:277 | tokenising a comma-join of bare tokens gives them back |
| Text.NumberOfToken | RMV2/ui-core.js:261 | `Number` reads a digit string and a minus-signed digit string as integers, and reads nothing else as an integer |
| Text.NumberOfTrimmed | RMV2/ui-core.js:261 | on trimmed text, `Number` agrees with the token reader |
| Text.Number | RMV2/ui-core.js:261 | blank or white-space-only text is 0; padded digits, signed or not, read as their value; nothing else reads as an integer |
| Text.DigitChar | RMV2/utils.js:56 | a digit prints as its character |
| Text.ShowNat | RMV2/utils.js:56 | a natural prints as a non-empty digit string |
| Text.ShowNatValue | RMV2/utils.js:56 | reading the printed digits gives back the number |
| Text.Show | RMV2/utils.js:56 | `toString()` of an integer is bare, non-empty text |
| Text.NumberShow | RMV2/utils.js:56 | `Number(n.toString()) == n` |
| Text.NumberShowNegative | RMV2/utils.js:56 | the round trip holds for negative numbers |
| Text.Upper | RMV2/ui-core.js:303 | `toUpperCase()` maps a–z to A–Z and keeps everything else |
| Text.UpperOn | RMV2/ui-core.js:303-304 | the state word becomes "ON" exactly for the four casings of "on" |
| ConditionParsers.Numbers | RMV2/ui-core.js:277 | `map(Number)` reads each token |
| ConditionParsers.Values | RMV2/ui-core.js:278 | with no NaN, each token's value is kept |
| ConditionParsers.PairUp | RMV2/ui-core.js:291 | the list is cut into consecutive pairs |
| ConditionParsers.Unpair | RMV2/ui-core.js:291 | flattening pairs doubles the length |
| ConditionParsers.PairUpUnpair | RMV2/ui-core.js:291 | pairing undoes flattening |
| ConditionParsers.PairUpStep | RMV2/ui-core.js:291 | one step of the `i += 2` loop appends one pair |
| ConditionParsers.CellPairs | RMV2/ui-core.js:291 | each pair becomes an (id, value) requirement |
| ConditionParsers.ReadSwitch | RMV2/ui-core.js:303-307 | a pair is accepted iff the id is a number and the state reads ON or OFF in any case; SWITCH_ON iff ON |
| ConditionParsers.SwitchPairsMeaning | RMV2/ui-core.js:302-308 | the pairs are accepted iff every one is, and then requirement p is the reading of pair p |
| ConditionParsers.Parse | RMV2/ui-core.js:258-312 | the three numeric templates always give a condition (`Number` may be NaN); every template's parser gives only its own condition type |
| ConditionParsers.PlaceBombAtParser | RMV2/ui-core.js:276-280 | accepted iff every token is a number, and then the cells are those numbers in order |
| ConditionParsers.CellValuesParser | RMV2/ui-core.js:285-293 | accepted iff every token is a number and their count is even; requirement p is tokens 2p and 2p+1 |
| ConditionParsers.SetSwitchesParser | RMV2/ui-core.js:298-310 | accepted iff the count is even and every (id, state) pair is valid; one requirement per pair |
| ConditionParsers.PairRequirements | RMV2/ui-core.js:290-291 | the pairing loop builds the requirement list |
| ConditionParsers.ParseCellValues | RMV2/ui-core.js:285-293 | the `cellValues` parser, loop included, computes `CellValuesParser` |
| ConditionParsers.SwitchPairsFailureStays | RMV2/ui-core.js:304-306 | one invalid pair refuses the whole list |
| ConditionParsers.SwitchPairsSnoc | RMV2/ui-core.js:302-308 | one more pair extends the list or refuses it |
| ConditionParsers.FailedPairFails | RMV2/ui-core.js:304-306 | the early `return null` agrees with refusing the whole list |
| ConditionParsers.ReadSwitchPairs | RMV2/ui-core.js:301-308 | the switch loop with its early return computes the pair reading |
| ConditionParsers.ParseSetSwitches | RMV2/ui-core.js:298-310 | the `setSwitches` parser, loop included, computes `SetSwitchesParser` |
| ConditionParsers.ReadPairAt | RMV2/ui-core.js:302-307 | one pass of the switch loop: an invalid pair refuses the whole list, a valid one extends the requirements read so far |
| ConditionParsers.ShowAll | RMV2/ui-core.js:277 | printed numbers are bare, non-empty tokens |
| ConditionParsers.NumbersShowAll | RMV2/ui-core.js:277 | reading printed numbers gives them back |
| ConditionParsers.BombCellsRoundTrip | RMV2/ui-core.js:276-280 | parsing the comma-joined cell ids gives back the `placeBombAt` condition |
| ConditionParsers.ReqPairs | RMV2/ui-core.js:291 | pairing undoes flattening a requirement list |
| ConditionParsers.IntsOf | RMV2/ui-core.js:278 | a list of integers reads without NaN and with its values |
| ConditionParsers.CellValuesOfNumbers | RMV2/ui-core.js:285-293 | text whose tokens read as an even list of integers parses to their pairing |
| ConditionParsers.NumbersOfWritten | RMV2/ui-core.js:277 | the tokens of joined printed numbers read back as those numbers |
| ConditionParsers.CellValuesRoundTrip | RMV2/ui-core.js:285-293 | parsing the written id/value pairs gives back the `cellValues` condition |
| ConditionParsers.StateWord | RMV2/ui-core.js:307 | a state prints as a bare word |
| ConditionParsers.ReadSwitchPair | RMV2/ui-core.js:303-307 | a written (id, ON/OFF) pair reads back as its requirement |
| ConditionParsers.UnpairBare | RMV2/ui-core.js:299 | flattening bare pairs gives bare tokens |
| ConditionParsers.SwitchesOfTokens | RMV2/ui-core.js:298-310 | text whose tokens are valid pairs parses to them |
| ConditionParsers.SwitchPairsOfWritten | RMV2/ui-core.js:302-308 | written requirements read back |
| ConditionParsers.SwitchesRoundTrip | RMV2/ui-core.js:298-310 | parsing the written id/state pairs gives back the `setSwitches` condition |
| ConditionParsers.SlotConditions | RMV2/ui-core.js:353-382 | a star without a chosen type gives no condition; a chosen one gives its parsed condition, and fails iff its trimmed input is empty or the parser refuses |
| ConditionParsers.GatherShape | RMV2/ui-core.js:350-385 | the gathering fails iff some slot fails, and otherwise gives one list of at most one condition per slot |
| ConditionParsers.GetStarConditionsFromUI | RMV2/ui-core.js:350-385 | the loop, with its early `return []`, returns the gathered lists, or [] and a failure flag |
| ConditionParsers.StarConditions | RMV2/ui-core.js:350-385 | [] when some slot fails; otherwise one group per slot, each the slot's reading, with at most one condition |
| ConditionParsers.ReadSlot | RMV2/ui-core.js:353-382 | one star's pass: an unchosen slot gives [], an empty input or a refused parse fails, otherwise the one parsed condition |
| ConditionParsers.GatherFailureStays | RMV2/ui-core.js:375-381 | after a failing slot, the whole gathering fails |
| SolutionView.Dedup | RMV2/ui-core.js:164-166 | `new Set(list)` keeps each member once |
| SolutionView.DedupDistinct | RMV2/ui-core.js:164-166 | the set of a duplicate-free list is the list |
| SolutionView.InBoard | RMV2/ui-core.js:191-193 | `neighbors[b] \|\| []`: an id off the board contributes nothing |
| SolutionView.InBoardAll | RMV2/ui-core.js:191-193 | board ids are all kept |
| SolutionView.ViewNeighbors | RMV2/ui-core.js:167-187 | the view's neighbour map uses the level's blocks and the record's blocked switches, and has one list of board cells per cell |
| SolutionView.Numbers | RMV2/ui-core.js:189-193 | the view shows one number per cell |
| SolutionView.NumbersAt | RMV2/ui-core.js:189-193 | a bomb cell shows 0; any other shows #normal + 2·#power − #negative neighbouring bombs of the record |
| SolutionView.NumbersOfCleanLists | RMV2/ui-core.js:162-193 | for duplicate-free board lists, the view shows the solver's field |
| SolutionView.IncreasingDistinct | Games/Minesetter/LevelDesign/solver-worker.js:207 | combinations have no repeated cell |
| SolutionView.FinalNormalDistinct | RMV2/solver-worker.js:197 | `[...mustBombs, ...normalCombo]` has no repeated cell |
| SolutionView.ViewShowsSolverField | RMV2/ui-core.js:152-193 | viewing a record a solver stored shows the same field the solver evaluated, and its numbers add up to the record's sum |
| SolutionView.ToSet | RMV2/ui-core.js:164-166 | the `Set` construction loop computes `Dedup` |
| SolutionView.Spread | RMV2/ui-core.js:191-193 | one `forEach` computes the per-cell update |
| SolutionView.SpreadList | RMV2/ui-core.js:191-193 | the inner `for` over one bomb's neighbours adds w at every neighbour that is not a bomb |
| SolutionView.SolutionNumbers | RMV2/ui-core.js:162-193 | the whole solution branch computes the view's numbers |
| Analysis.Quot | RMV2/analysis-viewer.js:147 | BigInt `/` truncates toward zero |
| Analysis.Difficulty | RMV2/analysis-viewer.js:141-149 | no combinations give 0; no solutions give 100 |
| Analysis.DifficultyBounds | RMV2/analysis-viewer.js:141-149 | with 1..total solutions, the difficulty is the floor of the non-solution percentage, in [0,100) |
| Analysis.DifficultyFalls | RMV2/analysis-viewer.js:141-149 | more solutions never raise the difficulty |
| Analysis.Insert | RMV2/analysis-viewer.js:372 | inserting keeps the order and adds exactly the record |
| Analysis.SortSolutions | RMV2/analysis-viewer.js:372 | the sort orders by stars descending, then sum ascending, and is a permutation |
| Analysis.Filter | RMV1/analysis-viewer.js:255-260 | `filter` keeps exactly the records satisfying the test, each as many times as it occurs, and drops the rest |
| Analysis.FilterSublist | RMV1/analysis-viewer.js:255-260 | `filter` keeps the order |
| Analysis.Flags | RMV2/analysis-viewer.js:522 | `sol.conditionStatus \|\| [false,false,false]` destructured reads three flags, missing ones false |
| Analysis.FilterByConditionStatus | RMV2/analysis-viewer.js:514-532 | nothing happens without solutions; otherwise the filtered list keeps order and is exactly the records meeting every checked condition |
| Analysis.FilterBySum | RMV2/analysis-viewer.js:310-313 | `filterBySum` keeps, in order, exactly the records with that sum |
| Analysis.FilterByStars | RMV2/analysis-viewer.js:315-318 | `filterByStars` keeps, in order, exactly the records with that star count |
| Analysis.Bump | RMV2/analysis-viewer.js:387-388 | `(m[k] \|\| 0) + 1` adds one to that key only |
| Analysis.PostSolveTally | RMV2/analysis-viewer.js:375-402 | the tally loop computes the per-target, per-star, bucket and maximum-star tallies |
| Analysis.BucketOf | RMV2/analysis-viewer.js:391-401 | the if-chain over the three flags picks the bucket `Classify` names |
| Analysis.TallyTargets | RMV2/analysis-viewer.js:387 | the per-target count of a sum is the length of `filterBySum` for it |
| Analysis.TallyStars | RMV2/analysis-viewer.js:388 | the per-star count is the length of `filterByStars` for it |
| Analysis.TallyKeysCounted | RMV2/analysis-viewer.js:387-388 | every listed key has a count of at least 1 |
| Analysis.TargetKeys | RMV2/analysis-viewer.js:387 | the target keys are exactly the sums that occur |
| Analysis.TallyBuckets | RMV2/analysis-viewer.js:391-401 | each bucket counts exactly its records, and the buckets add up to the number of solutions |
| Analysis.TallyMaxStar | RMV2/analysis-viewer.js:389 | `maxStar` bounds every star count and is attained (or 0) |
| Analysis.TotalOverBump | RMV2/analysis-viewer.js:387 | bumping a key raises the total over the keys by one when the key is among them |
| Analysis.Sums | RMV2/analysis-viewer.js:387 | the list of sums, one per record |
| Analysis.TargetCountsTotal | RMV2/analysis-viewer.js:408-411 | the target list shows each occurring sum once, and its counts add up to the number of solutions |
| Analysis.MaxStars | RMV1/analysis-viewer.js:487 | `Math.max(...starsCount)` bounds every count and is attained |
| Analysis.TopStarsIsMaxStar | RMV1/analysis-viewer.js:485-489 | the top-stars button filters by the maximum star count the tally reports, and finds at least one record |
| Analysis.FilterTopStars | RMV1/analysis-viewer.js:485-489 | nothing without solutions; otherwise a non-empty sublist holding exactly the solutions with the most stars |
| Analysis.EasyWarning | RMV2/analysis-viewer.js:463 | the easy warning fires iff at least 90% of the combinations are solutions |
| Analysis.ConstraintWarning | RMV1/analysis-viewer.js:448-451 | an unreadable bomb count keeps the warning off, and it fires only with at least one star or must-bomb |
| Analysis.ConstraintWarningMonotone | RMV1/analysis-viewer.js:448-451 | more bombs can only turn the constraint warning off |
| Analysis.Tagged | RMV2/analysis-viewer.js:37-59 | each id is tagged with its state |
| Analysis.IdsWithAppend | RMV2/analysis-viewer.js:33-61 | selecting a state distributes over concatenation |
| Analysis.IdsWithTagged | RMV2/analysis-viewer.js:37-59 | the ids tagged with a state are recovered by selecting that state |
| Analysis.IdsWithInitial | RMV2/analysis-viewer.js:33-61 | each state of `getInitialCells` holds exactly its role set, in order |
| Analysis.InitialCellsRecover | RMV2/analysis-viewer.js:33-61 | the export's initial cells determine the four role sets, and list each role once |
| Analysis.InitialCells | RMV2/analysis-viewer.js:33-61 | the blocks, stars, switches and must-bombs in that order, each entry tagged with its role |
| Analysis.BombCounts | RMV2/analysis-viewer.js:200-224 | each cell's count is the number of solutions that bomb it, at most the number of solutions |
| Analysis.BumpEach | RMV2/analysis-viewer.js:213-215 | the inner `forEach` adds one to the count of each bomb of the set and no other |
| Controller.ReadMin | RMV2/solver.js:23-32 | a blank minimum is -Infinity; a typed one is never +Infinity |
| Controller.ReadMax | RMV2/solver.js:24-35 | a blank maximum is +Infinity; a typed one is never -Infinity |
| Controller.Normalise | RMV2/solver.js:37-53 | range mode keeps both bounds; exact mode uses the minimum for both, else the maximum for both, else leaves both open and warns |
| Controller.AcceptsIsInTarget | RMV2/solver.js:26-35 | with numeric or infinite bounds, the worker's `sum >= tmin && sum <= tmax` is the model's target test |
| Controller.NaNRejectsAll | RMV2/solver.js:31-34 | a NaN bound (unreadable input) rejects every sum |
| Controller.ExactMinIsTarget | RMV2/solver.js:40-42 | in exact mode with a minimum t, only the sum t is accepted |
| Controller.ExactMaxIsTarget | RMV2/solver.js:43-45 | in exact mode with only a maximum t, only the sum t is accepted |
| Controller.ExactBlankAcceptsAll | RMV2/solver.js:46-50 | with nothing entered, every sum is accepted; only exact mode warns |
| Controller.RequestOf | RMV2/solver.js:58-76 | the request carries the normalised bounds, `maxSolutions` (`\|\| 5000`, never 0) and the gathered star conditions |
| Controller.ReadRequest | RMV2/solver.js:21-76 | the inline reading of the mode, bounds, counts, cap and conditions builds `RequestOf` |
| Controller.Session.constructor | RMV2/solver.js:6 | no worker and no results |
| Controller.Session.SolveHandler | RMV2/solver.js:12-80 | the previous worker is terminated, the results reset, one new worker started, and the request posted to it |
| Controller.Session.OnEstimate | RMV2/solver.js:87-90 | an estimate message sets `lastTotalCombinations` to the posted value, a negative one included, and nothing else |
| Controller.Session.OnDone | RMV2/solver.js:98-103 | a done message stores the solutions and terminates and forgets the worker |
| Controller.Session.OnError | RMV2/solver.js:107-113 | an error terminates and forgets the worker and keeps the results |
| Controller.Session.CancelSolver | RMV2/solver.js:120-130 | a running worker is terminated and forgotten; without one nothing changes |
| SiteLoad.CurrentLanguage | assets/js/load.js:42-45 | the language is "ar" iff the path contains "/ar/", else "en" |
| SiteLoad.PageFile | assets/js/load.js:99-100 | the page file is the last path segment, or index.html when that is empty; it never has a slash |
| SiteLoad.LanguageOfHref | assets/js/load.js:103 | `/lang/file` is read back as lang |
| SiteLoad.SwitcherLandsInTarget | assets/js/load.js:97-103 | a switcher link leads to the same page in the target language, and rewriting it again changes nothing |
| SiteLoad.SwitcherHref | assets/js/load.js:97-103 | the switcher link is in the target language and ends with the current page file |
| SiteLoad.PageOf | assets/js/load.js:126-135 | the final segment ends with .html; "home" becomes index.html and a name without .html gains it |
| SiteLoad.PageOfIdempotent | assets/js/load.js:126-135 | rewriting a rewritten page name changes nothing |
| SiteLoad.DynamicLink | assets/js/load.js:116-139 | external http links and links without a page name are left alone; rewritten links are `/lang/page.html` |
| SiteLoad.DynamicLinkStaysInLanguage | assets/js/load.js:116-139 | a rewritten internal link stays in the page's language and points at the named page |
| SiteLoad.HrefReadsBack | assets/js/load.js:116-139 | a rewritten link `/lang/file` reads back, through the language and page-file readers, as that language and that page file |
| SiteLoad.TablesAgree | assets/js/load.js:1-35 | both translation tables have the same keys and no empty text |
| SiteLoad.Direction | assets/js/load.js:156 | the direction is rtl iff the language is Arabic |
| SiteLoad.ApplyTranslations | assets/js/load.js:148-171 | the page language and direction are set, and each tagged element shows its translation, or keeps its text when the key is missing |
| SiteLoad.Translated | assets/js/load.js:162-168 | the table's non-empty entry when there is one, otherwise the old text; a non-empty text never becomes empty |
| SiteLoad.SameKeysTranslated | assets/js/load.js:148-171 | an element is translated in one language iff in the other |
| Utils.CellOfId | RMV2/utils.js:72-74 | every board id decodes to a cell on the board |
| Utils.IdOfCell | RMV2/utils.js:83-85 | every board cell encodes to a board id |
| Utils.FlipFacts | RMV2/utils.js:146-156 | each flip maps the board onto itself and is its own inverse; flipHV is flipH after flipV; an unknown kind leaves the id alone |
| Utils.Images | RMV2/utils.js:144-157 | the `Set` of transformed ids holds each id once, exactly the images of the input |
| Utils.Sort | RMV2/utils.js:158 | `sort((a,b) => a-b)` of distinct ids is increasing with the same members |
| Utils.InsertSorted | RMV2/utils.js:158 | inserting keeps the order and adds exactly one member |
| Utils.TransformIndices | RMV2/utils.js:143-159 | the result is increasing and holds exactly the images of the input ids |
| Utils.IncreasingUnique | RMV2/utils.js:158 | two increasing lists with the same members are equal |
| Utils.FlipsDiffer | RMV2/utils.js:146-156 | distinct board ids have distinct images |
| Utils.ImagesLength | RMV2/utils.js:144-157 | distinct board ids keep their count under a flip |
| Utils.TransformLength | RMV2/utils.js:143-159 | the transform of distinct board ids has as many ids as the input |
| Utils.TransformOther | RMV2/utils.js:148-156 | an unknown kind returns the same ids, sorted; an increasing input unchanged |
| Utils.ImageOfImage | RMV2/utils.js:143-159 | the images of the images are the original ids |
| Utils.TransformInvolution | RMV2/utils.js:143-159 | transforming twice by the same flip gives back the sorted input |
| Utils.BothWaysImage | RMV2/utils.js:152-155 | an flipHV image is an flipH image of the flipV transform |
| Utils.TransformBothWays | RMV2/utils.js:143-159 | flipHV equals flipV followed by flipH |
| Utils.Transform | RMV2/utils.js:143-159 | the loop, `Set` and sort of `transformIndices` compute the transform |
| Utils.FlipId | RMV2/utils.js:146-155 | the loop body sends an id to its flip |
| Utils.HumanSmall | RMV2/utils.js:56 | below 1000 the number is printed exactly, with no suffix, and reads back as itself |
| Utils.ComputeNeighborsOf | RMV2/utils.js:104-125 | `computeNeighbors` gives the neighbour map of the block set, and of the empty set when none is passed |

## Left out

- Worker transport: `postMessage`, `onmessage` and `Worker` creation are left out. The
  messages are parameters and results (`RunSolver` returns what `done` carries).
- Estimate and progress messages are left out. The estimate is a result. Progress
  reports are not modelled because they depend on `Date.now()`; the formula is
  `Search.Progress`.
- The RMV1 `setTimeout` yield is left out. Cancellation is an input: the set of masks
  after whose yield the Cancel button was pressed.
- DOM reading and rendering are left out. This covers `showStatus`, `setMode`,
  `renderGrid`, the design-mode branch of `refreshGridVisual`, `renderSolutionsList`,
  `renderFilteredList`, `clearAnalysis`, `updateCounts`, `updateConditionalAnalysis`,
  the HTML of the tallies, and the badge and colour choices. Inputs are parameters.
- `handleConditionTypeChange`, `injectSingleConditionRow` and `initStarEditor` are left
  out. They only build markup.
- Floating point is left out:
  - the bomb probability map (`Analysis.BombCounts` keeps the integer counts);
  - the difficulty percentage with two decimals and its labels;
  - the coverage percentages;
  - `humanNumberBig` from 1000 upward (`Utils.HumanSmall` covers the exact branch).
- Analysis.ConstraintWarning compares 2·(stars + must-bombs) with the bomb total in
  integers, rather than the float quotient ≥ 0.5; the two agree on every input.
- Export is left out. This covers `updateExportData`'s JSON text (only
  `getInitialCells` is modelled), the file name and the save dialog.
- `Number` and `parseInt` beyond decimal integers are left out. Decimal points,
  exponents, hex, `Infinity` and prefix parsing (`parseInt("12abc")`) are all read as
  unreadable. Only the two forms a number input produces are read as numbers.
- Text.Upper: upper-cases ASCII letters only.
- An unknown condition type in `getStarConditionsFromUI` is left out. The template
  lookup would throw; the model's templates are a closed datatype.
- LevelDesign worker bounds: a bound is a number, or `None` for the `-Infinity`/`Infinity`
  a caller posts for an open side. A bound that is `undefined` or NaN is left out: either
  one makes `sum >= tmin && sum <= tmax` false for every sum, so nothing is counted or
  stored. The caller that posts the bounds is not part of this model.
- Analysis.SortSolutions: states the order and the permutation, not the stability of
  the engine's sort for records that tie.
- Utils.Sort: the in-place array sort is modelled on values.
- `buildGrid`'s reset of `GameState.results` and its refresh calls are left out of
  `Editor.Level.BuildGrid`, which covers the dimensions only. The results belong to
  the controller's state (`Controller.Session`).
- `loadComponent` (a `fetch`), `updateCurrentYear` (the clock) and the
  `DOMContentLoaded` hook are I/O and are left out.
- The link-highlighting classes of `setDynamicLinks` are left out.
- RMV1 `resetProgress`: its UI part is left out; its effect on the abort flag is
  `Rmv1Solver.Session.ResetProgress`.
- The RMV1 `estimateBtn`, `sortStars`, `exportBtn` and clear handlers are left out.
  `sortStars` is `Analysis.SortSolutions`.
- Rmv1Solver.ReadConfig: reads the target bounds as corrected (see Findings), not with
  the `||` reading `RMV1/solver.js:117-118` executes. `ReadConfigAsWritten` is that
  reading, and `ConfigAsWrittenAgrees` shows the two differ only on an entered 0.
- Rmv1Solver.Session.SolveHandler: runs the solve of the corrected configuration. With
  a target bound of 0 entered, the program as written searches with no bound on that
  side instead.
- Editor.Click: models the RMV1 `cellClicked`. The RMV2 copy throws a `TypeError` at
  its first `stars` access. In block mode that is after `blocks.add(i)`, so the cell
  keeps its must-bomb or switch role beside the new block; removing a block does not
  throw. Star mode throws on a cell that is not blocked and does nothing on a blocked
  one. Switch and must-bomb modes throw only when they add the role, after adding it.
  Erase mode throws after `blocks.delete(i)` (`RMV2/ui-core.js:119-141`).
- Editor.Level.CellClicked: the same RMV2 difference as `Editor.Click`.
- Analysis.IdsWithInitial: takes the star set as given. RMV2's `getInitialCells` reads
  `GameState.grid.stars`, which RMV2's state does not define, so as written it throws
  after listing the blocks.
- Analysis.InitialCellsRecover: the same RMV2 difference as `Analysis.IdsWithInitial`.
- Analysis.ConstraintWarningMonotone: models the RMV1 warning, which reads `stars.size`.
  The RMV2 copy (`RMV2/analysis-viewer.js:468-470`) reads `GameState.grid.stars.size`
  and throws, ending `handlePostSolveAnalysis` there.
- Rmv1Solver.Session.SolveHandler, Rmv1Solver.Session.MaskBody, Rmv2Worker.RunSolver,
  Rmv2Worker.Run.ProcessMask, LevelDesign.RunSolver, LevelDesign.Run.ProcessMask: require
  distinct must-bombs on the board (`Search.WellFormed`). Neither `buildGrid`
  (`RMV1/ui-core.js:62-79`, `RMV2/ui-core.js:63-84`) drops the roles when the board
  shrinks, so a must-bomb can be left off the board. A solve of such a level throws a
  `TypeError` at its first scored placement, on `neighbors[b]` being undefined
  (`RMV1/solver.js:45-46`, `RMV2/solver-worker.js:125`,
  `Games/Minesetter/LevelDesign/solver-worker.js:103-104`). The model does not capture
  that error path.
- RMV1 state globals: `computeNeighbors` and `nCrBig`, which RMV1 takes from files
  outside the core, are taken to be the RMV2 copies.

## Findings

| source | as written | input that shows it | evidently intended | confidence | as-written member | corrected member |
|---|---|---|---|---|---|---|
| RMV1/solver.js:117-118 | `parseInt(v, 10) \|\| -Infinity` and `\|\| Infinity` treat an entered 0 like a blank field | target min 0 and max 0: a placement scoring -1 (or 1) is accepted | an entered bound of 0 is kept, so 0/0 means exactly 0, as the RMV2 controller reads it | not executed | Rmv1Solver.ZeroMinIgnored | Rmv1Solver.ReadBoundKeepsZero |
