# Coin Change II step-trace visualizer, modelled in Dafny

The visualizer animates the unbounded-knapsack counting recurrence
`dp[j] += dp[j - coin]` ("Coin Change II") for an amount and a list of coin
denominations, in one of two loop orders:

- **Combination** puts the coins in the outer loop. It counts multisets of coins, where a coin is a position in the list: a denomination listed twice counts as two different coins.
- **Permutation** puts the amounts in the outer loop and skips any coin larger than the target. It counts ordered sequences of coins.

`generateSteps` runs the loops on a mutable array. For every loop entry
(a *marker*) and every update, it records a `Step`: full before and after
copies of the array, the coin and target, the operands of the update, and
the code line to highlight. A small controller holds the trace, a cursor
into it and a playing flag. It moves the cursor on the next and previous
buttons, on the scrubber and on the auto-advance timer, and it puts the
cursor back to 0 whenever the trace is regenerated.

The project has one module per concern:

- `Types` (types.dfy): the `AlgorithmMode` enum and the `Step` record. The nullable fields are `Option`s. The narration strings are a `Narration` datatype that carries the interpolated values.
- `Counting` (counting.dfy): reference definitions, independent of any loop order:
  - `Combinations(coins, i, n)` counts multisets over coin positions below `i`, so coins [1, 1] pay 2 in three ways.
  - `Ways(coins, n)` counts ordered sequences.
- `Enumeration` (enumeration.dfy): the payments are listed explicitly. It proves that the two reference counts are the sizes of duplicate-free lists holding exactly the non-decreasing payments and exactly all payments.
- `StepTrace` (trace.dfy): the trace as a pure function, `Generate(amount, coins, mode)`. It returns the steps and the final array, with one recursive function per loop of the source.
- `Generator` (generator.dfy): `generateSteps` itself, written imperatively:
  - It uses an `array<int>` updated in place and one method per loop.
  - It builds a `seq<Step>` accumulator.
  - Each method is proved equal to the pure trace.
- `TraceProperties`, `TraceOrder` and `TraceCounts` (trace_properties.dfy, trace_order.dfy, trace_counts.dfy): what every trace satisfies, namely:
  - per-step invariants;
  - the loop order of the steps;
  - the counts in the final array.
- `Playback` (playback.dfy): the controller as a class `Player`. Its fields are the configuration, `steps`, `cursor` and `isPlaying`, and it has one method per user action.

On the edge cases the model follows the code exactly:

- In Combination order every coin gets its marker step, even when the amount is 0 or the coin exceeds the amount.
- In Permutation order every target 1..amount gets its marker step, even with no coins.
- So only Combination with no coins, and Permutation with amount 0, produce nothing but the initialization step (`TraceOrder.OnlyInitialization`).
- The scrubber handler does not bound the position itself. The range input does, so `Seek` clamps to `0..|steps| - 1`.
- Changing the amount or the mode to the value it already has does not regenerate the trace, because the state does not change. The coin field produces a fresh list on every edit, so it always regenerates.

## Model

| member | source | states |
|---|---|---|
| Generator.GenerateSteps | App.tsx:22-109 | The in-place loops return exactly the steps of the pure trace `Generate`. The last step's array is the final array, and for every k in 0..amount it holds the number of multisets (Combination) or of ordered sequences (Permutation) of coin positions whose coins sum to k; a denomination listed twice counts as two coins |
| Generator.CombinationLoops | App.tsx:40-71 | The coin-outer loop appends exactly the pure Combination steps and leaves the array equal to the pure final array |
| Generator.CoinLoop | App.tsx:49-70 | The inner loop of one coin appends one update per j = coin..amount, equal to the pure trace, and leaves the array as the pure trace does |
| Generator.PermutationLoops | App.tsx:72-105 | The amount-outer loop appends exactly the pure Permutation steps and leaves the array equal to the pure final array |
| Generator.AmountLoop | App.tsx:80-104 | The inner loop of one target appends an update for each coin not larger than the target, equal to the pure trace |
| StepTrace.InitDP | App.tsx:24-25 | The fresh array has amount + 1 entries, 1 at index 0 and 0 elsewhere |
| StepTrace.Generate | App.tsx:22-106 | A trace is never empty and its final array has amount + 1 entries |
| TraceProperties.TraceWellFormed | App.tsx:22-106 | The first step is the initialization step of the fresh array. The snapshots form an unbroken chain to the final array. Every later step is a well-formed marker or update of its mode. The final array keeps dp[0] = 1 with no negative entry |
| TraceProperties.FirstStepIsInitialization | App.tsx:27-38 | Step 0 has no coin, amount 0, coin index 0, added value 0, line 0 and no formula. Its before and after arrays are equal: [1, 0, ..., 0] of length amount + 1 |
| TraceProperties.SnapshotsFollowRunningArray | App.tsx:44-59 | Each step's before-array is the previous step's after-array, and the last after-array is the final array: every snapshot is a copy of the running array |
| TraceProperties.UpdateStepInvariants | App.tsx:50-68 | An update step (line 2) for target j and coin c, in either mode: c is the coin at coinIdx and 1 <= c <= j <= amount. Only index j changes. before[j] is formula.current and after[j] = before[j] + added. added = formula.prev = before[j - c] = after[j - c]. The formula records target j and prevIdx j - c |
| TraceProperties.MarkerStepInvariants | App.tsx:43-47 | A loop-entry marker (line 0, not step 0) does not change the array it inherits from the previous step and has added value 0 and no formula. In Combination order it names the coin at coinIdx with amount = coin. In Permutation order it has no coin, coin index 0 and a target in 1..amount |
| TraceProperties.SnapshotInvariants | App.tsx:24-25 | In every step both arrays have amount + 1 entries, index 0 is 1 and no entry is negative |
| TraceProperties.StepTags | types.ts:8-21 | Only lines 0 and 2 occur. A formula is present exactly on line 2. The coin is absent exactly on step 0 and on Permutation markers |
| TraceOrder.TraceOrder | App.tsx:40-105 | Projected onto (line, coin index, target), the trace equals a schedule built without the array. Combination: each coin in order gets a marker, then the targets coin..amount ascending. Permutation: each target 1..amount gets a marker, then the coin positions in order whose coin is at most the target |
| TraceOrder.OnlyInitialization | App.tsx:40-105 | The trace is the initialization step alone exactly when the mode is Combination with no coins, or Permutation with amount 0. Otherwise it has at least 1 + number of coins (Combination) or 1 + amount (Permutation) steps |
| TraceOrder.MarkersOnly | App.tsx:43-47 | Combination with amount 0 records the initialization step and one marker per coin. Permutation with no coins records the initialization step and one marker per target 1..amount |
| TraceCounts.CombinationInnerCounts | App.tsx:49-70 | One coin's pass turns an array counting multisets over the earlier coins into one that counts multisets including this coin, at every index |
| TraceCounts.PermutationInnerCounts | App.tsx:80-104 | One target's pass turns dp[j] into the number of ordered sequences summing to j and leaves every other entry as it was |
| TraceCounts.FinalCounts | App.tsx:40-106 | The final array at every k in 0..amount equals Combinations(coins, k) in Combination order and Ways(coins, k) in Permutation order |
| TraceCounts.FinalCountsEnumerate | types.ts:3-4 | Final entry k is the size of the explicit list of non-decreasing payments of k (coin-first order) or of all payments of k (amount-first order) |
| TraceCounts.CombinationExample | App.tsx:10-12 | The default configuration (amount 5, coins [1, 2, 5], Combination) ends with dp[5] = 4 |
| TraceCounts.RepeatedCoinExample | App.tsx:41-71 | Coins [1, 1] at amount 2 in Combination order end with dp[2] = 3: each listed position is its own coin |
| TraceCounts.PermutationExample | App.tsx:73-105 | Amount 3 with coins [1, 2] in Permutation order ends with dp[3] = 3 |
| Enumeration.CombinationsCountMultisets | types.ts:3 | The list of multisets holds every non-decreasing sequence of coin positions below i whose coins sum to n, and nothing else. No entry is repeated, and its length is Combinations(coins, i, n) |
| Enumeration.WaysCountsPayments | types.ts:4 | The list of payments holds every sequence of coin positions whose coins sum to n, and nothing else. No entry is repeated, and its length is Ways(coins, n) |
| Playback.Clamp | App.tsx:217 | The result lies in [lo, hi] and equals the input when the input already lies there, as the amount input and the range input bound their values |
| Playback.Player.constructor | App.tsx:10-15 | Starts with amount 5, coins [1, 2, 5], Combination order, not playing, cursor 0, and the trace of that configuration |
| Playback.Player.Regenerate | App.tsx:107-108 | The trace is replaced by the one of the current configuration, the cursor goes to 0 and the playing flag is kept |
| Playback.Player.SetAmount | App.tsx:217 | The amount becomes the input clamped to 1..15. The trace and cursor are regenerated and reset only when the stored amount changes. Everything else is kept |
| Playback.Player.SetCoins | App.tsx:221 | The coins are replaced, the trace is always regenerated and the cursor goes to 0 |
| Playback.Player.SelectMode | App.tsx:173-179 | Playing stops. The trace is regenerated with the cursor at 0 only when the mode changes; otherwise the cursor stays |
| Playback.Player.Next | App.tsx:130-133 | Playing stops and the cursor becomes min(last index, cursor + 1) |
| Playback.Player.Prev | App.tsx:135-138 | Playing stops and the cursor becomes max(0, cursor - 1) |
| Playback.Player.Seek | App.tsx:282 | Playing stops and the cursor becomes the chosen position, bounded to the trace as the range input bounds it |
| Playback.Player.TogglePlay | App.tsx:208 | The playing flag flips and the cursor stays |
| Playback.Player.Tick | App.tsx:113-118 | When playing and before the last step, the cursor advances by exactly one and playing continues. Otherwise the cursor stays and playing stops |
| Playback.Player.PlayOut | App.tsx:113-118 | Repeated ticks stop. Playing that was on ends with the cursor on the last step; if it was off, the cursor does not move |

## Left out

- Rendering: the step views in components/ and the page layout are presentation over a `Step`, so they are not modelled.
- The explanation service (services/geminiService.ts) and its throttled effect are calls to an external model over the network, so they are not modelled.
- The timer: `setTimeout`, `clearTimeout`, the playback speed and the cancellation on every dependency change are not modelled. One scheduled advance is the atomic `Player.Tick`, and `PlayOut` is a sequence of ticks.
- The keyboard shortcuts only call the next, previous and toggle handlers, so they add nothing to `Next`, `Prev` and `TogglePlay`.
- Playback.Player.SetCoins: the text field maps every comma-separated token to a JavaScript number and drops only NaN. That admits 0, negatives, fractions and an empty token read as 0. The generator is only defined for positive integer coins: a zero coin reads `dp[j]` as its own dependency, and a negative one indexes past the array. So the model requires every coin to be a positive integer and does not model the text parsing.
- Playback.Player.SetAmount: the input is taken as an integer. The conversion of arbitrary text to a number, which can yield NaN or a fraction, is not modelled.
- The narration texts are fixed localized sentences. The model keeps only which sentence is used and the values interpolated into it (`Narration`).
- Numbers are unbounded integers. JavaScript doubles lose precision above 2^53. For amounts up to 15 that happens only when many coins repeat (thirteen 1s at amount 15 in Permutation order give 13^15). The model's integers are exact and do not reproduce that rounding.
- React's state batching and re-rendering are not modelled. Each handler is one atomic update of the controller's fields, and regeneration happens inside the handler that changes the configuration, not in a later effect.
