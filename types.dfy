// The records shared by the trace generator and the playback controller:
// the loop-order enum and the per-step record of the visualizer.

module Types {

  /** A nullable value: `coin` and `formula` of a Step may be absent. */
  datatype Option<+T> = None | Some(value: T)

  /** The two loop orders. Combination puts the coins in the outer loop
      (it counts unordered multisets), Permutation puts the amounts in the
      outer loop (it counts ordered sequences). */
  datatype AlgorithmMode = Combination | Permutation

  /** The operands of one update `dp[target] = current + prev`, where
      `prev` was read from `dp[prevIdx]`. */
  datatype Formula = Formula(target: int, current: int, prev: int, prevIdx: int)

  /** Which line of the two-loops-plus-update pseudocode a step belongs to:
      0 the outer loop, 1 the inner loop, 2 the update statement. */
  type LineTag = x: int | 0 <= x <= 2

  /** The narration of a step. The displayed sentence is fixed text with
      these values interpolated; the text itself is not modelled. */
  datatype Narration =
    | Initialization
    | ChooseCoin(coin: int)
    | TargetAmount(target: int)
    | UpdateWithCoin(target: int, coin: int)
    | UpdateWithLastCoin(target: int, coin: int)

  /** One recorded step: full before/after copies of the dp array, the
      coin and target index in use, and the operands of the update. */
  datatype Step = Step(
    coin: Option<int>,
    amount: int,
    coinIdx: int,
    dpBefore: seq<int>,
    dpAfter: seq<int>,
    addedValue: int,
    description: Narration,
    activeLine: LineTag,
    formula: Option<Formula>)
}
