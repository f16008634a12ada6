// The step trace that generateSteps records, written as pure functions that
// follow the two loop nests: each "Run" function returns the steps one loop
// emits together with the dp array it leaves behind.

module StepTrace {
  import opened Types
  import opened Counting

  /** The steps a loop emits and the dp array after it. */
  datatype Run = Run(steps: seq<Step>, dp: seq<int>)

  /** The initial dp array: amount + 1 entries, dp[0] == 1 (one way to pay
      nothing) and every other entry 0. */
  function InitDP(amount: nat): (dp: seq<int>)
    ensures |dp| == amount + 1 && dp[0] == 1
    ensures forall k :: 1 <= k <= amount ==> dp[k] == 0
  {
    [1] + seq(amount, _ => 0)
  }

  /** The first step of every trace. */
  function InitStep(dp: seq<int>): (s: Step)
  {
    Step(None, 0, 0, dp, dp, 0, Initialization, 0, None)
  }

  /** The marker emitted on entering the coin loop of Combination order for
      coin position i; its `amount` is the coin's own value. */
  function CoinMarker(dp: seq<int>, coin: int, i: int): (s: Step)
  {
    Step(Some(coin), coin, i, dp, dp, 0, ChooseCoin(coin), 0, None)
  }

  /** The marker emitted on entering the amount loop of Permutation order
      for target j. */
  function AmountMarker(dp: seq<int>, j: int): (s: Step)
  {
    Step(None, j, 0, dp, dp, 0, TargetAmount(j), 0, None)
  }

  /** The array after `dp[j] += dp[j - coin]`. */
  function Add(dp: seq<int>, coin: int, j: int): (r: seq<int>)
    requires 0 < coin <= j < |dp|
  {
    dp[j := dp[j] + dp[j - coin]]
  }

  /** The step recording `dp[j] += dp[j - coin]` on the array dp, for the coin
      at position i. */
  function UpdateStep(dp: seq<int>, coin: int, i: int, j: int, text: Narration): (s: Step)
    requires 0 < coin <= j < |dp|
  {
    Step(Some(coin), j, i, dp, Add(dp, coin, j), dp[j - coin], text, 2,
         Some(Formula(j, dp[j], dp[j - coin], j - coin)))
  }

  /** Combination order, inner loop `for j := coin; j <= amount; j++` from j
      on, where amount == |dp| - 1. */
  function CombinationInner(dp: seq<int>, coin: int, i: int, j: int): (r: Run)
    requires 0 < coin <= j
    ensures |r.dp| == |dp|
    decreases |dp| - j
  {
    if j >= |dp| then Run([], dp)
    else
      var rest := CombinationInner(Add(dp, coin, j), coin, i, j + 1);
      Run([UpdateStep(dp, coin, i, j, UpdateWithCoin(j, coin))] + rest.steps, rest.dp)
  }

  /** Combination order, outer loop over the coin positions from i on: one
      marker per coin, then its inner loop. */
  function CombinationOuter(dp: seq<int>, coins: seq<int>, i: nat): (r: Run)
    requires ValidCoins(coins) && i <= |coins|
    ensures |r.dp| == |dp|
    decreases |coins| - i
  {
    if i == |coins| then Run([], dp)
    else
      var inner := CombinationInner(dp, coins[i], i, coins[i]);
      var rest := CombinationOuter(inner.dp, coins, i + 1);
      Run([CoinMarker(dp, coins[i], i)] + inner.steps + rest.steps, rest.dp)
  }

  /** Permutation order, inner loop over the coin positions from i on for
      the target j; a coin larger than j is skipped without a step. */
  function PermutationInner(dp: seq<int>, coins: seq<int>, j: int, i: nat): (r: Run)
    requires ValidCoins(coins) && 1 <= j < |dp| && i <= |coins|
    ensures |r.dp| == |dp|
    decreases |coins| - i
  {
    if i == |coins| then Run([], dp)
    else if j >= coins[i] then
      var rest := PermutationInner(Add(dp, coins[i], j), coins, j, i + 1);
      Run([UpdateStep(dp, coins[i], i, j, UpdateWithLastCoin(j, coins[i]))] + rest.steps, rest.dp)
    else
      PermutationInner(dp, coins, j, i + 1)
  }

  /** Permutation order, outer loop `for j := 1; j <= amount; j++` from j on:
      one marker per target, then its inner loop. */
  function PermutationOuter(dp: seq<int>, coins: seq<int>, j: int): (r: Run)
    requires ValidCoins(coins) && 1 <= j
    ensures |r.dp| == |dp|
    decreases |dp| - j
  {
    if j >= |dp| then Run([], dp)
    else
      var inner := PermutationInner(dp, coins, j, 0);
      var rest := PermutationOuter(inner.dp, coins, j + 1);
      Run([AmountMarker(dp, j)] + inner.steps + rest.steps, rest.dp)
  }

  /** The whole trace of generateSteps(amount, coins, mode) and its final
      dp array. */
  function Generate(amount: nat, coins: seq<int>, mode: AlgorithmMode): (r: Run)
    requires ValidCoins(coins)
    ensures |r.dp| == amount + 1 && |r.steps| >= 1
  {
    var dp := InitDP(amount);
    var body := if mode == Combination then CombinationOuter(dp, coins, 0)
                else PermutationOuter(dp, coins, 1);
    Run([InitStep(dp)] + body.steps, body.dp)
  }
}
