// generateSteps: fills a dp array in place with the unbounded-knapsack
// recurrence `dp[j] += dp[j - coin]`, in the loop order of the chosen mode,
// and records a Step with full array copies for every loop entry and update.
// Each loop of the source is one method here; every method appends to the
// step list it is given, as the source pushes onto one local list.

module Generator {
  import opened Types
  import opened Counting
  import opened StepTrace
  import TraceProperties
  import TraceCounts

  /** The whole generator: a fresh array [1, 0, ..., 0], the initialization
      step, then the loop nest of the mode. The array the last step leaves
      counts multisets (Combination) or ordered sequences (Permutation) of
      coins for every amount 0..amount. */
  method GenerateSteps(amount: nat, coins: seq<int>, mode: AlgorithmMode) returns (steps: seq<Step>)
    requires ValidCoins(coins)
    ensures steps == Generate(amount, coins, mode).steps
    ensures steps[|steps| - 1].dpAfter == Generate(amount, coins, mode).dp
    ensures forall k :: 0 <= k <= amount ==>
              steps[|steps| - 1].dpAfter[k]
              == if mode == Combination then Combinations(coins, |coins|, k) else Ways(coins, k)
  {
    var dp := new int[amount + 1](_ => 0);
    dp[0] := 1;
    assert dp[..] == InitDP(amount);
    steps := [Step(None, 0, 0, dp[..], dp[..], 0, Initialization, 0, None)];
    if mode == Combination {
      steps := CombinationLoops(dp, coins, steps);
    } else {
      steps := PermutationLoops(dp, coins, steps);
    }
    TraceProperties.SnapshotsFollowRunningArray(amount, coins, mode);
    TraceCounts.FinalCounts(amount, coins, mode);
  }

  /** Combination order: coins outside, amounts inside. */
  method CombinationLoops(dp: array<int>, coins: seq<int>, prior: seq<Step>) returns (steps: seq<Step>)
    requires ValidCoins(coins)
    modifies dp
    ensures var r := CombinationOuter(old(dp[..]), coins, 0);
            steps == prior + r.steps && dp[..] == r.dp
  {
    ghost var goal := CombinationOuter(dp[..], coins, 0);
    steps := prior;
    var i := 0;
    while i < |coins|
      invariant 0 <= i <= |coins|
      invariant var rest := CombinationOuter(dp[..], coins, i);
                steps + rest.steps == prior + goal.steps && rest.dp == goal.dp
    {
      var coin := coins[i];
      ghost var entry, before := dp[..], steps;
      steps := steps + [Step(Some(coin), coin, i, dp[..], dp[..], 0, ChooseCoin(coin), 0, None)];
      steps := CoinLoop(dp, coin, i, steps);
      assert steps + CombinationOuter(dp[..], coins, i + 1).steps
          == before + CombinationOuter(entry, coins, i).steps;
      i := i + 1;
    }
  }

  /** Combination order, the inner loop of one coin:
      `for j := coin; j <= amount; j++ { dp[j] += dp[j - coin] }`. */
  method CoinLoop(dp: array<int>, coin: int, i: int, prior: seq<Step>) returns (steps: seq<Step>)
    requires coin > 0
    modifies dp
    ensures var r := CombinationInner(old(dp[..]), coin, i, coin);
            steps == prior + r.steps && dp[..] == r.dp
  {
    ghost var whole := CombinationInner(dp[..], coin, i, coin);
    steps := prior;
    var j := coin;
    while j < dp.Length
      invariant coin <= j
      invariant var rest := CombinationInner(dp[..], coin, i, j);
                steps + rest.steps == prior + whole.steps && rest.dp == whole.dp
    {
      var prevValue := dp[j];
      var dependencyValue := dp[j - coin];
      ghost var before := dp[..];
      dp[j] := dp[j] + dependencyValue;
      var after := dp[..];
      assert after == Add(before, coin, j) && after[j := prevValue] == before;
      steps := steps + [Step(Some(coin), j, i, after[j := prevValue], after, dependencyValue,
                             UpdateWithCoin(j, coin), 2,
                             Some(Formula(j, prevValue, dependencyValue, j - coin)))];
      j := j + 1;
    }
  }

  /** Permutation order: amounts outside, coins inside. */
  method PermutationLoops(dp: array<int>, coins: seq<int>, prior: seq<Step>) returns (steps: seq<Step>)
    requires ValidCoins(coins)
    modifies dp
    ensures var r := PermutationOuter(old(dp[..]), coins, 1);
            steps == prior + r.steps && dp[..] == r.dp
  {
    ghost var goal := PermutationOuter(dp[..], coins, 1);
    steps := prior;
    var j := 1;
    while j < dp.Length
      invariant 1 <= j
      invariant var rest := PermutationOuter(dp[..], coins, j);
                steps + rest.steps == prior + goal.steps && rest.dp == goal.dp
    {
      ghost var entry, before := dp[..], steps;
      steps := steps + [Step(None, j, 0, dp[..], dp[..], 0, TargetAmount(j), 0, None)];
      steps := AmountLoop(dp, coins, j, steps);
      assert steps + PermutationOuter(dp[..], coins, j + 1).steps
          == before + PermutationOuter(entry, coins, j).steps;
      j := j + 1;
    }
  }

  /** Permutation order, the inner loop of one target j:
      `for i := 0; i < |coins|; i++ { if j >= coins[i] { dp[j] += dp[j - coins[i]] } }`. */
  method AmountLoop(dp: array<int>, coins: seq<int>, j: int, prior: seq<Step>) returns (steps: seq<Step>)
    requires ValidCoins(coins) && 1 <= j < dp.Length
    modifies dp
    ensures var r := PermutationInner(old(dp[..]), coins, j, 0);
            steps == prior + r.steps && dp[..] == r.dp
  {
    ghost var whole := PermutationInner(dp[..], coins, j, 0);
    steps := prior;
    var i := 0;
    while i < |coins|
      invariant 0 <= i <= |coins|
      invariant var rest := PermutationInner(dp[..], coins, j, i);
                steps + rest.steps == prior + whole.steps && rest.dp == whole.dp
    {
      var coin := coins[i];
      if j >= coin {
        var prevValue := dp[j];
        var dependencyValue := dp[j - coin];
        ghost var before := dp[..];
        dp[j] := dp[j] + dependencyValue;
        var after := dp[..];
        assert after == Add(before, coin, j) && after[j := prevValue] == before;
        steps := steps + [Step(Some(coin), j, i, after[j := prevValue], after, dependencyValue,
                               UpdateWithLastCoin(j, coin), 2,
                               Some(Formula(j, prevValue, dependencyValue, j - coin)))];
      }
      i := i + 1;
    }
  }
}
