// What the final dp array holds: in Combination order the number of
// multisets of coins for every amount, in Permutation order the number of
// ordered sequences.

module TraceCounts {
  import opened Types
  import opened Counting
  import opened StepTrace
  import Enumeration

  /** A coin larger than n cannot be part of a multiset summing to n. */
  lemma CoinTooLarge(coins: seq<int>, i: nat, n: int)
    requires ValidCoins(coins) && i < |coins| && n < coins[i]
    ensures Combinations(coins, i + 1, n) == Combinations(coins, i, n)
  {
  }

  /** Combination order, the pass of coin i from target j on: below j the
      array already counts multisets over coins 0..i, from j on it still
      counts multisets over coins 0..i-1; afterwards it counts over 0..i. */
  lemma {:induction false} CombinationInnerCounts(dp: seq<int>, coins: seq<int>, i: nat, j: int)
    requires ValidCoins(coins) && i < |coins| && coins[i] <= j
    requires forall k :: 0 <= k < |dp| ==>
               dp[k] == if k < j then Combinations(coins, i + 1, k) else Combinations(coins, i, k)
    ensures forall k :: 0 <= k < |dp| ==> CombinationInner(dp, coins[i], i, j).dp[k] == Combinations(coins, i + 1, k)
    decreases |dp| - j
  {
    if j < |dp| {
      var next := Add(dp, coins[i], j);
      assert next[j] == Combinations(coins, i + 1, j);
      CombinationInnerCounts(next, coins, i, j + 1);
    }
  }

  lemma {:induction false} CombinationOuterCounts(dp: seq<int>, coins: seq<int>, i: nat)
    requires ValidCoins(coins) && i <= |coins|
    requires forall k :: 0 <= k < |dp| ==> dp[k] == Combinations(coins, i, k)
    ensures forall k :: 0 <= k < |dp| ==> CombinationOuter(dp, coins, i).dp[k] == Combinations(coins, |coins|, k)
    decreases |coins| - i
  {
    if i < |coins| {
      forall k | 0 <= k < |dp| && k < coins[i]
        ensures dp[k] == Combinations(coins, i + 1, k)
      {
        CoinTooLarge(coins, i, k);
      }
      CombinationInnerCounts(dp, coins, i, coins[i]);
      CombinationOuterCounts(CombinationInner(dp, coins[i], i, coins[i]).dp, coins, i + 1);
    }
  }

  /** Permutation order, the pass over the coins from position i on for the
      target j: entries below j already count ordered sequences and dp[j]
      counts those whose last coin lies before position i; afterwards dp[j]
      counts all ordered sequences and no other entry has changed. */
  lemma {:induction false} PermutationInnerCounts(dp: seq<int>, coins: seq<int>, j: int, i: nat)
    requires ValidCoins(coins) && 1 <= j < |dp| && i <= |coins|
    requires forall k :: 0 <= k < j ==> dp[k] == Ways(coins, k)
    requires dp[j] == WaysEndingBelow(coins, j, i)
    ensures var r := PermutationInner(dp, coins, j, i).dp;
            r[j] == Ways(coins, j) && forall k :: 0 <= k < |dp| && k != j ==> r[k] == dp[k]
    decreases |coins| - i
  {
    if i < |coins| {
      if j >= coins[i] {
        PermutationInnerCounts(Add(dp, coins[i], j), coins, j, i + 1);
      } else {
        PermutationInnerCounts(dp, coins, j, i + 1);
      }
    }
  }

  lemma {:induction false} PermutationOuterCounts(dp: seq<int>, coins: seq<int>, j: int)
    requires ValidCoins(coins) && 1 <= j <= |dp|
    requires forall k :: 0 <= k < |dp| ==> dp[k] == if k < j then Ways(coins, k) else 0
    ensures forall k :: 0 <= k < |dp| ==> PermutationOuter(dp, coins, j).dp[k] == Ways(coins, k)
    decreases |dp| - j
  {
    if j < |dp| {
      PermutationInnerCounts(dp, coins, j, 0);
      PermutationOuterCounts(PermutationInner(dp, coins, j, 0).dp, coins, j + 1);
    }
  }

  /** The final array, which the last step leaves: Combination order counts,
      for every k in 0..amount, the multisets of coins summing to k;
      Permutation order counts the ordered sequences of coins summing to k. */
  lemma FinalCounts(amount: nat, coins: seq<int>, mode: AlgorithmMode)
    requires ValidCoins(coins)
    ensures var dp := Generate(amount, coins, mode).dp;
            forall k :: 0 <= k <= amount ==>
              dp[k] == if mode == Combination then Combinations(coins, |coins|, k) else Ways(coins, k)
  {
    var dp := InitDP(amount);
    if mode == Combination {
      CombinationOuterCounts(dp, coins, 0);
    } else {
      PermutationOuterCounts(dp, coins, 1);
    }
  }

  /** The same, counted on explicit lists: entry k of the final array is the
      number of non-decreasing payments of k (Combination order) or of all
      payments of k (Permutation order), each listed exactly once. */
  lemma FinalCountsEnumerate(amount: nat, coins: seq<int>, mode: AlgorithmMode, k: nat)
    requires ValidCoins(coins) && k <= amount
    ensures Generate(amount, coins, mode).dp[k]
            == if mode == Combination then |Enumeration.Multisets(coins, |coins|, k)|
               else |Enumeration.Payments(coins, k)|
  {
    FinalCounts(amount, coins, mode);
    Enumeration.CombinationsCountMultisets(coins, |coins|, k);
    Enumeration.WaysCountsPayments(coins, k);
  }

  /** amount 5 with coins [1, 2, 5] in Combination order: 4 ways
      ({5}, {1,1,1,1,1}, {1,1,1,2}, {1,2,2}). */
  lemma CombinationExample(coins: seq<int>)
    requires coins == [1, 2, 5]
    ensures Generate(5, coins, Combination).dp[5] == 4
  {
    FinalCounts(5, coins, Combination);
    assert Combinations(coins, 1, 0) == 1;
    assert Combinations(coins, 1, 1) == 1;
    assert Combinations(coins, 1, 2) == 1;
    assert Combinations(coins, 1, 3) == 1;
    assert Combinations(coins, 1, 4) == 1;
    assert Combinations(coins, 1, 5) == 1;
    assert Combinations(coins, 2, 0) == 1;
    assert Combinations(coins, 2, 1) == 1;
    assert Combinations(coins, 2, 3) == 2;
    assert Combinations(coins, 2, 5) == 3;
    assert Combinations(coins, 3, 0) == 1;
    assert Combinations(coins, 3, 5) == 4;
  }

  /** A denomination listed twice counts as two coins: coins [1, 1] pay
      amount 2 in three ways in Combination order ({a, a}, {a, b}, {b, b}
      for the two positions a and b). */
  lemma RepeatedCoinExample(coins: seq<int>)
    requires coins == [1, 1]
    ensures Generate(2, coins, Combination).dp[2] == 3
  {
    FinalCounts(2, coins, Combination);
    assert Combinations(coins, 1, 0) == 1;
    assert Combinations(coins, 1, 1) == 1;
    assert Combinations(coins, 1, 2) == 1;
    assert Combinations(coins, 2, 0) == 1;
    assert Combinations(coins, 2, 1) == 2;
    assert Combinations(coins, 2, 2) == 3;
  }

  /** amount 3 with coins [1, 2] in Permutation order: 3 ways
      ((1,1,1), (1,2), (2,1)). */
  lemma PermutationExample(coins: seq<int>)
    requires coins == [1, 2]
    ensures Generate(3, coins, Permutation).dp[3] == 3
  {
    FinalCounts(3, coins, Permutation);
    assert Ways(coins, 1) == 1;
    assert Ways(coins, 2) == 2;
    assert Ways(coins, 3) == 3;
  }
}
