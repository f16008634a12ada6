// Reference definitions of the two quantities the visualizer computes,
// written as the textbook counting recurrences and independent of any
// loop order or of the trace.

module Counting {

  /** The generator's precondition on its coin list: every denomination is a
      positive integer. */
  predicate ValidCoins(coins: seq<int>)
  {
    forall i :: 0 <= i < |coins| ==> coins[i] > 0
  }

  /** Number of multisets of coins (coin positions 0..i-1, each usable any
      number of times) whose values sum to n: either coin i-1 is not used at
      all, or it is used at least once and the rest sums to n - coins[i-1]. */
  function Combinations(coins: seq<int>, i: nat, n: int): (r: nat)
    requires ValidCoins(coins) && i <= |coins|
    decreases i, n
  {
    if n < 0 then 0
    else if i == 0 then (if n == 0 then 1 else 0)
    else Combinations(coins, i - 1, n) + Combinations(coins, i, n - coins[i - 1])
  }

  /** Number of ordered sequences of coins whose values sum to n: the empty
      sequence for n == 0, otherwise split on the last coin of the sequence. */
  function Ways(coins: seq<int>, n: int): (r: nat)
    requires ValidCoins(coins)
    decreases n, |coins| + 1
  {
    if n < 0 then 0
    else if n == 0 then 1
    else WaysEndingBelow(coins, n, |coins|)
  }

  /** Number of ordered sequences summing to n > 0 whose last coin is one of
      the positions 0..i-1. */
  function WaysEndingBelow(coins: seq<int>, n: int, i: nat): (r: nat)
    requires ValidCoins(coins) && i <= |coins| && n > 0
    decreases n, i
  {
    if i == 0 then 0
    else WaysEndingBelow(coins, n, i - 1) + Ways(coins, n - coins[i - 1])
  }
}
