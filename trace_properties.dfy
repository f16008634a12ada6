// What the recorded trace promises: the shape of every step, the chaining
// of the snapshots, the invariants of the dp array, the order of the steps
// and the final counts.

module TraceProperties {
  import opened Types
  import opened Counting
  import opened StepTrace

  // ---------------------------------------------------------------------
  // Per-step shapes

  /** The invariants of every dp snapshot: amount + 1 entries, dp[0] == 1
      and no negative entry. */
  predicate GoodDP(dp: seq<int>, amount: nat)
  {
    |dp| == amount + 1 && dp[0] == 1 && forall k :: 0 <= k < |dp| ==> dp[k] >= 0
  }

  /** A loop-entry marker: the array is untouched and there is no update. */
  predicate IsMarker(s: Step)
  {
    s.dpAfter == s.dpBefore && s.addedValue == 0 && s.activeLine == 0 && s.formula == None
  }

  /** An update `dp[j] += dp[j - coin]` with j == s.amount: only index j
      changes, by the value read at j - coin, and the formula holds the
      operands. */
  predicate IsUpdate(s: Step)
  {
    s.coin.Some? && 0 < s.coin.value <= s.amount < |s.dpBefore| &&
    s.activeLine == 2 &&
    s.addedValue == s.dpBefore[s.amount - s.coin.value] &&
    s.dpAfter == s.dpBefore[s.amount := s.dpBefore[s.amount] + s.addedValue] &&
    s.formula == Some(Formula(s.amount, s.dpBefore[s.amount], s.addedValue, s.amount - s.coin.value))
  }

  /** A step of Combination order: it names the coin at coinIdx; a marker
      carries the coin's value as its amount. */
  predicate CombinationStep(s: Step, coins: seq<int>)
  {
    0 <= s.coinIdx < |coins| && s.coin == Some(coins[s.coinIdx]) &&
    ((IsMarker(s) && s.amount == coins[s.coinIdx] && s.description == ChooseCoin(s.amount)) ||
     (IsUpdate(s) && s.description == UpdateWithCoin(s.amount, coins[s.coinIdx])))
  }

  /** A step of Permutation order: a marker names no coin and the target j;
      an update names the coin at coinIdx. */
  predicate PermutationStep(s: Step, coins: seq<int>)
  {
    (IsMarker(s) && s.coin == None && s.coinIdx == 0 && 1 <= s.amount < |s.dpBefore| &&
     s.description == TargetAmount(s.amount)) ||
    (IsUpdate(s) && 0 <= s.coinIdx < |coins| && s.coin == Some(coins[s.coinIdx]) &&
     s.description == UpdateWithLastCoin(s.amount, coins[s.coinIdx]))
  }

  predicate StepOk(s: Step, amount: nat, coins: seq<int>, mode: AlgorithmMode)
  {
    GoodDP(s.dpBefore, amount) && GoodDP(s.dpAfter, amount) &&
    if mode == Combination then CombinationStep(s, coins) else PermutationStep(s, coins)
  }

  predicate AllOk(steps: seq<Step>, amount: nat, coins: seq<int>, mode: AlgorithmMode)
  {
    forall k :: 0 <= k < |steps| ==> StepOk(steps[k], amount, coins, mode)
  }

  /** The steps form a chain of snapshots from the array `from` to the array
      `to`: every step starts from the array the previous one left. */
  predicate Chained(steps: seq<Step>, from: seq<int>, to: seq<int>)
  {
    if |steps| == 0 then from == to
    else
      steps[0].dpBefore == from && steps[|steps| - 1].dpAfter == to &&
      forall k :: 0 <= k < |steps| - 1 ==> steps[k].dpAfter == steps[k + 1].dpBefore
  }

  lemma ChainedAppend(a: seq<Step>, b: seq<Step>, x: seq<int>, y: seq<int>, z: seq<int>)
    requires Chained(a, x, y) && Chained(b, y, z)
    ensures Chained(a + b, x, z)
  {
    if |a| > 0 && |b| > 0 {
      assert Chained(a + b, x, z) by {
        forall k | 0 <= k < |a + b| - 1
          ensures (a + b)[k].dpAfter == (a + b)[k + 1].dpBefore
        {
          if k < |a| - 1 {
          } else if k == |a| - 1 {
          } else {
            assert (a + b)[k] == b[k - |a|] && (a + b)[k + 1] == b[k - |a| + 1];
          }
        }
      }
    } else if |a| == 0 {
      assert a + b == b;
    } else {
      assert a + b == a;
    }
  }

  lemma AllOkAppend(a: seq<Step>, b: seq<Step>, amount: nat, coins: seq<int>, mode: AlgorithmMode)
    requires AllOk(a, amount, coins, mode) && AllOk(b, amount, coins, mode)
    ensures AllOk(a + b, amount, coins, mode)
  {
    forall k | 0 <= k < |a + b| ensures StepOk((a + b)[k], amount, coins, mode) {
      if k >= |a| {
        assert (a + b)[k] == b[k - |a|];
      }
    }
  }

  /** One update keeps the array invariants and is a well-formed step. */
  lemma AddKeepsGood(dp: seq<int>, coin: int, j: int, amount: nat)
    requires GoodDP(dp, amount) && 0 < coin <= j < |dp|
    ensures GoodDP(Add(dp, coin, j), amount)
  {
    var r := Add(dp, coin, j);
    forall k | 0 <= k < |r| ensures r[k] >= 0 {
      if k == j {
        assert dp[j - coin] >= 0;
      }
    }
  }

  lemma {:induction false} CombinationInnerOk(dp: seq<int>, coins: seq<int>, i: nat, j: int, amount: nat)
    requires ValidCoins(coins) && i < |coins| && coins[i] <= j && GoodDP(dp, amount)
    ensures var r := CombinationInner(dp, coins[i], i, j);
            GoodDP(r.dp, amount) && Chained(r.steps, dp, r.dp) && AllOk(r.steps, amount, coins, Combination)
    decreases |dp| - j
  {
    if j < |dp| {
      var coin := coins[i];
      var next := Add(dp, coin, j);
      AddKeepsGood(dp, coin, j, amount);
      CombinationInnerOk(next, coins, i, j + 1, amount);
      var rest := CombinationInner(next, coin, i, j + 1);
      var head := [UpdateStep(dp, coin, i, j, UpdateWithCoin(j, coin))];
      assert StepOk(head[0], amount, coins, Combination);
      ChainedAppend(head, rest.steps, dp, next, rest.dp);
      AllOkAppend(head, rest.steps, amount, coins, Combination);
    }
  }

  lemma {:induction false} CombinationOuterOk(dp: seq<int>, coins: seq<int>, i: nat, amount: nat)
    requires ValidCoins(coins) && i <= |coins| && GoodDP(dp, amount)
    ensures var r := CombinationOuter(dp, coins, i);
            GoodDP(r.dp, amount) && Chained(r.steps, dp, r.dp) && AllOk(r.steps, amount, coins, Combination)
    decreases |coins| - i
  {
    if i < |coins| {
      var inner := CombinationInner(dp, coins[i], i, coins[i]);
      CombinationInnerOk(dp, coins, i, coins[i], amount);
      CombinationOuterOk(inner.dp, coins, i + 1, amount);
      var rest := CombinationOuter(inner.dp, coins, i + 1);
      var head := [CoinMarker(dp, coins[i], i)];
      assert StepOk(head[0], amount, coins, Combination);
      ChainedAppend(head, inner.steps, dp, dp, inner.dp);
      AllOkAppend(head, inner.steps, amount, coins, Combination);
      ChainedAppend(head + inner.steps, rest.steps, dp, inner.dp, rest.dp);
      AllOkAppend(head + inner.steps, rest.steps, amount, coins, Combination);
    }
  }

  lemma {:induction false} PermutationInnerOk(dp: seq<int>, coins: seq<int>, j: int, i: nat, amount: nat)
    requires ValidCoins(coins) && 1 <= j < |dp| && i <= |coins| && GoodDP(dp, amount)
    ensures var r := PermutationInner(dp, coins, j, i);
            GoodDP(r.dp, amount) && Chained(r.steps, dp, r.dp) && AllOk(r.steps, amount, coins, Permutation)
    decreases |coins| - i
  {
    if i < |coins| {
      var coin := coins[i];
      if j >= coin {
        var next := Add(dp, coin, j);
        AddKeepsGood(dp, coin, j, amount);
        PermutationInnerOk(next, coins, j, i + 1, amount);
        var rest := PermutationInner(next, coins, j, i + 1);
        var head := [UpdateStep(dp, coin, i, j, UpdateWithLastCoin(j, coin))];
        assert StepOk(head[0], amount, coins, Permutation);
        ChainedAppend(head, rest.steps, dp, next, rest.dp);
        AllOkAppend(head, rest.steps, amount, coins, Permutation);
      } else {
        PermutationInnerOk(dp, coins, j, i + 1, amount);
      }
    }
  }

  lemma {:induction false} PermutationOuterOk(dp: seq<int>, coins: seq<int>, j: int, amount: nat)
    requires ValidCoins(coins) && 1 <= j && GoodDP(dp, amount)
    ensures var r := PermutationOuter(dp, coins, j);
            GoodDP(r.dp, amount) && Chained(r.steps, dp, r.dp) && AllOk(r.steps, amount, coins, Permutation)
    decreases |dp| - j
  {
    if j < |dp| {
      var inner := PermutationInner(dp, coins, j, 0);
      PermutationInnerOk(dp, coins, j, 0, amount);
      PermutationOuterOk(inner.dp, coins, j + 1, amount);
      var rest := PermutationOuter(inner.dp, coins, j + 1);
      var head := [AmountMarker(dp, j)];
      assert StepOk(head[0], amount, coins, Permutation);
      ChainedAppend(head, inner.steps, dp, dp, inner.dp);
      AllOkAppend(head, inner.steps, amount, coins, Permutation);
      ChainedAppend(head + inner.steps, rest.steps, dp, inner.dp, rest.dp);
      AllOkAppend(head + inner.steps, rest.steps, amount, coins, Permutation);
    }
  }

  /** The trace is the initialization step followed by well-formed steps of
      the chosen mode, chained from the initial array to the final one. */
  lemma TraceWellFormed(amount: nat, coins: seq<int>, mode: AlgorithmMode)
    requires ValidCoins(coins)
    ensures var g := Generate(amount, coins, mode);
            g.steps[0] == InitStep(InitDP(amount)) &&
            Chained(g.steps, InitDP(amount), g.dp) &&
            AllOk(g.steps[1..], amount, coins, mode) &&
            GoodDP(g.dp, amount)
  {
    var dp := InitDP(amount);
    var g := Generate(amount, coins, mode);
    var body := if mode == Combination then CombinationOuter(dp, coins, 0)
                else PermutationOuter(dp, coins, 1);
    if mode == Combination {
      CombinationOuterOk(dp, coins, 0, amount);
    } else {
      PermutationOuterOk(dp, coins, 1, amount);
    }
    ChainedAppend([InitStep(dp)], body.steps, dp, dp, body.dp);
    assert g.steps[1..] == body.steps;
  }

  // ---------------------------------------------------------------------
  // The properties of the trace, one by one

  /** The first step records the initial array [1, 0, ..., 0] and nothing
      else: no coin, no formula, amount 0, line 0. */
  lemma FirstStepIsInitialization(amount: nat, coins: seq<int>, mode: AlgorithmMode)
    requires ValidCoins(coins)
    ensures var s := Generate(amount, coins, mode).steps[0];
            s.coin == None && s.amount == 0 && s.coinIdx == 0 && s.addedValue == 0 &&
            s.activeLine == 0 && s.formula == None && s.description == Initialization &&
            s.dpBefore == s.dpAfter && |s.dpBefore| == amount + 1 && s.dpBefore[0] == 1 &&
            forall k :: 1 <= k <= amount ==> s.dpBefore[k] == 0
  {
  }

  /** Every step starts from the array the previous step left, and the last
      step leaves the final array of the run. */
  lemma SnapshotsFollowRunningArray(amount: nat, coins: seq<int>, mode: AlgorithmMode)
    requires ValidCoins(coins)
    ensures var g := Generate(amount, coins, mode);
            (forall k :: 0 <= k < |g.steps| - 1 ==> g.steps[k].dpAfter == g.steps[k + 1].dpBefore) &&
            g.steps[|g.steps| - 1].dpAfter == g.dp
  {
    TraceWellFormed(amount, coins, mode);
  }

  lemma UpdateFacts(s: Step, amount: nat, coins: seq<int>, mode: AlgorithmMode)
    requires StepOk(s, amount, coins, mode) && s.activeLine == 2
    ensures var j := s.amount;
            s.coin.Some? && s.formula.Some? &&
            0 <= s.coinIdx < |coins| && s.coin.value == coins[s.coinIdx] &&
            1 <= s.coin.value <= j <= amount &&
            |s.dpBefore| == amount + 1 && |s.dpAfter| == amount + 1 &&
            (forall x :: 0 <= x <= amount && x != j ==> s.dpAfter[x] == s.dpBefore[x]) &&
            s.dpBefore[j] == s.formula.value.current &&
            s.dpAfter[j] == s.dpBefore[j] + s.addedValue &&
            s.addedValue == s.formula.value.prev &&
            s.addedValue == s.dpBefore[j - s.coin.value] &&
            s.addedValue == s.dpAfter[j - s.coin.value] &&
            s.formula.value.target == j && s.formula.value.prevIdx == j - s.coin.value
  {
  }

  /** An update step for target j with coin c changes dp[j] only, by exactly
      the value at j - c, which it does not change; the formula records the
      operands. */
  lemma UpdateStepInvariants(amount: nat, coins: seq<int>, mode: AlgorithmMode, k: nat)
    requires ValidCoins(coins)
    requires k < |Generate(amount, coins, mode).steps|
    requires Generate(amount, coins, mode).steps[k].activeLine == 2
    ensures var s := Generate(amount, coins, mode).steps[k];
            var j := s.amount;
            k > 0 && s.coin.Some? && s.formula.Some? &&
            0 <= s.coinIdx < |coins| && s.coin.value == coins[s.coinIdx] &&
            1 <= s.coin.value <= j <= amount &&
            |s.dpBefore| == amount + 1 && |s.dpAfter| == amount + 1 &&
            (forall x :: 0 <= x <= amount && x != j ==> s.dpAfter[x] == s.dpBefore[x]) &&
            s.dpBefore[j] == s.formula.value.current &&
            s.dpAfter[j] == s.dpBefore[j] + s.addedValue &&
            s.addedValue == s.formula.value.prev &&
            s.addedValue == s.dpBefore[j - s.coin.value] &&
            s.addedValue == s.dpAfter[j - s.coin.value] &&
            s.formula.value.target == j && s.formula.value.prevIdx == j - s.coin.value
  {
    var t := Generate(amount, coins, mode).steps;
    TraceWellFormed(amount, coins, mode);
    assert k > 0;
    assert t[k] == t[1..][k - 1];
    UpdateFacts(t[k], amount, coins, mode);
  }

  /** A loop-entry marker leaves the running array as it is; in Combination
      order it names coin position i and carries the coin as its amount, in
      Permutation order it names no coin and the target j in 1..amount. */
  lemma MarkerStepInvariants(amount: nat, coins: seq<int>, mode: AlgorithmMode, k: nat)
    requires ValidCoins(coins)
    requires 0 < k < |Generate(amount, coins, mode).steps|
    requires Generate(amount, coins, mode).steps[k].activeLine == 0
    ensures var t := Generate(amount, coins, mode).steps;
            var s := t[k];
            s.dpBefore == s.dpAfter && s.dpBefore == t[k - 1].dpAfter &&
            s.addedValue == 0 && s.formula == None &&
            (mode == Combination ==>
               0 <= s.coinIdx < |coins| && s.coin == Some(coins[s.coinIdx]) && s.amount == coins[s.coinIdx]) &&
            (mode == Permutation ==>
               s.coin == None && s.coinIdx == 0 && 1 <= s.amount <= amount)
  {
    var t := Generate(amount, coins, mode).steps;
    TraceWellFormed(amount, coins, mode);
    assert StepOk(t[1..][k - 1], amount, coins, mode);
  }

  /** Every snapshot of every step has amount + 1 entries, dp[0] == 1 and no
      negative entry. */
  lemma SnapshotInvariants(amount: nat, coins: seq<int>, mode: AlgorithmMode)
    requires ValidCoins(coins)
    ensures var t := Generate(amount, coins, mode).steps;
            forall k :: 0 <= k < |t| ==>
              |t[k].dpBefore| == amount + 1 && |t[k].dpAfter| == amount + 1 &&
              t[k].dpBefore[0] == 1 && t[k].dpAfter[0] == 1 &&
              (forall x :: 0 <= x <= amount ==> t[k].dpBefore[x] >= 0 && t[k].dpAfter[x] >= 0)
  {
    var t := Generate(amount, coins, mode).steps;
    TraceWellFormed(amount, coins, mode);
    forall k | 0 <= k < |t| ensures GoodDP(t[k].dpBefore, amount) && GoodDP(t[k].dpAfter, amount) {
      if k > 0 {
        assert StepOk(t[1..][k - 1], amount, coins, mode);
      }
    }
  }

  /** The tags of the steps: only lines 0 (initialization and markers) and 2
      (updates) occur; a formula is present exactly on updates; the coin is
      absent exactly on the initialization step and on Permutation markers. */
  lemma StepTags(amount: nat, coins: seq<int>, mode: AlgorithmMode)
    requires ValidCoins(coins)
    ensures var t := Generate(amount, coins, mode).steps;
            forall k :: 0 <= k < |t| ==>
              (t[k].activeLine == 0 || t[k].activeLine == 2) &&
              (t[k].formula.Some? <==> t[k].activeLine == 2) &&
              (t[k].coin.None? <==> k == 0 || (mode == Permutation && t[k].activeLine == 0))
  {
    var t := Generate(amount, coins, mode).steps;
    TraceWellFormed(amount, coins, mode);
    forall k | 0 < k < |t| ensures StepOk(t[k], amount, coins, mode) {
      assert t[k] == t[1..][k - 1];
    }
  }
}
