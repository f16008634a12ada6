// The order of the recorded steps, stated against a schedule of loop
// positions that does not look at the dp array at all.

module TraceOrder {
  import opened Types
  import opened Counting
  import opened StepTrace

  /** Where a step sits in the loop nest: its code line, coin position and
      target index. */
  datatype Visit = Visit(line: int, coinIdx: int, target: int)

  function Visits(steps: seq<Step>): (r: seq<Visit>)
    ensures |r| == |steps|
  {
    seq(|steps|, k requires 0 <= k < |steps| => Visit(steps[k].activeLine, steps[k].coinIdx, steps[k].amount))
  }

  /** Combination order, the updates of the coin at position i for the
      targets j, j + 1, ..., amount. */
  function UpdateVisits(i: int, j: int, amount: nat): (r: seq<Visit>)
  {
    seq(if j <= amount then amount - j + 1 else 0, k => Visit(2, i, j + k))
  }

  /** Combination order, one coin at position i: its marker, then one update
      for each j = coin, coin + 1, ..., amount. */
  function CoinVisits(i: int, coin: int, amount: nat): (r: seq<Visit>)
  {
    [Visit(0, i, coin)] + UpdateVisits(i, coin, amount)
  }

  /** Combination order: the coins in the order given, from position i on. */
  function CombinationSchedule(coins: seq<int>, amount: nat, i: nat): (r: seq<Visit>)
    decreases |coins| - i
  {
    if i >= |coins| then []
    else CoinVisits(i, coins[i], amount) + CombinationSchedule(coins, amount, i + 1)
  }

  /** Permutation order, one target j: an update for each coin position
      from i on whose coin is at most j, in order; other coins emit nothing. */
  function EligibleVisits(coins: seq<int>, j: int, i: nat): (r: seq<Visit>)
    decreases |coins| - i
  {
    if i >= |coins| then []
    else (if coins[i] <= j then [Visit(2, i, j)] else []) + EligibleVisits(coins, j, i + 1)
  }

  /** Permutation order: targets j, j + 1, ..., amount, each with a marker
      followed by its eligible coins. */
  function PermutationSchedule(coins: seq<int>, amount: nat, j: int): (r: seq<Visit>)
    decreases amount + 1 - j
  {
    if j > amount then []
    else [Visit(0, 0, j)] + EligibleVisits(coins, j, 0) + PermutationSchedule(coins, amount, j + 1)
  }

  /** The schedule of a whole trace: the initialization step, then the loop
      nest of the mode. */
  function Schedule(amount: nat, coins: seq<int>, mode: AlgorithmMode): (r: seq<Visit>)
  {
    [Visit(0, 0, 0)] +
    (if mode == Combination then CombinationSchedule(coins, amount, 0)
     else PermutationSchedule(coins, amount, 1))
  }

  lemma VisitsAppend(a: seq<Step>, b: seq<Step>)
    ensures Visits(a + b) == Visits(a) + Visits(b)
  {
    assert forall k :: 0 <= k < |a + b| ==> Visits(a + b)[k] == (Visits(a) + Visits(b))[k];
  }

  lemma {:induction false} CombinationInnerVisits(dp: seq<int>, coin: int, i: int, j: int, amount: nat)
    requires 0 < coin <= j && |dp| == amount + 1
    ensures Visits(CombinationInner(dp, coin, i, j).steps) == UpdateVisits(i, j, amount)
    decreases |dp| - j
  {
    if j < |dp| {
      var next := Add(dp, coin, j);
      var rest := CombinationInner(next, coin, i, j + 1);
      var head := [UpdateStep(dp, coin, i, j, UpdateWithCoin(j, coin))];
      assert CombinationInner(dp, coin, i, j).steps == head + rest.steps;
      CombinationInnerVisits(next, coin, i, j + 1, amount);
      VisitsAppend(head, rest.steps);
      assert [Visit(2, i, j)] + UpdateVisits(i, j + 1, amount) == UpdateVisits(i, j, amount);
    }
  }

  lemma {:induction false} CombinationOuterVisits(dp: seq<int>, coins: seq<int>, i: nat, amount: nat)
    requires ValidCoins(coins) && i <= |coins| && |dp| == amount + 1
    ensures Visits(CombinationOuter(dp, coins, i).steps) == CombinationSchedule(coins, amount, i)
    decreases |coins| - i
  {
    if i < |coins| {
      var coin := coins[i];
      var inner := CombinationInner(dp, coin, i, coin);
      var rest := CombinationOuter(inner.dp, coins, i + 1);
      var head := [CoinMarker(dp, coin, i)];
      assert CombinationOuter(dp, coins, i).steps == head + inner.steps + rest.steps;
      assert CombinationSchedule(coins, amount, i) == CoinVisits(i, coin, amount) + CombinationSchedule(coins, amount, i + 1);
      CombinationInnerVisits(dp, coin, i, coin, amount);
      CombinationOuterVisits(inner.dp, coins, i + 1, amount);
      VisitsAppend(head, inner.steps);
      VisitsAppend(head + inner.steps, rest.steps);
      assert Visits(head) == [Visit(0, i, coin)];
    }
  }

  lemma {:induction false} PermutationInnerVisits(dp: seq<int>, coins: seq<int>, j: int, i: nat)
    requires ValidCoins(coins) && 1 <= j < |dp| && i <= |coins|
    ensures Visits(PermutationInner(dp, coins, j, i).steps) == EligibleVisits(coins, j, i)
    decreases |coins| - i
  {
    if i < |coins| {
      if j >= coins[i] {
        var next := Add(dp, coins[i], j);
        var rest := PermutationInner(next, coins, j, i + 1);
        var head := [UpdateStep(dp, coins[i], i, j, UpdateWithLastCoin(j, coins[i]))];
        PermutationInnerVisits(next, coins, j, i + 1);
        VisitsAppend(head, rest.steps);
      } else {
        PermutationInnerVisits(dp, coins, j, i + 1);
      }
    }
  }

  lemma {:induction false} PermutationOuterVisits(dp: seq<int>, coins: seq<int>, j: int, amount: nat)
    requires ValidCoins(coins) && 1 <= j && |dp| == amount + 1
    ensures Visits(PermutationOuter(dp, coins, j).steps) == PermutationSchedule(coins, amount, j)
    decreases |dp| - j
  {
    if j < |dp| {
      var inner := PermutationInner(dp, coins, j, 0);
      var rest := PermutationOuter(inner.dp, coins, j + 1);
      var head := [AmountMarker(dp, j)];
      PermutationInnerVisits(dp, coins, j, 0);
      PermutationOuterVisits(inner.dp, coins, j + 1, amount);
      VisitsAppend(head, inner.steps);
      VisitsAppend(head + inner.steps, rest.steps);
    }
  }

  /** The steps come in the order of the loop nest: in Combination order the
      coins as given, each with one marker and then the targets coin..amount
      ascending; in Permutation order the targets 1..amount ascending, each
      with one marker and then the coins at most the target, in order. */
  lemma TraceOrder(amount: nat, coins: seq<int>, mode: AlgorithmMode)
    requires ValidCoins(coins)
    ensures Visits(Generate(amount, coins, mode).steps) == Schedule(amount, coins, mode)
  {
    var dp := InitDP(amount);
    var body := if mode == Combination then CombinationOuter(dp, coins, 0)
                else PermutationOuter(dp, coins, 1);
    if mode == Combination {
      CombinationOuterVisits(dp, coins, 0, amount);
    } else {
      PermutationOuterVisits(dp, coins, 1, amount);
    }
    VisitsAppend([InitStep(dp)], body.steps);
  }

  // ---------------------------------------------------------------------
  // How many steps

  lemma {:induction false} CombinationScheduleLength(coins: seq<int>, amount: nat, i: nat)
    requires ValidCoins(coins) && i <= |coins|
    ensures |CombinationSchedule(coins, amount, i)| >= |coins| - i
    ensures amount == 0 ==>
              CombinationSchedule(coins, amount, i)
              == seq(|coins| - i, k requires 0 <= k < |coins| - i => Visit(0, i + k, coins[i + k]))
    decreases |coins| - i
  {
    if i < |coins| {
      CombinationScheduleLength(coins, amount, i + 1);
      if amount == 0 {
        assert UpdateVisits(i, coins[i], amount) == [];
        assert [Visit(0, i, coins[i])]
               + seq(|coins| - (i + 1), k requires 0 <= k < |coins| - (i + 1) => Visit(0, i + 1 + k, coins[i + 1 + k]))
            == seq(|coins| - i, k requires 0 <= k < |coins| - i => Visit(0, i + k, coins[i + k]));
      }
    }
  }

  lemma {:induction false} PermutationScheduleLength(coins: seq<int>, amount: nat, j: int)
    requires 1 <= j
    ensures |PermutationSchedule(coins, amount, j)| >= amount + 1 - j
    ensures coins == [] ==>
              PermutationSchedule(coins, amount, j)
              == seq(if j <= amount then amount + 1 - j else 0, k => Visit(0, 0, j + k))
    decreases amount + 1 - j
  {
    if j <= amount {
      PermutationScheduleLength(coins, amount, j + 1);
      if coins == [] {
        assert EligibleVisits(coins, j, 0) == [];
        assert [Visit(0, 0, j)] + seq(if j + 1 <= amount then amount - j else 0, k => Visit(0, 0, j + 1 + k))
            == seq(amount + 1 - j, k => Visit(0, 0, j + k));
      }
    }
  }

  /** Only two configurations record nothing but the initialization step:
      Combination order with no coins and Permutation order with amount 0.
      Combination order always records one marker per coin and Permutation
      order one marker per target, even when no update follows. */
  lemma OnlyInitialization(amount: nat, coins: seq<int>, mode: AlgorithmMode)
    requires ValidCoins(coins)
    ensures |Generate(amount, coins, mode).steps| == 1
        <==> (mode == Combination && coins == []) || (mode == Permutation && amount == 0)
    ensures mode == Combination ==> |Generate(amount, coins, mode).steps| >= 1 + |coins|
    ensures mode == Permutation ==> |Generate(amount, coins, mode).steps| >= 1 + amount
  {
    TraceOrder(amount, coins, mode);
    if mode == Combination {
      CombinationScheduleLength(coins, amount, 0);
      if coins == [] {
        assert CombinationSchedule(coins, amount, 0) == [];
      }
    } else {
      PermutationScheduleLength(coins, amount, 1);
      if amount == 0 {
        assert PermutationSchedule(coins, amount, 1) == [];
      }
    }
  }

  /** With amount 0 Combination order records the initialization step and one
      marker per coin; with no coins Permutation order records the
      initialization step and one marker per target 1..amount. */
  lemma MarkersOnly(amount: nat, coins: seq<int>, mode: AlgorithmMode)
    requires ValidCoins(coins)
    ensures mode == Combination && amount == 0 ==>
              Visits(Generate(amount, coins, mode).steps)
              == [Visit(0, 0, 0)] + seq(|coins|, k requires 0 <= k < |coins| => Visit(0, k, coins[k]))
    ensures mode == Permutation && coins == [] ==>
              Visits(Generate(amount, coins, mode).steps)
              == [Visit(0, 0, 0)] + seq(amount, k => Visit(0, 0, 1 + k))
  {
    TraceOrder(amount, coins, mode);
    if mode == Combination {
      CombinationScheduleLength(coins, amount, 0);
      assert seq(|coins| - 0, k requires 0 <= k < |coins| - 0 => Visit(0, 0 + k, coins[0 + k]))
          == seq(|coins|, k requires 0 <= k < |coins| => Visit(0, k, coins[k]));
    } else {
      PermutationScheduleLength(coins, amount, 1);
    }
  }
}
