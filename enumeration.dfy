// What the two counts count. A payment is a sequence of coin positions; its
// total is the sum of the coins at those positions. Ways(coins, n) is the
// number of distinct payments of total n, and Combinations(coins, i, n) the
// number of distinct non-decreasing payments (one per multiset of coins)
// of total n that use positions below i only. Both are shown by listing the
// payments explicitly, every one exactly once.

module Enumeration {
  import opened Counting

  predicate InRange(coins: seq<int>, s: seq<nat>)
  {
    forall k :: 0 <= k < |s| ==> s[k] < |coins|
  }

  /** The sum of the coins a payment names. */
  function Total(coins: seq<int>, s: seq<nat>): (r: int)
    requires InRange(coins, s)
    decreases |s|
  {
    if |s| == 0 then 0 else Total(coins, s[..|s| - 1]) + coins[s[|s| - 1]]
  }

  /** A non-decreasing payment: the canonical order of a multiset of coins. */
  predicate Sorted(s: seq<nat>)
  {
    forall a, b :: 0 <= a < b < |s| ==> s[a] <= s[b]
  }

  predicate Below(s: seq<nat>, i: nat)
  {
    forall k :: 0 <= k < |s| ==> s[k] < i
  }

  predicate Distinct<T(==)>(list: seq<T>)
  {
    forall a, b :: 0 <= a < b < |list| ==> list[a] != list[b]
  }

  /** Every payment of the list, extended by one more coin position x. */
  function Extend(list: seq<seq<nat>>, x: nat): (r: seq<seq<nat>>)
    ensures |r| == |list|
  {
    seq(|list|, k requires 0 <= k < |list| => list[k] + [x])
  }

  /** All payments of total n, grouped by their last coin. */
  function Payments(coins: seq<int>, n: int): (r: seq<seq<nat>>)
    requires ValidCoins(coins)
    decreases n, |coins| + 1
  {
    if n < 0 then []
    else if n == 0 then [[]]
    else PaymentsEndingBelow(coins, n, |coins|)
  }

  /** All payments of total n > 0 whose last coin is at a position below i. */
  function PaymentsEndingBelow(coins: seq<int>, n: int, i: nat): (r: seq<seq<nat>>)
    requires ValidCoins(coins) && i <= |coins| && n > 0
    decreases n, i
  {
    if i == 0 then []
    else PaymentsEndingBelow(coins, n, i - 1) + Extend(Payments(coins, n - coins[i - 1]), i - 1)
  }

  /** All non-decreasing payments of total n over positions below i: those
      without position i - 1, then those ending in it. */
  function Multisets(coins: seq<int>, i: nat, n: int): (r: seq<seq<nat>>)
    requires ValidCoins(coins) && i <= |coins|
    decreases i, n
  {
    if n < 0 then []
    else if i == 0 then (if n == 0 then [[]] else [])
    else Multisets(coins, i - 1, n) + Extend(Multisets(coins, i, n - coins[i - 1]), i - 1)
  }

  // ---------------------------------------------------------------------
  // Helpers about lists and payments

  /** One unfolding of Multisets, for the case that splits on coin i - 1. */
  lemma MultisetsSplit(coins: seq<int>, i: nat, n: int)
    requires ValidCoins(coins) && 0 < i <= |coins| && 0 <= n
    ensures Multisets(coins, i, n)
         == Multisets(coins, i - 1, n) + Extend(Multisets(coins, i, n - coins[i - 1]), i - 1)
  {
  }

  lemma DistinctAppend<T>(a: seq<T>, b: seq<T>)
    requires Distinct(a) && Distinct(b)
    requires forall x, y :: 0 <= x < |a| && 0 <= y < |b| ==> a[x] != b[y]
    ensures Distinct(a + b)
  {
    forall x, y | 0 <= x < y < |a + b| ensures (a + b)[x] != (a + b)[y] {
      if y < |a| {
      } else if x < |a| {
        assert (a + b)[y] == b[y - |a|];
      } else {
        assert (a + b)[x] == b[x - |a|] && (a + b)[y] == b[y - |a|];
      }
    }
  }

  lemma ExtendDistinct(list: seq<seq<nat>>, x: nat)
    requires Distinct(list)
    ensures Distinct(Extend(list, x))
  {
    var r := Extend(list, x);
    forall a, b | 0 <= a < b < |r| ensures r[a] != r[b] {
      assert r[a][..|r[a]| - 1] == list[a];
      assert r[b][..|r[b]| - 1] == list[b];
    }
  }

  /** A member of an extended list is a member of the list plus x. */
  lemma ExtendMember(list: seq<seq<nat>>, x: nat, s: seq<nat>)
    requires s in Extend(list, x)
    ensures |s| > 0 && s[|s| - 1] == x && s[..|s| - 1] in list
  {
    var k :| 0 <= k < |list| && Extend(list, x)[k] == s;
    assert s[..|s| - 1] == list[k];
  }

  /** A payment with at least one coin has a positive total. */
  lemma {:induction false} TotalPositive(coins: seq<int>, s: seq<nat>)
    requires ValidCoins(coins) && InRange(coins, s)
    ensures |s| > 0 ==> Total(coins, s) > 0
    ensures |s| == 0 ==> Total(coins, s) == 0
    decreases |s|
  {
    if |s| > 0 {
      TotalPositive(coins, s[..|s| - 1]);
    }
  }

  // ---------------------------------------------------------------------
  // Ordered payments

  lemma {:induction false} PaymentsCount(coins: seq<int>, n: int)
    requires ValidCoins(coins)
    ensures |Payments(coins, n)| == Ways(coins, n)
    decreases n, |coins| + 1
  {
    if n > 0 {
      PaymentsEndingBelowCount(coins, n, |coins|);
    }
  }

  lemma {:induction false} PaymentsEndingBelowCount(coins: seq<int>, n: int, i: nat)
    requires ValidCoins(coins) && i <= |coins| && n > 0
    ensures |PaymentsEndingBelow(coins, n, i)| == WaysEndingBelow(coins, n, i)
    decreases n, i
  {
    if i > 0 {
      PaymentsEndingBelowCount(coins, n, i - 1);
      PaymentsCount(coins, n - coins[i - 1]);
    }
  }

  lemma {:induction false} PaymentsSound(coins: seq<int>, n: int)
    requires ValidCoins(coins)
    ensures forall s :: s in Payments(coins, n) ==> InRange(coins, s) && Total(coins, s) == n
    decreases n, |coins| + 1
  {
    if n > 0 {
      PaymentsEndingBelowSound(coins, n, |coins|);
    }
  }

  /** A payment of total n whose last coin is at a position below i. */
  predicate EndsBelow(coins: seq<int>, s: seq<nat>, n: int, i: nat)
  {
    InRange(coins, s) && Total(coins, s) == n && |s| > 0 && s[|s| - 1] < i
  }

  /** Extending payments of total m by position x gives payments of total
      m + coins[x] ending in x. */
  lemma ExtendPayments(coins: seq<int>, prior: seq<seq<nat>>, x: nat, m: int)
    requires x < |coins|
    requires forall p :: p in prior ==> InRange(coins, p) && Total(coins, p) == m
    ensures forall s :: s in Extend(prior, x) ==> EndsBelow(coins, s, m + coins[x], x + 1)
  {
    forall s | s in Extend(prior, x) ensures EndsBelow(coins, s, m + coins[x], x + 1) {
      ExtendMember(prior, x, s);
    }
  }

  lemma EndsBelowConcat(coins: seq<int>, first: seq<seq<nat>>, second: seq<seq<nat>>, n: int, i: nat)
    requires 0 < i
    requires forall s :: s in first ==> EndsBelow(coins, s, n, i - 1)
    requires forall s :: s in second ==> EndsBelow(coins, s, n, i)
    ensures forall s :: s in first + second ==> EndsBelow(coins, s, n, i)
  {
  }

  lemma {:induction false} PaymentsEndingBelowSound(coins: seq<int>, n: int, i: nat)
    requires ValidCoins(coins) && i <= |coins| && n > 0
    ensures forall s :: s in PaymentsEndingBelow(coins, n, i) ==> EndsBelow(coins, s, n, i)
    decreases n, i
  {
    if i > 0 {
      var first := PaymentsEndingBelow(coins, n, i - 1);
      var prior := Payments(coins, n - coins[i - 1]);
      PaymentsEndingBelowSound(coins, n, i - 1);
      PaymentsSound(coins, n - coins[i - 1]);
      ExtendPayments(coins, prior, i - 1, n - coins[i - 1]);
      EndsBelowConcat(coins, first, Extend(prior, i - 1), n, i);
    }
  }

  lemma {:induction false} PaymentsComplete(coins: seq<int>, s: seq<nat>, n: int)
    requires ValidCoins(coins) && InRange(coins, s) && Total(coins, s) == n
    ensures s in Payments(coins, n)
    decreases n, |coins| + 1
  {
    TotalPositive(coins, s);
    if n > 0 {
      PaymentsEndingBelowComplete(coins, s, n, |coins|);
    }
  }

  lemma {:induction false} PaymentsEndingBelowComplete(coins: seq<int>, s: seq<nat>, n: int, i: nat)
    requires ValidCoins(coins) && i <= |coins| && n > 0
    requires InRange(coins, s) && Total(coins, s) == n && |s| > 0 && s[|s| - 1] < i
    ensures s in PaymentsEndingBelow(coins, n, i)
    decreases n, i
  {
    var last := s[|s| - 1];
    var prefix := s[..|s| - 1];
    if last == i - 1 {
      PaymentsComplete(coins, prefix, n - coins[i - 1]);
      var prior := Payments(coins, n - coins[i - 1]);
      var k :| 0 <= k < |prior| && prior[k] == prefix;
      assert s == prefix + [i - 1];
      assert Extend(prior, i - 1)[k] == s;
    } else {
      PaymentsEndingBelowComplete(coins, s, n, i - 1);
    }
  }

  lemma {:induction false} PaymentsDistinct(coins: seq<int>, n: int)
    requires ValidCoins(coins)
    ensures Distinct(Payments(coins, n))
    decreases n, |coins| + 1
  {
    if n > 0 {
      PaymentsEndingBelowDistinct(coins, n, |coins|);
    }
  }

  lemma {:induction false} PaymentsEndingBelowDistinct(coins: seq<int>, n: int, i: nat)
    requires ValidCoins(coins) && i <= |coins| && n > 0
    ensures Distinct(PaymentsEndingBelow(coins, n, i))
    decreases n, i
  {
    if i > 0 {
      var first := PaymentsEndingBelow(coins, n, i - 1);
      var prior := Payments(coins, n - coins[i - 1]);
      var second := Extend(prior, i - 1);
      PaymentsEndingBelowDistinct(coins, n, i - 1);
      PaymentsDistinct(coins, n - coins[i - 1]);
      ExtendDistinct(prior, i - 1);
      PaymentsEndingBelowSound(coins, n, i - 1);
      forall x, y | 0 <= x < |first| && 0 <= y < |second| ensures first[x] != second[y] {
        assert first[x] in first;
        assert second[y][|second[y]| - 1] == i - 1;
      }
      DistinctAppend(first, second);
    }
  }

  /** Ways(coins, n) counts ordered payments: Payments(coins, n) lists every
      sequence of coin positions whose coins sum to n, no other sequence,
      each one once, and it has Ways(coins, n) entries. */
  lemma WaysCountsPayments(coins: seq<int>, n: int)
    requires ValidCoins(coins)
    ensures |Payments(coins, n)| == Ways(coins, n)
    ensures Distinct(Payments(coins, n))
    ensures forall s :: s in Payments(coins, n) <==> InRange(coins, s) && Total(coins, s) == n
  {
    PaymentsCount(coins, n);
    PaymentsDistinct(coins, n);
    PaymentsSound(coins, n);
    forall s | InRange(coins, s) && Total(coins, s) == n ensures s in Payments(coins, n) {
      PaymentsComplete(coins, s, n);
    }
  }

  // ---------------------------------------------------------------------
  // Multisets as non-decreasing payments

  /** A non-decreasing payment of total n over positions below i. */
  predicate IsMultiset(coins: seq<int>, s: seq<nat>, i: nat, n: int)
  {
    InRange(coins, s) && Sorted(s) && Below(s, i) && Total(coins, s) == n
  }

  lemma ExtendLast(list: seq<seq<nat>>, x: nat)
    ensures forall s :: s in Extend(list, x) ==> |s| > 0 && s[|s| - 1] == x
  {
    forall s | s in Extend(list, x) ensures |s| > 0 && s[|s| - 1] == x {
      ExtendMember(list, x, s);
    }
  }

  lemma ExtendContains(list: seq<seq<nat>>, x: nat, p: seq<nat>)
    requires p in list
    ensures p + [x] in Extend(list, x)
  {
    var k :| 0 <= k < |list| && list[k] == p;
    assert Extend(list, x)[k] == p + [x];
  }

  /** Two duplicate-free lists, one whose members end below x and one whose
      members end in x, append to a duplicate-free list. */
  lemma DistinctByLast(first: seq<seq<nat>>, second: seq<seq<nat>>, x: nat)
    requires Distinct(first) && Distinct(second)
    requires forall s :: s in first ==> Below(s, x)
    requires forall s :: s in second ==> |s| > 0 && s[|s| - 1] == x
    ensures Distinct(first + second)
  {
    forall a, b | 0 <= a < |first| && 0 <= b < |second| ensures first[a] != second[b] {
      assert first[a] in first && second[b] in second;
    }
    DistinctAppend(first, second);
  }

  /** Appending position x to a non-decreasing payment over positions up to
      x keeps it non-decreasing and adds coins[x] to its total. */
  lemma ExtendMultisets(coins: seq<int>, prior: seq<seq<nat>>, x: nat, m: int)
    requires x < |coins|
    requires forall p :: p in prior ==> IsMultiset(coins, p, x + 1, m)
    ensures forall s :: s in Extend(prior, x) ==> IsMultiset(coins, s, x + 1, m + coins[x])
  {
    forall s | s in Extend(prior, x) ensures IsMultiset(coins, s, x + 1, m + coins[x]) {
      ExtendMember(prior, x, s);
      var p := s[..|s| - 1];
      assert forall a :: 0 <= a < |p| ==> s[a] == p[a];
    }
  }

  lemma MultisetsConcat(coins: seq<int>, first: seq<seq<nat>>, second: seq<seq<nat>>, i: nat, n: int)
    requires 0 < i
    requires forall s :: s in first ==> IsMultiset(coins, s, i - 1, n)
    requires forall s :: s in second ==> IsMultiset(coins, s, i, n)
    ensures forall s :: s in first + second ==> IsMultiset(coins, s, i, n)
  {
  }

  /** Dropping the last coin of a non-decreasing payment leaves one over the
      same positions, of total smaller by that coin. */
  lemma DropLast(coins: seq<int>, s: seq<nat>, i: nat, n: int)
    requires IsMultiset(coins, s, i, n) && |s| > 0
    ensures IsMultiset(coins, s[..|s| - 1], i, n - coins[s[|s| - 1]])
    ensures s == s[..|s| - 1] + [s[|s| - 1]]
  {
  }

  lemma LastBelow(s: seq<nat>, i: nat)
    requires Below(s, i)
    ensures |s| > 0 ==> s[|s| - 1] < i
  {
  }

  /** A non-decreasing payment over positions below i that does not end in
      i - 1 uses positions below i - 1 only. */
  lemma NotEndingInLast(s: seq<nat>, i: nat)
    requires Sorted(s) && Below(s, i) && 0 < i
    requires |s| == 0 || s[|s| - 1] != i - 1
    ensures Below(s, i - 1)
  {
    forall k | 0 <= k < |s| ensures s[k] < i - 1 {
      assert s[k] <= s[|s| - 1];
    }
  }

  lemma {:induction false} MultisetsCount(coins: seq<int>, i: nat, n: int)
    requires ValidCoins(coins) && i <= |coins|
    ensures |Multisets(coins, i, n)| == Combinations(coins, i, n)
    decreases i, n
  {
    if n >= 0 && i > 0 {
      var c := coins[i - 1];
      MultisetsSplit(coins, i, n);
      assert Combinations(coins, i, n) == Combinations(coins, i - 1, n) + Combinations(coins, i, n - c);
      MultisetsCount(coins, i - 1, n);
      MultisetsCount(coins, i, n - c);
    }
  }

  lemma {:induction false} MultisetsSound(coins: seq<int>, i: nat, n: int)
    requires ValidCoins(coins) && i <= |coins|
    ensures forall s :: s in Multisets(coins, i, n) ==> IsMultiset(coins, s, i, n)
    decreases i, n
  {
    if n >= 0 && i > 0 {
      var c := coins[i - 1];
      var first := Multisets(coins, i - 1, n);
      var prior := Multisets(coins, i, n - c);
      MultisetsSound(coins, i - 1, n);
      MultisetsSound(coins, i, n - c);
      ExtendMultisets(coins, prior, i - 1, n - c);
      MultisetsConcat(coins, first, Extend(prior, i - 1), i, n);
      MultisetsSplit(coins, i, n);
    }
  }

  lemma ConcatMember<T>(a: seq<T>, b: seq<T>, x: T)
    requires x in a || x in b
    ensures x in a + b
  {
  }

  lemma {:induction false} MultisetsComplete(coins: seq<int>, s: seq<nat>, i: nat, n: int)
    requires ValidCoins(coins) && i <= |coins| && IsMultiset(coins, s, i, n)
    ensures s in Multisets(coins, i, n)
    decreases i, n
  {
    TotalPositive(coins, s);
    LastBelow(s, i);
    if i == 0 {
    } else if |s| > 0 && s[|s| - 1] == i - 1 {
      var c := coins[i - 1];
      var prefix := s[..|s| - 1];
      DropLast(coins, s, i, n);
      MultisetsComplete(coins, prefix, i, n - c);
      ExtendContains(Multisets(coins, i, n - c), i - 1, prefix);
      ConcatMember(Multisets(coins, i - 1, n), Extend(Multisets(coins, i, n - c), i - 1), s);
      MultisetsSplit(coins, i, n);
    } else {
      NotEndingInLast(s, i);
      MultisetsComplete(coins, s, i - 1, n);
      ConcatMember(Multisets(coins, i - 1, n), Extend(Multisets(coins, i, n - coins[i - 1]), i - 1), s);
      MultisetsSplit(coins, i, n);
    }
  }

  lemma {:induction false} MultisetsBelow(coins: seq<int>, i: nat, n: int)
    requires ValidCoins(coins) && i <= |coins|
    ensures forall s :: s in Multisets(coins, i, n) ==> Below(s, i)
    decreases i, n
  {
    if n >= 0 && i > 0 {
      var c := coins[i - 1];
      var first := Multisets(coins, i - 1, n);
      MultisetsBelow(coins, i - 1, n);
      MultisetsBelow(coins, i, n - c);
      BelowConcat(first, Multisets(coins, i, n - c), i);
      MultisetsSplit(coins, i, n);
    }
  }

  lemma ExtendBelow(list: seq<seq<nat>>, x: nat)
    requires forall p :: p in list ==> Below(p, x + 1)
    ensures forall s :: s in Extend(list, x) ==> Below(s, x + 1)
  {
    forall s | s in Extend(list, x) ensures Below(s, x + 1) {
      ExtendMember(list, x, s);
      assert forall a :: 0 <= a < |s| - 1 ==> s[a] == s[..|s| - 1][a];
    }
  }

  lemma BelowConcat(first: seq<seq<nat>>, prior: seq<seq<nat>>, i: nat)
    requires 0 < i
    requires forall s :: s in first ==> Below(s, i - 1)
    requires forall p :: p in prior ==> Below(p, i)
    ensures forall s :: s in first + Extend(prior, i - 1) ==> Below(s, i)
  {
    ExtendBelow(prior, i - 1);
  }

  /** Appending to a duplicate-free list of payments below x the members of
      another duplicate-free list, each extended by x, keeps the result
      free of duplicates. */
  lemma DistinctExtension(first: seq<seq<nat>>, prior: seq<seq<nat>>, x: nat)
    requires Distinct(first) && Distinct(prior)
    requires forall s :: s in first ==> Below(s, x)
    ensures Distinct(first + Extend(prior, x))
  {
    ExtendDistinct(prior, x);
    ExtendLast(prior, x);
    DistinctByLast(first, Extend(prior, x), x);
  }

  lemma {:induction false} MultisetsDistinct(coins: seq<int>, i: nat, n: int)
    requires ValidCoins(coins) && i <= |coins|
    ensures Distinct(Multisets(coins, i, n))
    decreases i, n
  {
    if n >= 0 && i > 0 {
      var c := coins[i - 1];
      MultisetsDistinct(coins, i - 1, n);
      MultisetsDistinct(coins, i, n - c);
      MultisetsBelow(coins, i - 1, n);
      DistinctExtension(Multisets(coins, i - 1, n), Multisets(coins, i, n - c), i - 1);
      MultisetsSplit(coins, i, n);
    }
  }

  /** Combinations(coins, i, n) counts multisets: Multisets(coins, i, n)
      lists every non-decreasing sequence of coin positions below i whose
      coins sum to n, no other sequence, each one once, and it has
      Combinations(coins, i, n) entries. */
  lemma CombinationsCountMultisets(coins: seq<int>, i: nat, n: int)
    requires ValidCoins(coins) && i <= |coins|
    ensures |Multisets(coins, i, n)| == Combinations(coins, i, n)
    ensures Distinct(Multisets(coins, i, n))
    ensures forall s :: s in Multisets(coins, i, n) <==>
              InRange(coins, s) && Sorted(s) && Below(s, i) && Total(coins, s) == n
  {
    MultisetsCount(coins, i, n);
    MultisetsDistinct(coins, i, n);
    MultisetsSound(coins, i, n);
    assert forall s :: s in Multisets(coins, i, n) ==> IsMultiset(coins, s, i, n);
    forall s | InRange(coins, s) && Sorted(s) && Below(s, i) && Total(coins, s) == n
      ensures s in Multisets(coins, i, n)
    {
      MultisetsComplete(coins, s, i, n);
    }
  }
}
