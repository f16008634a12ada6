// The playback controller: it owns the configuration, the generated trace,
// the cursor into it and the playing flag, and moves the cursor on manual
// navigation, on the scrubber and on the auto-advance tick.

module Playback {
  import opened Types
  import opened Counting
  import opened StepTrace
  import opened Generator

  /** The value a range input reports: bounded to [lo, hi]. */
  function Clamp(x: int, lo: int, hi: int): (r: int)
    requires lo <= hi
    ensures lo <= r <= hi
    ensures lo <= x <= hi ==> r == x
  {
    if x < lo then lo else if x > hi then hi else x
  }

  class Player {
    var amount: nat
    var coins: seq<int>
    var mode: AlgorithmMode
    var steps: seq<Step>
    var cursor: int
    var isPlaying: bool

    /** The trace is the one of the current configuration and the cursor
        points into it. */
    ghost predicate Valid()
      reads this
    {
      ValidCoins(coins) && steps == Generate(amount, coins, mode).steps && 0 <= cursor < |steps|
    }

    /** The initial state: amount 5, coins [1, 2, 5], Combination order, not
        playing, and the trace that the first render generates. */
    constructor ()
      ensures Valid()
      ensures amount == 5 && coins == [1, 2, 5] && mode == Combination
      ensures cursor == 0 && !isPlaying
    {
      var a, cs, m := 5, [1, 2, 5], Combination;
      assert ValidCoins(cs);
      var trace := GenerateSteps(a, cs, m);
      amount, coins, mode := a, cs, m;
      isPlaying := false;
      steps := trace;
      cursor := 0;
    }

    /** Regeneration on a configuration change: the whole trace is replaced
        and the cursor goes back to the first step; the playing flag is left
        as it is. */
    method Regenerate()
      requires ValidCoins(coins)
      modifies this
      ensures Valid()
      ensures steps == Generate(amount, coins, mode).steps && cursor == 0
      ensures amount == old(amount) && coins == old(coins) && mode == old(mode)
      ensures isPlaying == old(isPlaying)
    {
      steps := GenerateSteps(amount, coins, mode);
      cursor := 0;
    }

    /** A new amount from the number input, kept within 1..15; the trace is
        regenerated only when the stored value changes. */
    method SetAmount(v: int)
      requires Valid()
      modifies this
      ensures Valid()
      ensures 1 <= amount <= 15
      ensures amount == if v < 1 then 1 else if v > 15 then 15 else v
      ensures coins == old(coins) && mode == old(mode) && isPlaying == old(isPlaying)
      ensures cursor == if amount == old(amount) then old(cursor) else 0
    {
      var a := Clamp(v, 1, 15);
      if a != amount {
        amount := a;
        Regenerate();
      }
    }

    /** A new coin list; it is a fresh list every time, so the trace is
        always regenerated. */
    method SetCoins(cs: seq<int>)
      requires Valid() && ValidCoins(cs)
      modifies this
      ensures Valid()
      ensures coins == cs && amount == old(amount) && mode == old(mode) && isPlaying == old(isPlaying)
      ensures cursor == 0
    {
      coins := cs;
      Regenerate();
    }

    /** A mode button: playing stops; the trace is regenerated only when the
        mode changes. */
    method SelectMode(m: AlgorithmMode)
      requires Valid()
      modifies this
      ensures Valid()
      ensures mode == m && amount == old(amount) && coins == old(coins) && !isPlaying
      ensures cursor == if m == old(mode) then old(cursor) else 0
    {
      isPlaying := false;
      if m != mode {
        mode := m;
        Regenerate();
      }
    }

    /** Step forward: playing stops and the cursor moves one step, but not
        past the last step. */
    method Next()
      requires Valid()
      modifies this`cursor, this`isPlaying
      ensures Valid() && !isPlaying
      ensures cursor == if old(cursor) + 1 < |steps| then old(cursor) + 1 else |steps| - 1
    {
      isPlaying := false;
      cursor := if |steps| - 1 < cursor + 1 then |steps| - 1 else cursor + 1;
    }

    /** Step backward: playing stops and the cursor moves one step back, but
        not before the first step. */
    method Prev()
      requires Valid()
      modifies this`cursor, this`isPlaying
      ensures Valid() && !isPlaying
      ensures cursor == if old(cursor) > 0 then old(cursor) - 1 else 0
    {
      isPlaying := false;
      cursor := if 0 > cursor - 1 then 0 else cursor - 1;
    }

    /** The scrubber: playing stops and the cursor jumps to the chosen
        position, which the range input keeps within 0..|steps| - 1. */
    method Seek(index: int)
      requires Valid()
      modifies this`cursor, this`isPlaying
      ensures Valid() && !isPlaying
      ensures 0 <= index < |steps| ==> cursor == index
      ensures index < 0 ==> cursor == 0
      ensures index >= |steps| ==> cursor == |steps| - 1
    {
      isPlaying := false;
      cursor := Clamp(index, 0, |steps| - 1);
    }

    /** The play/pause button. */
    method TogglePlay()
      requires Valid()
      modifies this`isPlaying
      ensures Valid() && isPlaying == !old(isPlaying) && cursor == old(cursor)
    {
      isPlaying := !isPlaying;
    }

    /** One round of auto-advance: while playing and before the last step the
        cursor moves on by exactly one; otherwise playing stops and the cursor
        stays. */
    method Tick()
      requires Valid()
      modifies this`cursor, this`isPlaying
      ensures Valid()
      ensures old(isPlaying) && old(cursor) < |steps| - 1 ==> cursor == old(cursor) + 1 && isPlaying
      ensures !(old(isPlaying) && old(cursor) < |steps| - 1) ==> cursor == old(cursor) && !isPlaying
    {
      if isPlaying && cursor < |steps| - 1 {
        cursor := cursor + 1;
      } else {
        isPlaying := false;
      }
    }

    /** Auto-advance left alone: ticks keep coming until playing stops, and
        then the cursor is on the last step whenever playing was on. */
    method PlayOut()
      requires Valid()
      modifies this`cursor, this`isPlaying
      ensures Valid() && !isPlaying
      ensures old(isPlaying) ==> cursor == |steps| - 1
      ensures !old(isPlaying) ==> cursor == old(cursor)
    {
      while isPlaying
        invariant Valid()
        invariant old(isPlaying) || cursor == old(cursor)
        invariant !old(isPlaying) ==> !isPlaying
        invariant old(isPlaying) && !isPlaying ==> cursor == |steps| - 1
        decreases |steps| - cursor, isPlaying
      {
        Tick();
      }
    }
  }
}
