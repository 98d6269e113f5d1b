/**
 * The index arithmetic of MainWindow.NextMediaItem and MainWindow.PreviousMediaItem: step the
 * current position forward or back through a list of `count` entries, wrapping at either end.
 * Neither direction looks at whether the file at the new position still exists.
 */
module Navigation {

  /** The new `currentMediaIndex` after NextMediaItem. */
  function NextIndex(index: int, count: int): (r: int)
    ensures 0 <= index < count ==> r == (index + 1) % count
    ensures count > 0 && -1 <= index ==> 0 <= r < count
  {
    if index >= count - 1 then 0 else index + 1
  }

  /** The new `currentMediaIndex` after PreviousMediaItem. */
  function PreviousIndex(index: int, count: int): (r: int)
    ensures 0 <= index < count ==> r == (index - 1) % count
    ensures count > 0 && index <= count ==> 0 <= r < count
    ensures count == 0 && index <= 0 ==> r == -1
  {
    if index <= 0 then count - 1 else index - 1
  }

  /** Going forward then back, or back then forward, returns to the starting entry. */
  lemma NextPreviousInverse(index: int, count: int)
    requires 0 <= index < count
    ensures PreviousIndex(NextIndex(index, count), count) == index
    ensures NextIndex(PreviousIndex(index, count), count) == index
  {
  }

  /** The position after `n` consecutive NextMediaItem calls. */
  function NextIndexTimes(n: nat, index: int, count: int): int {
    if n == 0 then index else NextIndex(NextIndexTimes(n - 1, index, count), count)
  }

  /** Before the end of the list is reached, `n` steps forward add `n` to the index. */
  lemma {:induction false} NextIndexTimesBeforeWrap(n: nat, index: int, count: int)
    requires 0 <= index && index + n < count
    ensures NextIndexTimes(n, index, count) == index + n
  {
    if n > 0 {
      NextIndexTimesBeforeWrap(n - 1, index, count);
    }
  }

  /** `a` steps and then `b` more steps are `a + b` steps. */
  lemma {:induction false} NextIndexTimesCompose(a: nat, b: nat, index: int, count: int)
    ensures NextIndexTimes(a + b, index, count) == NextIndexTimes(b, NextIndexTimes(a, index, count), count)
  {
    if b > 0 {
      NextIndexTimesCompose(a, b - 1, index, count);
    }
  }

  /** A full round of `count` NextMediaItem calls comes back to where it started. */
  lemma NextIndexFullCycle(index: int, count: int)
    requires 0 <= index < count
    ensures NextIndexTimes(count, index, count) == index
  {
    // count - index - 1 steps reach the last entry, one more wraps to 0, index more come back.
    NextIndexTimesBeforeWrap(count - index - 1, index, count);
    assert NextIndexTimes(count - index, index, count) == 0;
    NextIndexTimesCompose(count - index, index, index, count);
    NextIndexTimesBeforeWrap(index, 0, count);
  }
}
