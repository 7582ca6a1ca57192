/**
 * A bounded history window: append the newest element, then drop the oldest
 * one (a single `pop(0)`) when the list has grown past its capacity. Both the
 * per-identity histories of the identity resolver and the observation window
 * of the anomaly detector are kept this way.
 */
module Window {

  /** `s.append(x)` followed by `if len(s) > capacity: s.pop(0)`. */
  function Push<T>(s: seq<T>, x: T, capacity: int): seq<T>
  {
    var grown := s + [x];
    if |grown| > capacity then grown[1..] else grown
  }

  /**
   * The newest element is last, what precedes it is the old contents with at
   * most the oldest element dropped, and the oldest element goes exactly when
   * the grown list exceeds the capacity.
   */
  lemma PushShape<T>(s: seq<T>, x: T, capacity: int)
    ensures var r := Push(s, x, capacity);
      && |r| == (if |s| + 1 > capacity then |s| else |s| + 1)
      && (|r| > 0 ==> r[|r| - 1] == x)
      && (if |s| + 1 > capacity then r == (s + [x])[1..] else r == s + [x])
  {
  }

  /**
   * The window grows by one, unless the grown list exceeds the capacity: the
   * length clause of `PushShape` alone, for callers whose proofs the other
   * clauses would only slow down.
   */
  lemma PushLength<T>(s: seq<T>, x: T, capacity: int)
    ensures |Push(s, x, capacity)| == if |s| + 1 > capacity then |s| else |s| + 1
  {
  }

  /** A window that was within its capacity stays within it, and never shrinks. */
  lemma PushBounded<T>(s: seq<T>, x: T, capacity: int)
    requires 0 <= capacity && |s| <= capacity
    ensures |Push(s, x, capacity)| <= capacity
    ensures |s| > 0 ==> |Push(s, x, capacity)| > 0
  {
  }
}
