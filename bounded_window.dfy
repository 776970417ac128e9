/** `collections.deque(maxlen=N)` as used for the plot windows: `append`
    adds on the right and, when the deque already holds `N` elements, drops
    the leftmost (oldest) one. */
module BoundedWindow {

  /** `window.append(x)` on a deque whose `maxlen` is `maxLen`. */
  function Append<T>(window: seq<T>, x: T, maxLen: nat): (r: seq<T>)
    requires 1 <= maxLen && |window| <= maxLen
    ensures |r| == if |window| < maxLen then |window| + 1 else maxLen
    ensures r[|r| - 1] == x
  {
    if |window| < maxLen then window + [x] else window[1..] + [x]
  }

  /** The deque after `append` is a suffix of the old contents followed by
      the new element: any element that leaves, leaves from the left. */
  lemma AppendIsSuffix<T>(window: seq<T>, x: T, maxLen: nat)
    requires 1 <= maxLen && |window| <= maxLen
    ensures Append(window, x, maxLen) == (window + [x])[|window| + 1 - |Append(window, x, maxLen)|..]
  {
  }

  /** The deque after appending every element of `xs` in order. */
  function AppendAll<T>(window: seq<T>, xs: seq<T>, maxLen: nat): (r: seq<T>)
    requires 1 <= maxLen && |window| <= maxLen
    ensures |r| <= maxLen
    decreases |xs|
  {
    if xs == [] then window
    else Append(AppendAll(window, xs[..|xs| - 1], maxLen), xs[|xs| - 1], maxLen)
  }

  /** One more element is one more `append`. */
  lemma AppendAllSnoc<T>(window: seq<T>, xs: seq<T>, x: T, maxLen: nat)
    requires 1 <= maxLen && |window| <= maxLen
    ensures AppendAll(window, xs + [x], maxLen) == Append(AppendAll(window, xs, maxLen), x, maxLen)
  {
    assert (xs + [x])[..|xs|] == xs;
  }

  /** The last `n` elements of `s` (all of them when `s` is shorter). */
  function LastN<T>(s: seq<T>, n: nat): seq<T> {
    if |s| <= n then s else s[|s| - n..]
  }

  /** Appending to the newest `n` elements keeps the newest `n` of the longer stream. */
  lemma LastNAppend<T>(s: seq<T>, x: T, n: nat)
    requires 1 <= n
    ensures LastN(s + [x], n) == Append(LastN(s, n), x, n)
  {
    if |s| >= n {
      assert LastN(s, n) == s[|s| - n..];
      assert (s + [x])[|s| + 1 - n..] == s[|s| + 1 - n..] + [x];
      assert s[|s| - n..][1..] == s[|s| + 1 - n..];
    }
  }

  lemma ConcatSplitLast<T>(window: seq<T>, xs: seq<T>)
    requires xs != []
    ensures window + xs == (window + xs[..|xs| - 1]) + [xs[|xs| - 1]]
  {
  }

  /** FIFO: after any run of appends the deque holds exactly the newest
      `maxLen` elements of everything it was given, oldest first. */
  lemma {:induction false} AppendAllKeepsNewest<T>(window: seq<T>, xs: seq<T>, maxLen: nat)
    requires 1 <= maxLen && |window| <= maxLen
    ensures AppendAll(window, xs, maxLen) == LastN(window + xs, maxLen)
    decreases |xs|
  {
    if xs == [] {
      assert window + xs == window;
    } else {
      var init, x := xs[..|xs| - 1], xs[|xs| - 1];
      AppendAllKeepsNewest(window, init, maxLen);
      ConcatSplitLast(window, xs);
      LastNAppend(window + init, x, maxLen);
    }
  }

  /** Once the deque is full, the next append evicts exactly the oldest element. */
  lemma AppendEvictsOldest<T>(window: seq<T>, x: T, maxLen: nat)
    requires 1 <= maxLen && |window| == maxLen
    ensures Append(window, x, maxLen) == window[1..] + [x]
    ensures multiset(Append(window, x, maxLen)) == multiset(window) - multiset{window[0]} + multiset{x}
  {
    assert window == [window[0]] + window[1..];
  }

  /** Capacity 3, samples 10, 20, 30, 40: the 10 is evicted first. */
  lemma ExampleCapacityThree()
    ensures AppendAll([], [10, 20, 30, 40], 3) == [20, 30, 40]
  {
    var xs := [10, 20, 30, 40];
    assert xs[..3] == [10, 20, 30];
    assert xs[..3][..2] == [10, 20];
    assert xs[..3][..2][..1] == [10];
    assert xs[..3][..2][..1][..0] == [];
  }
}
