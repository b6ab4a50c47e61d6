/**
 * The Python list operations the assistant relies on: the negative slice
 * `s[-n:]`, `collections.deque(maxlen=n)` and `max(xs, key=f)`.
 */
module PySeq {

  function Min(a: int, b: int): int { if a <= b then a else b }

  /**
   * `s[-n:]` for any integer `n`: the last `n` elements for `n >= 1`, the whole
   * list for `n == 0` (because `-0 == 0`), and `s` without its first `-n`
   * elements for negative `n`.
   */
  function Suffix<T>(s: seq<T>, n: int): (r: seq<T>)
    ensures |r| <= |s| && r == s[|s| - |r|..]
    ensures n >= 1 ==> |r| == Min(n, |s|)
    ensures n == 0 ==> |r| == |s|
    ensures n < 0 ==> |r| == |s| - Min(-n, |s|)
  {
    if n == 0 then s
    else if n > 0 then (if n >= |s| then s else s[|s| - n..])
    else (if -n >= |s| then [] else s[-n..])
  }

  /** `s.index(x)`: the position of the first occurrence of `x`. */
  function IndexOf<T(==)>(s: seq<T>, x: T): (i: nat)
    requires x in s
    ensures i < |s| && s[i] == x
    ensures forall j :: 0 <= j < i ==> s[j] != x
    decreases |s|
  {
    if s[0] == x then 0 else 1 + IndexOf(s[1..], x)
  }

  /** The elements of `sub`, all found in `s`, come in the order `s` gives them. */
  predicate InOrderOf<T(==)>(sub: seq<T>, s: seq<T>)
    requires forall x :: x in sub ==> x in s
  {
    forall i, j :: 0 <= i < j < |sub| ==> IndexOf(s, sub[i]) < IndexOf(s, sub[j])
  }

  /** What a `deque(maxlen=n)` holds after seeing `s`: the last `n` elements of `s`. */
  function Window<T>(s: seq<T>, n: nat): (r: seq<T>)
    ensures |r| == Min(|s|, n)
    ensures r == s[|s| - |r|..]
  {
    if |s| <= n then s else s[|s| - n..]
  }

  /**
   * `d.append(x)` on a deque with `maxlen`: when the deque is full the oldest
   * element (the leftmost) is discarded first; a deque of `maxlen` 0 stays empty.
   */
  function DequeAppend<T>(d: seq<T>, x: T, maxlen: nat): (r: seq<T>)
    requires |d| <= maxlen
    ensures |r| <= maxlen
    ensures r == Window(d + [x], maxlen)
  {
    if maxlen == 0 then []
    else if |d| == maxlen then d[1..] + [x]
    else d + [x]
  }

  /** Appending the elements of `xs` one after the other. */
  function DequeAppendAll<T>(d: seq<T>, xs: seq<T>, maxlen: nat): (r: seq<T>)
    requires |d| <= maxlen
    decreases |xs|
  {
    if xs == [] then d else DequeAppendAll(DequeAppend(d, xs[0], maxlen), xs[1..], maxlen)
  }

  /** Windowing twice keeps the last `n` of everything seen. */
  lemma WindowOfWindow<T>(a: seq<T>, b: seq<T>, n: nat)
    ensures Window(Window(a, n) + b, n) == Window(a + b, n)
  {
    var w := Window(a, n);
    var lhs := Window(w + b, n);
    var rhs := Window(a + b, n);
    assert |lhs| == |rhs|;
    forall k | 0 <= k < |lhs|
      ensures lhs[k] == rhs[k]
    {
      var i := |w + b| - |lhs| + k;
      var j := |a + b| - |rhs| + k;
      if i < |w| {
        assert lhs[k] == w[i] == a[|a| - |w| + i];
        assert j == |a| - |w| + i;
      } else {
        assert lhs[k] == b[i - |w|];
        assert j - |a| == i - |w|;
      }
    }
  }

  /**
   * A deque of `maxlen` n fed `xs` one at a time ends up holding the last n
   * elements of everything it has seen, oldest first: the ring-buffer law.
   */
  lemma {:induction false} DequeAppendAllIsWindow<T>(d: seq<T>, xs: seq<T>, maxlen: nat)
    requires |d| <= maxlen
    ensures DequeAppendAll(d, xs, maxlen) == Window(d + xs, maxlen)
    decreases |xs|
  {
    if xs == [] {
      assert d + xs == d;
    } else {
      var d' := DequeAppend(d, xs[0], maxlen);
      calc {
        DequeAppendAll(d, xs, maxlen);
        DequeAppendAll(d', xs[1..], maxlen);
        { DequeAppendAllIsWindow(d', xs[1..], maxlen); }
        Window(Window(d + [xs[0]], maxlen) + xs[1..], maxlen);
        { WindowOfWindow(d + [xs[0]], xs[1..], maxlen); }
        Window(d + [xs[0]] + xs[1..], maxlen);
        { assert d + [xs[0]] + xs[1..] == d + xs; }
        Window(d + xs, maxlen);
      }
    }
  }

  /**
   * `max(xs, key=key)`: the index of the first element whose key is largest.
   * Python's `max` keeps the earliest of several equal maxima.
   */
  function ArgMax<T>(xs: seq<T>, key: T -> real): (i: nat)
    requires |xs| > 0
    ensures i < |xs|
    ensures forall j :: 0 <= j < |xs| ==> key(xs[j]) <= key(xs[i])
    ensures forall j :: 0 <= j < i ==> key(xs[j]) < key(xs[i])
    decreases |xs|
  {
    if |xs| == 1 then 0
    else
      var i := ArgMax(xs[..|xs| - 1], key);
      if key(xs[|xs| - 1]) > key(xs[i]) then |xs| - 1 else i
  }
}
