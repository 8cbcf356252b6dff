/** Bounded FIFO sequences: the behaviour of a `deque(maxlen=cap)` that is
    only ever appended to, and the "last n items" view it maintains. */
module Bounded {

  function Min(a: int, b: int): int
  {
    if a <= b then a else b
  }

  /** The newest min(n, |s|) items of `s`, in arrival order. */
  function LastN<T>(s: seq<T>, n: nat): (r: seq<T>)
    ensures |r| == Min(n, |s|)
    ensures r == s[|s| - |r|..]
  {
    if |s| <= n then s else s[|s| - n..]
  }

  /** Appending to a deque of capacity `cap`: when it is full the oldest
      item is evicted first. */
  function Push<T>(s: seq<T>, x: T, cap: nat): (r: seq<T>)
    requires 0 < cap && |s| <= cap
    ensures |r| == Min(|s| + 1, cap) && |r| <= cap
    ensures r[|r| - 1] == x
  {
    if |s| < cap then s + [x] else s[1..] + [x]
  }

  /** A bounded append keeps the newest `cap` items of what the deque held
      followed by the new item. */
  lemma PushIsLastN<T>(s: seq<T>, x: T, cap: nat)
    requires 0 < cap && |s| <= cap
    ensures Push(s, x, cap) == LastN(s + [x], cap)
  {
    if |s| == cap {
      assert s[1..] + [x] == (s + [x])[1..];
    }
  }

  /** A bounded deque that has seen the items of `s` holds exactly the newest
      `cap` of them, so one more bounded append yields the newest `cap` of
      `s + [x]`. */
  lemma PushLastN<T>(s: seq<T>, x: T, cap: nat)
    requires 0 < cap
    ensures Push(LastN(s, cap), x, cap) == LastN(s + [x], cap)
  {
    var w := LastN(s, cap);
    var r := Push(w, x, cap);
    var l := LastN(s + [x], cap);
    assert |r| == |l|;
    forall i | 0 <= i < |r|
      ensures r[i] == l[i]
    {
      if i < |r| - 1 {
        assert r[i] == (w + [x])[|w + [x]| - |r| + i];
      }
    }
  }

  /** The window of the newest `cap` items of `s + [x]`, minus its newest item,
      are the newest `cap - 1` items of `s`. */
  lemma LastNWithoutNewest<T>(s: seq<T>, x: T, cap: nat)
    requires 0 < cap
    ensures var w := LastN(s + [x], cap); w[..|w| - 1] == LastN(s, cap - 1)
  {
    var w := LastN(s + [x], cap);
    var l := LastN(s, cap - 1);
    assert |w[..|w| - 1]| == |l|;
    forall i | 0 <= i < |l|
      ensures w[..|w| - 1][i] == l[i]
    {
      assert w[i] == (s + [x])[|s| + 1 - |w| + i];
    }
  }
}
