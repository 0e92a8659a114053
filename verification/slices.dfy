/** Python's open-ended slices `s[:n]` and `s[n:]`, including the meaning
    Python gives to a negative bound (counted from the end). */
module Slices {

  /** Python's `s[:n]`. */
  function TakePrefix<T>(s: seq<T>, n: int): (r: seq<T>)
    ensures 0 <= n ==> |r| == if n < |s| then n else |s|
    ensures n < 0 ==> |r| == if |s| + n < 0 then 0 else |s| + n
    ensures r <= s
  {
    if 0 <= n then (if n < |s| then s[..n] else s)
    else (if |s| + n < 0 then [] else s[..|s| + n])
  }

  /** Python's `s[n:]`. */
  function DropPrefix<T>(s: seq<T>, n: int): (r: seq<T>)
    ensures 0 <= n ==> |r| == if n < |s| then |s| - n else 0
    ensures n < 0 ==> |r| == if |s| + n < 0 then |s| else -n
    ensures r == s[|s| - |r|..]
  {
    if 0 <= n then (if n < |s| then s[n..] else [])
    else (if |s| + n < 0 then s else s[|s| + n..])
  }

  /** The last `cap` elements of `s` (all of them when there are fewer):
      what a `deque(maxlen=cap)` holds after its elements were appended. */
  function KeepLast<T>(s: seq<T>, cap: nat): (r: seq<T>)
    ensures |r| == if |s| <= cap then |s| else cap
    ensures r == s[|s| - |r|..]
  {
    if |s| <= cap then s else s[|s| - cap..]
  }

  /** `deque(maxlen=cap).append(x)`: the oldest element is dropped when the
      deque is full. */
  function BoundedAppend<T>(s: seq<T>, x: T, cap: nat): (r: seq<T>)
    requires 0 < cap
    ensures 0 < |r| <= cap && r[|r| - 1] == x
    ensures |s| < cap ==> r == s + [x]
    ensures |s| == cap ==> r == s[1..] + [x]
  {
    var t := s + [x];
    assert |KeepLast(t, cap)| >= 1 && t[|t| - 1] == x;
    KeepLast(t, cap)
  }

  /** Appending one element to a non-empty sequence leaves its head and
      extends its tail. */
  lemma AppendTail<T>(s: seq<T>, x: T)
    requires |s| != 0
    ensures (s + [x])[0] == s[0] && (s + [x])[1..] == s[1..] + [x]
  {
  }

  /** Appending one element to the empty sequence. */
  lemma AppendToEmpty<T>(s: seq<T>, x: T)
    requires |s| == 0
    ensures s + [x] == [x] && [x][1..] == []
  {
  }
}
