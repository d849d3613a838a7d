/** Small shared definitions: an optional value and the "last n elements" of a sequence. */
module Util {

  /** A value that may be missing (Python's None). */
  datatype Option<T> = None | Some(value: T)

  /**
   * The last n elements of s, or all of s when it is shorter: what Python's
   * slice s[-n:] gives for n > 0, and what a deque with maxlen n keeps.
   */
  function KeepLast<T>(s: seq<T>, n: nat): (r: seq<T>)
    ensures |r| <= n && |r| <= |s|
    ensures |s| <= n ==> r == s
    ensures |s| > n ==> |r| == n
  {
    if |s| <= n then s else s[|s| - n..]
  }

  /** What is kept is the newest part of s, in its original order. */
  lemma KeepLastIsSuffix<T>(s: seq<T>, n: nat)
    ensures KeepLast(s, n) == s[|s| - |KeepLast(s, n)|..]
  {
    if |s| <= n {
      assert s[0..] == s;
    }
  }

  /** Appending one element and keeping the last n is the same whether or not the prefix was cut first. */
  lemma KeepLastPush<T>(s: seq<T>, e: T, n: nat)
    requires n > 0
    ensures KeepLast(KeepLast(s, n) + [e], n) == KeepLast(s + [e], n)
  {
    if |s| >= n {
      assert KeepLast(s, n) + [e] == s[|s| - n..] + [e];
      assert (s + [e])[|s| + 1 - n..] == s[|s| + 1 - n..] + [e];
      assert (s[|s| - n..] + [e])[1..] == s[|s| + 1 - n..] + [e];
    }
  }
}

/** The constants of config/settings.py. */
module Config {
  /** Number of most recent blocks the slashing window covers. */
  const SlashingWindow: nat := 100

  /** Fraction of the window that may be missed before the miss-rate alert fires. */
  const SlashingThreshold: real := 0.20
}
