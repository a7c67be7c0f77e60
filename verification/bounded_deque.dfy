/** `deque(maxlen=n)`: what `append` and `appendleft` keep, and the log they are a window of. */
module BoundedDeque {
  /** `appendleft`: a full deque loses its right end. */
  function AppendLeft<T>(q: seq<T>, x: T, maxlen: nat): seq<T> {
    var r := [x] + q;
    if |r| > maxlen then r[..maxlen] else r
  }

  /** `append`: a full deque loses its left end. */
  function Append<T>(q: seq<T>, x: T, maxlen: nat): seq<T> {
    var r := q + [x];
    if |r| > maxlen then r[|r| - maxlen..] else r
  }

  /** The last `n` entries of a log, oldest first. */
  function Latest<T>(log: seq<T>, n: nat): (r: seq<T>)
    ensures |r| == if |log| < n then |log| else n
  {
    if |log| <= n then log else log[|log| - n..]
  }

  function Reversed<T>(s: seq<T>): (r: seq<T>)
    ensures |r| == |s|
    ensures forall i :: 0 <= i < |s| ==> r[i] == s[|s| - 1 - i]
  {
    if s == [] then [] else [s[|s| - 1]] + Reversed(s[..|s| - 1])
  }

  /** The newest `n` entries of a log, newest first: what the history deques show. */
  function Newest<T>(log: seq<T>, n: nat): (r: seq<T>)
    ensures |r| == if |log| < n then |log| else n
    ensures forall i :: 0 <= i < |r| ==> r[i] == log[|log| - 1 - i]
  {
    Reversed(Latest(log, n))
  }

  lemma AppendLeftNewest<T>(log: seq<T>, x: T, n: nat)
    ensures AppendLeft(Newest(log, n), x, n) == Newest(log + [x], n)
  {
  }
}
