/** The per-IP method window of the JSON-RPC parser: a deque bounded by length and by age. */
module MethodWindow {
  import opened BoundedDeque

  type Seconds = real

  const METHOD_LOG_LENGTH := 200
  const METHOD_ENUM_WINDOW_SECS := 30.0
  const METHOD_ENUM_THRESHOLD := 8

  datatype Call = Call(at: Seconds, methodName: string)

  function Methods(calls: seq<Call>): set<string> {
    set c | c in calls :: c.methodName
  }

  ghost predicate Ordered(calls: seq<Call>) {
    forall i, j :: 0 <= i < j < |calls| ==> calls[i].at <= calls[j].at
  }

  /** Whether the i-th call of a sender is among its last 200 and at most 30 s older than its last one. */
  predicate InWindow(calls: seq<Call>, i: nat)
    requires i < |calls|
  {
    i >= |calls| - METHOD_LOG_LENGTH && calls[i].at >= calls[|calls| - 1].at - METHOD_ENUM_WINDOW_SECS
  }

  /** `q` is exactly the part of the full call log that is in the window. */
  ghost predicate Exact(q: seq<Call>, calls: seq<Call>) {
    && |q| <= |calls| && q == calls[|calls| - |q|..]
    && forall i :: 0 <= i < |calls| ==> (i >= |calls| - |q| <==> InWindow(calls, i))
  }

  /** A new call after the append and during the pruning loop: too old entries may still be in front. */
  ghost predicate Partial(q: seq<Call>, calls: seq<Call>) {
    && 0 < |q| <= |calls| && |q| <= METHOD_LOG_LENGTH && q == calls[|calls| - |q|..]
    && forall i :: 0 <= i < |calls| && InWindow(calls, i) ==> i >= |calls| - |q|
  }

  lemma AppendIsPartial(q: seq<Call>, calls: seq<Call>, c: Call)
    requires Exact(q, calls) && Ordered(calls + [c])
    ensures Partial(Append(q, c, METHOD_LOG_LENGTH), calls + [c])
  {
    var (calls', r) := (calls + [c], Append(q, c, METHOD_LOG_LENGTH));
    assert r == calls'[|calls'| - |r|..];
    forall i | 0 <= i < |calls'| && InWindow(calls', i) ensures i >= |calls'| - |r| {
      if i < |calls| {
        assert calls'[i] == calls[i] && calls'[|calls| - 1].at <= c.at;
        assert InWindow(calls, i);
      }
    }
  }

  /** `_parse_jsonrpc`: append, then drop from the left what is older than the cutoff. */
  method LogCall(log: seq<Call>, c: Call, ghost calls: seq<Call>) returns (q: seq<Call>, uniqueMethods: nat)
    requires Exact(log, calls) && Ordered(calls + [c])
    ensures Exact(q, calls + [c])
    ensures uniqueMethods == |Methods(q)|
  {
    ghost var all := calls + [c];
    q := Append(log, c, METHOD_LOG_LENGTH);
    AppendIsPartial(log, calls, c);
    var cutoff := c.at - METHOD_ENUM_WINDOW_SECS;
    while q != [] && q[0].at < cutoff
      invariant Partial(q, all)
      decreases |q|
    {
      assert q[0] == all[|all| - |q|] && q[|q| - 1] == all[|all| - 1];
      q := q[1..];
    }
    FrontDecides(q, all, cutoff);
    uniqueMethods := |Methods(q)|;
  }

  lemma FrontDecides(q: seq<Call>, calls: seq<Call>, cutoff: Seconds)
    requires Partial(q, calls) && Ordered(calls)
    requires cutoff == calls[|calls| - 1].at - METHOD_ENUM_WINDOW_SECS && q[0].at >= cutoff
    ensures Exact(q, calls)
  {
  }

  // ----- the enumeration alarm

  lemma {:induction false} SubsetIsSmaller<T>(a: set<T>, b: set<T>)
    requires a <= b
    ensures |a| <= |b|
    decreases a
  {
    if a == {} {
    } else {
      var x :| x in a;
      SubsetIsSmaller(a - {x}, b - {x});
    }
  }

  /** The methods called at most 30 s before the last call, in the whole log. */
  function RecentMethods(calls: seq<Call>): set<string>
    requires calls != []
  {
    set c | c in calls && c.at >= calls[|calls| - 1].at - 30.0 :: c.methodName
  }

  /**
   An alarm is sound: that many methods were called within 30 s. When the window holds at most 200
   calls it is also complete: it fires if and only if at least 8 methods were.
   */
  lemma EnumerationAlarm(q: seq<Call>, calls: seq<Call>)
    requires calls != [] && Exact(q, calls)
    ensures |Methods(q)| >= METHOD_ENUM_THRESHOLD ==> |RecentMethods(calls)| >= METHOD_ENUM_THRESHOLD
    ensures (forall i :: 0 <= i < |calls| - METHOD_LOG_LENGTH ==>
              calls[i].at < calls[|calls| - 1].at - METHOD_ENUM_WINDOW_SECS) ==>
            (|Methods(q)| >= METHOD_ENUM_THRESHOLD <==> |RecentMethods(calls)| >= METHOD_ENUM_THRESHOLD)
  {
    var k := |calls| - |q|;
    forall c | c in q ensures c in calls && c.methodName in RecentMethods(calls) {
      var i :| 0 <= i < |q| && q[i] == c;
      assert calls[k + i] == c && InWindow(calls, k + i);
    }
    assert Methods(q) <= RecentMethods(calls);
    SubsetIsSmaller(Methods(q), RecentMethods(calls));
    if forall i :: 0 <= i < |calls| - METHOD_LOG_LENGTH ==>
         calls[i].at < calls[|calls| - 1].at - METHOD_ENUM_WINDOW_SECS
    {
      forall c | c in calls && c.at >= calls[|calls| - 1].at - METHOD_ENUM_WINDOW_SECS ensures c in q {
        var i :| 0 <= i < |calls| && calls[i] == c;
        assert InWindow(calls, i);
        assert q[i - k] == c;
      }
      assert Methods(q) == RecentMethods(calls);
    }
  }

  /** The last `n` calls, and no others, are at most 30 s older than the last one. */
  ghost predicate WindowHolds(calls: seq<Call>, n: nat)
    requires calls != []
  {
    n <= |calls|
    && forall i :: 0 <= i < |calls| ==>
         (i >= |calls| - n <==> calls[i].at >= calls[|calls| - 1].at - 30.0)
  }

  ghost predicate AlarmIsRight(q: seq<Call>, calls: seq<Call>)
    requires calls != []
  {
    |Methods(q)| >= METHOD_ENUM_THRESHOLD <==> |RecentMethods(calls)| >= METHOD_ENUM_THRESHOLD
  }

  /** Whatever the log with `n` calls in the window, the deque raises the alarm exactly when it is due. */
  ghost predicate AlwaysRight(n: nat) {
    forall calls: seq<Call>, q: seq<Call> ::
      calls != [] && Ordered(calls) && WindowHolds(calls, n) && Exact(q, calls) ==> AlarmIsRight(q, calls)
  }

  /** The alarm can be relied on exactly up to the length of the deque. */
  lemma AlarmIsRightIff(n: nat)
    ensures AlwaysRight(n) <==> n <= METHOD_LOG_LENGTH
  {
    if n <= METHOD_LOG_LENGTH {
      forall calls: seq<Call>, q: seq<Call>
        | calls != [] && Ordered(calls) && WindowHolds(calls, n) && Exact(q, calls)
        ensures AlarmIsRight(q, calls)
      {
        EnumerationAlarm(q, calls);
      }
    } else {
      var calls := Burst(n);
      BurstIsMissed(n);
      assert !AlarmIsRight(calls[n - METHOD_LOG_LENGTH..], calls);
    }
  }

  const SEVEN: seq<string> := ["a", "b", "c", "d", "e", "f", "g"]

  /** One method, then calls that go round seven others, all at one instant. */
  function Burst(n: nat): (calls: seq<Call>)
    requires n > METHOD_LOG_LENGTH
    ensures |calls| == n && calls[0] == Call(0.0, "h")
    ensures forall i :: 0 < i < n ==> calls[i] == Call(0.0, SEVEN[i % 7])
  {
    seq(n, i requires 0 <= i < n => if i == 0 then Call(0.0, "h") else Call(0.0, SEVEN[i % 7]))
  }

  /** More than 200 calls: the first method has left the deque, though it is still in the window. */
  lemma BurstIsMissed(n: nat)
    requires n > METHOD_LOG_LENGTH
    ensures var (calls, q) := (Burst(n), Burst(n)[n - METHOD_LOG_LENGTH..]);
      Ordered(calls) && WindowHolds(calls, n) && Exact(q, calls) && !AlarmIsRight(q, calls)
  {
    hide Methods, RecentMethods;
    BurstRecent(n);
    BurstDeque(n);
  }

  lemma BurstRecent(n: nat)
    requires n > METHOD_LOG_LENGTH
    ensures |RecentMethods(Burst(n))| >= METHOD_ENUM_THRESHOLD
  {
    hide RecentMethods, Burst;
    var eight := {"a", "b", "c", "d", "e", "f", "g", "h"};
    forall name | name in eight ensures Call(0.0, name) in Burst(n) {
      BurstCalls(n, name);
    }
    SameInstant(Burst(n), eight);
  }

  lemma SameInstant(calls: seq<Call>, names: set<string>)
    requires calls != [] && forall i :: 0 <= i < |calls| ==> calls[i].at == 0.0
    requires forall name | name in names :: Call(0.0, name) in calls
    ensures |RecentMethods(calls)| >= |names|
  {
    forall name | name in names ensures name in RecentMethods(calls) {
      assert Call(0.0, name).methodName == name;
    }
    SubsetIsSmaller(names, RecentMethods(calls));
  }

  lemma BurstDeque(n: nat)
    requires n > METHOD_LOG_LENGTH
    ensures |Methods(Burst(n)[n - METHOD_LOG_LENGTH..])| < METHOD_ENUM_THRESHOLD
  {
    var q := Burst(n)[n - METHOD_LOG_LENGTH..];
    var seven := {"a", "b", "c", "d", "e", "f", "g"};
    forall name | name in Methods(q) ensures name in seven {
      var i :| 0 <= i < |q| && q[i].methodName == name;
      assert q[i] == Burst(n)[n - METHOD_LOG_LENGTH + i];
    }
    SubsetIsSmaller(Methods(q), seven);
  }

  lemma BurstCalls(n: nat, name: string)
    requires n > METHOD_LOG_LENGTH && (name in SEVEN || name == "h")
    ensures Call(0.0, name) in Burst(n)
  {
    if name == "h" {
      assert Burst(n)[0] == Call(0.0, name);
    } else {
      var i :| 0 <= i < |SEVEN| && SEVEN[i] == name;
      assert Burst(n)[i + 7] == Call(0.0, name);
    }
  }
}
