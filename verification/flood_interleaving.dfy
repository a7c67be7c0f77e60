/**
 Handlings of floods that overlap: `_handle_flood` suspends while its alert is fired and while its ip
 is blocked, and other handlings may run in between. What comes before the first await, the decision,
 is one step of the accounts; the call of the IPS and the record follow in steps of their own.
 */
module FloodInterleaving {
  import opened Wrappers
  import opened SlidingCounters
  import opened FloodDetector
  import opened FloodTheorems

  /**
   `decided` is what the decisions alone amount to. Events are named by their place in it: those whose
   alert is being fired, those whose ip is being blocked, and the order in which blocks were called
   and events recorded.
   */
  datatype Overlapping = Overlapping(
    decided: Accounts, alerting: set<nat>, blocking: set<nat>, called: seq<nat>, recorded: seq<nat>)

  datatype Turn =
    | Decide(ip: Ip, floodType: FloodType, count: nat, at: Seconds)
    | AlertReturned(event: nat)
    | BlockReturned(event: nat)

  predicate CanTurn(s: Overlapping, a: Turn) {
    match a
    case Decide(_, _, _, _) => true
    case AlertReturned(n) => n in s.alerting
    case BlockReturned(n) => n in s.blocking
  }

  function Next(s: Overlapping, a: Turn): Overlapping {
    match a
    case Decide(ip, t, count, at) =>
      var decided := Handled(s.decided, ip, t, count, at);
      s.(decided := decided,
         alerting := if |decided.published| > |s.decided.published|
                     then s.alerting + {|s.decided.published|} else s.alerting)
    case AlertReturned(n) =>
      s.(alerting := s.alerting - {n}, blocking := s.blocking + {n}, called := s.called + [n])
    case BlockReturned(n) => s.(blocking := s.blocking - {n}, recorded := s.recorded + [n])
  }

  function Idle(): Overlapping {
    Overlapping(Start({}, 0.0).accounts, {}, {}, [], [])
  }

  ghost predicate Turns(s: Overlapping, turns: seq<Turn>, s': Overlapping)
    decreases |turns|
  {
    if turns == [] then s' == s
    else CanTurn(s, turns[0]) && Turns(Next(s, turns[0]), turns[1..], s')
  }

  // ----- the invariant

  ghost predicate NoRepeat(order: seq<nat>) {
    forall i, j :: 0 <= i < j < |order| ==> order[i] != order[j]
  }

  /** Every event decided is waiting for its alert, or its block was called once; likewise its record. */
  ghost predicate Placed(events: nat, alerting: set<nat>, blocking: set<nat>, called: seq<nat>, recorded: seq<nat>) {
    && NoRepeat(called) && NoRepeat(recorded) && alerting !! blocking
    && (forall n :: n in called ==> n < events && n !in alerting)
    && (forall n :: n in recorded ==> n in called && n !in blocking)
    && (forall n :: n in alerting ==> n < events)
    && (forall n: nat :: n < events ==> n in alerting || n in called)
    && (forall n :: n in blocking ==> n in called)
    && |called| + |alerting| == events
    && |recorded| + |blocking| == |called|
  }

  ghost predicate Consistent(s: Overlapping) {
    Invariant(s.decided) && Placed(|s.decided.published|, s.alerting, s.blocking, s.called, s.recorded)
  }

  lemma DecidePlaces(
    events: nat, alerting: set<nat>, blocking: set<nat>, called: seq<nat>, recorded: seq<nat>)
    requires Placed(events, alerting, blocking, called, recorded)
    ensures Placed(events + 1, alerting + {events}, blocking, called, recorded)
  {
  }

  lemma AlertPlaces(
    events: nat, alerting: set<nat>, blocking: set<nat>, called: seq<nat>, recorded: seq<nat>, n: nat)
    requires Placed(events, alerting, blocking, called, recorded) && n in alerting
    ensures Placed(events, alerting - {n}, blocking + {n}, called + [n], recorded)
  {
  }

  lemma BlockPlaces(
    events: nat, alerting: set<nat>, blocking: set<nat>, called: seq<nat>, recorded: seq<nat>, n: nat)
    requires Placed(events, alerting, blocking, called, recorded) && n in blocking
    ensures Placed(events, alerting, blocking - {n}, called, recorded + [n])
  {
  }

  lemma HandledGrows(s: Accounts, ip: Ip, t: FloodType, count: nat, at: Seconds)
    ensures var n := |Handled(s, ip, t, count, at).published|; n == |s.published| || n == |s.published| + 1
  {
  }

  lemma NextKeeps(s: Overlapping, a: Turn)
    requires Consistent(s) && CanTurn(s, a)
    ensures Consistent(Next(s, a))
  {
    hide Invariant, Placed, Handled;
    var events := |s.decided.published|;
    match a
    case Decide(ip, t, count, at) =>
      HandledKeeps(s.decided, ip, t, count, at);
      HandledGrows(s.decided, ip, t, count, at);
      DecidePlaces(events, s.alerting, s.blocking, s.called, s.recorded);
    case AlertReturned(n) => AlertPlaces(events, s.alerting, s.blocking, s.called, s.recorded, n);
    case BlockReturned(n) => BlockPlaces(events, s.alerting, s.blocking, s.called, s.recorded, n);
  }

  lemma {:induction false} TurnsKeep(s: Overlapping, turns: seq<Turn>, s': Overlapping)
    requires Consistent(s) && Turns(s, turns, s')
    ensures Consistent(s')
    decreases |turns|
  {
    if turns == [] {
    } else {
      NextKeeps(s, turns[0]);
      TurnsKeep(Next(s, turns[0]), turns[1..], s');
    }
  }

  lemma IdleIsConsistent()
    ensures Consistent(Idle())
  {
  }

  // ----- main results

  /** However handlings overlap, the offence rate of an ip stays bounded. */
  lemma OverlappingRateBounded(turns: seq<Turn>, s: Overlapping, ip: Ip, from: Seconds, length: Seconds)
    requires Turns(Idle(), turns, s) && length >= 0.0
    ensures Within(s.decided.published, ip, from, from + length) <= 4 * ((length / SUPPRESS_WINDOW).Floor + 1)
  {
    IdleIsConsistent();
    TurnsKeep(Idle(), turns, s);
    RateBounded(s.decided.published, ip, from, length);
  }

  /** Every offence decided is waiting or leads to exactly one call of the IPS and one record. */
  lemma OverlappingAccounted(turns: seq<Turn>, s: Overlapping)
    requires Turns(Idle(), turns, s)
    ensures Sum(s.decided.offences) == s.decided.eventCounter == |s.called| + |s.alerting|
    ensures |s.called| == |s.recorded| + |s.blocking|
    ensures forall i, j :: 0 <= i < j < |s.called| ==> s.called[i] != s.called[j]
    ensures forall i, j :: 0 <= i < j < |s.recorded| ==> s.recorded[i] != s.recorded[j]
  {
    IdleIsConsistent();
    TurnsKeep(Idle(), turns, s);
  }

  /** Whatever else is under way, a decision raises an event exactly when it is due. */
  lemma DecidesExactly(turns: seq<Turn>, s: Overlapping, ip: Ip, t: FloodType, count: nat, at: Seconds)
    requires Turns(Idle(), turns, s)
    ensures Next(s, Decide(ip, t, count, at)).decided.published
      == Added(s.decided.published, Flood(t, ip, count, Threshold(t), at))
  {
    hide Turns, Invariant, Added;
    IdleIsConsistent();
    TurnsKeep(Idle(), turns, s);
    HandledAdds(s.decided, ip, t, count, at);
  }

  /** The event of `ip` whose block was called last. */
  function LastCalled(decided: Accounts, called: seq<nat>, ip: Ip): (r: Option<nat>)
    ensures r.Some? ==> r.value in called && r.value < |decided.blocks| && decided.blocks[r.value].ip == ip
  {
    if called == [] then None
    else
      var n := called[|called| - 1];
      if n < |decided.blocks| && decided.blocks[n].ip == ip then Some(n)
      else LastCalled(decided, called[..|called| - 1], ip)
  }

  /** The block of `ip` in force: the IPS replaces an earlier one by the one called last. */
  function InForce(decided: Accounts, called: seq<nat>, ip: Ip): Option<Block> {
    var last := LastCalled(decided, called, ip);
    if last.Some? then Some(decided.blocks[last.value]) else None
  }

  /** Two floods of one ip whose alerts return in the opposite order. */
  function Overtaken(): seq<Turn> {
    [Decide("10.0.0.50", SynFlood, 60, 30.0), Decide("10.0.0.50", UdpFlood, 120, 30.0),
     AlertReturned(1), AlertReturned(0)]
  }

  /** Then the second offence is decided, but the block of the first, one hour, replaces its six hours. */
  lemma LateBlockShortens()
    ensures exists s ::
      && Turns(Idle(), Overtaken(), s) && Get(s.decided.offences, "10.0.0.50", 0) == 2
      && InForce(s.decided, s.called, "10.0.0.50") == Some(Block("10.0.0.50", Some(3600), 1))
  {
    var turns := Overtaken();
    var s1 := Next(Idle(), turns[0]);
    var s2 := Next(s1, turns[1]);
    TwoDecided(s1.decided, s2.decided);
    var s3 := Next(s2, turns[2]);
    var s4 := Next(s3, turns[3]);
    hide Handled;
    assert s2.alerting == {0, 1} && s4.called == [1, 0];
    assert turns[1..][1..] == turns[2..] && turns[2..][1..] == turns[3..] && turns[3..][1..] == [];
    assert Turns(s4, [], s4);
    assert Turns(s3, turns[3..], s4);
    assert Turns(s2, turns[2..], s4);
    assert Turns(s1, turns[1..], s4);
  }

  lemma TwoDecided(first: Accounts, second: Accounts)
    requires first == Handled(Start({}, 0.0).accounts, "10.0.0.50", SynFlood, 60, 30.0)
    requires second == Handled(first, "10.0.0.50", UdpFlood, 120, 30.0)
    ensures |first.published| == 1 && |second.published| == 2 && Get(second.offences, "10.0.0.50", 0) == 2
    ensures second.blocks == [Block("10.0.0.50", Some(3600), 1), Block("10.0.0.50", Some(21600), 2)]
  {
    KeysDiffer(SynFlood, "10.0.0.50", UdpFlood, "10.0.0.50");
    hide SuppressionKey, Trimmed;
  }

  lemma {:induction false} OffencesGrow(events: seq<FloodEvent>, n: nat, ip: Ip)
    requires n <= |events|
    ensures OffencesIn(events[..n], ip) <= OffencesIn(events, ip)
    decreases |events|
  {
    if n == |events| {
      assert events[..n] == events;
    } else {
      OffencesGrow(events[..|events| - 1], n, ip);
      assert events[..|events| - 1][..n] == events[..n];
    }
  }

  /**
   When the block in force is the one that all offences so far call for, under any overlap: exactly
   if the event called last is the last offence of its ip, or already a third one.
   */
  lemma BlockInForceIff(turns: seq<Turn>, s: Overlapping, ip: Ip)
    requires Turns(Idle(), turns, s) && LastCalled(s.decided, s.called, ip).Some?
    ensures var (published, n) := (s.decided.published, LastCalled(s.decided, s.called, ip).value);
      && n < |published|
      && (InForce(s.decided, s.called, ip).value.duration == BlockDuration(Get(s.decided.offences, ip, 0)) <==>
           || OffencesIn(published[..n + 1], ip) == OffencesIn(published, ip)
           || OffencesIn(published[..n + 1], ip) >= 3)
  {
    hide Turns, Spaced, HistoryKept, WarningsSpaced, Alerted, Sum, Placed;
    IdleIsConsistent();
    TurnsKeep(Idle(), turns, s);
    var (published, n) := (s.decided.published, LastCalled(s.decided, s.called, ip).value);
    assert Entered(published, s.decided.blocks, n);
    OffencesGrow(published, n + 1, ip);
    assert published[..n + 1][..n] == published[..n];
    OffencesGrow(published[..n + 1], n + 1, ip);
  }

  predicate Blames(decided: Accounts, n: nat, ip: Ip) {
    n < |decided.blocks| && decided.blocks[n].ip == ip
  }

  /** Blocks of `ip` are called in the order of its offences; those of others may come at any time. */
  ghost predicate CalledInOrder(decided: Accounts, called: seq<nat>, ip: Ip) {
    forall i, j :: 0 <= i < j < |called| ==>
      Blames(decided, called[i], ip) && Blames(decided, called[j], ip) ==> called[i] < called[j]
  }

  lemma {:induction false} LastPlace(decided: Accounts, called: seq<nat>, ip: Ip) returns (k: nat)
    requires LastCalled(decided, called, ip).Some?
    ensures k < |called| && called[k] == LastCalled(decided, called, ip).value && Blames(decided, called[k], ip)
    ensures forall j :: k < j < |called| ==> !Blames(decided, called[j], ip)
  {
    if Blames(decided, called[|called| - 1], ip) {
      k := |called| - 1;
    } else {
      k := LastPlace(decided, called[..|called| - 1], ip);
    }
  }

  lemma LastIsLargest(decided: Accounts, called: seq<nat>, ip: Ip, m: nat)
    requires m in called && Blames(decided, m, ip) && LastCalled(decided, called, ip).Some?
    requires CalledInOrder(decided, called, ip)
    ensures m <= LastCalled(decided, called, ip).value
  {
    hide LastCalled;
    var k := LastPlace(decided, called, ip);
    var i :| 0 <= i < |called| && called[i] == m;
  }

  lemma {:induction false} NoLaterOffence(events: seq<FloodEvent>, k: nat, ip: Ip)
    requires k <= |events| && forall m :: k <= m < |events| ==> events[m].ip != ip
    ensures OffencesIn(events[..k], ip) == OffencesIn(events, ip)
    decreases |events|
  {
    if k == |events| {
      assert events[..k] == events;
    } else {
      NoLaterOffence(events[..|events| - 1], k, ip);
      assert events[..|events| - 1][..k] == events[..k];
    }
  }

  /** In particular if only the blocks of this one ip are called in the order of its offences. */
  lemma BlocksInOrderStay(turns: seq<Turn>, s: Overlapping, ip: Ip)
    requires Turns(Idle(), turns, s) && LastCalled(s.decided, s.called, ip).Some?
    requires forall n :: n in s.alerting && n < |s.decided.published| ==> s.decided.published[n].ip != ip
    requires CalledInOrder(s.decided, s.called, ip)
    ensures InForce(s.decided, s.called, ip).value.duration == BlockDuration(Get(s.decided.offences, ip, 0))
  {
    hide Turns, Spaced, HistoryKept, WarningsSpaced, Alerted, Sum, BlockDuration, OffencesIn;
    IdleIsConsistent();
    TurnsKeep(Idle(), turns, s);
    BlockInForceIff(turns, s, ip);
    var (published, n) := (s.decided.published, LastCalled(s.decided, s.called, ip).value);
    forall m | n < m < |published| ensures published[m].ip != ip {
      if published[m].ip == ip {
        assert Entered(published, s.decided.blocks, m);
        LastIsLargest(s.decided, s.called, ip, m);
      }
    }
    NoLaterOffence(published, n + 1, ip);
  }
}
