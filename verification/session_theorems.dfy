/** The promises of the isolation engine, over every run and every interleaving. */
module SessionTheorems {
  import opened Wrappers
  import opened Decay
  import opened SessionProtocol
  import opened SessionSafety

  // ----- thresholds at every later instant

  /** Below the threshold of the next status. */
  ghost predicate WithinThresholds(h: HalfLife, session: Session, now: Tick) {
    && (session.status == Active ==> Effective(h, session.contributions, now) < SUSPICIOUS_THRESHOLD)
    && (session.status == Suspicious ==> Effective(h, session.contributions, now) < ISOLATION_THRESHOLD)
  }

  /** Until its next report a session is below the threshold of the next status, however late one looks. */
  lemma ThresholdsHoldLater(c: Config, s: EngineState, id: SessionId, later: Tick)
    requires Reachable(c, s) && !c.shadowMode && id in s.sessions && s.clock <= later
    ensures WithinThresholds(c.halfLife, s.sessions[id], later)
  {
    ReachableInvariant(c, s);
    WaitKeepsScores(c, s.sessions, s.clock, later);
    assert Calm(c, s.sessions[id], later);
  }

  /** In shadow mode the promise fails: a session at score 80 stays active. */
  lemma ShadowLeavesActive(c: Config)
    requires c.shadowMode
    ensures exists s, id ::
      && Reachable(c, s) && id in s.sessions && s.sessions[id].status == Active
      && Effective(c.halfLife, s.sessions[id].contributions, s.clock) == 80.0
  {
    hide Reported, Effective;
    var a := Report("10.0.0.50", 80.0, "test", "threat", "id", Readings(0, 0, 0, 0, 0));
    ShadowReport(c, a);
    var s := Reported(c, Start(0), a).value;
    assert Run(c, s, [], s);
    assert [a][1..] == [];
    assert Run(c, Start(0), [a], s);
  }

  lemma ShadowReport(c: Config, a: Action)
    requires c.shadowMode && a == Report("10.0.0.50", 80.0, "test", "threat", "id", Readings(0, 0, 0, 0, 0))
    ensures Reported(c, Start(0), a).Some?
    ensures var s := Reported(c, Start(0), a).value;
      && s.clock == 0 && "id" in s.sessions && s.sessions["id"].status == Active
      && Effective(c.halfLife, s.sessions["id"].contributions, s.clock) == 80.0
  {
    var cs := [Contribution("test", 80.0, 0, "threat")];
    assert cs[..0] == [];
    assert Total(c.halfLife, cs, 0) == 80.0;
  }

  /** So the promise is kept exactly by the engines that enforce. */
  lemma ThresholdsHoldIffEnforcing(c: Config)
    ensures (forall s, id, later :: Reachable(c, s) && id in s.sessions && s.clock <= later ==>
              WithinThresholds(c.halfLife, s.sessions[id], later))
      <==> !c.shadowMode
  {
    if c.shadowMode {
      ShadowLeavesActive(c);
      var s, id :| Reachable(c, s) && id in s.sessions && s.sessions[id].status == Active
        && Effective(c.halfLife, s.sessions[id].contributions, s.clock) == 80.0;
      assert !WithinThresholds(c.halfLife, s.sessions[id], s.clock);
    } else {
      forall s, id, later | Reachable(c, s) && id in s.sessions && s.clock <= later
        ensures WithinThresholds(c.halfLife, s.sessions[id], later)
      {
        ThresholdsHoldLater(c, s, id, later);
      }
    }
  }

  // ----- tables

  /** The lookup in `report_threat` never fails, whatever ran before. */
  lemma LookupsNeverFail(c: Config, s: EngineState, a: Action)
    requires Reachable(c, s) && Enabled(s, a)
    ensures Step(c, s, a).Some?
  {
    ReachableInvariant(c, s);
    TablesKept(c, s, a);
  }

  lemma TablesStayInverse(c: Config, s: EngineState, ip: Ip, id: SessionId)
    requires Reachable(c, s)
    ensures (ip in s.ipToSession && s.ipToSession[ip] == id) <==> (id in s.sessions && s.sessions[id].ip == ip)
  {
    ReachableInvariant(c, s);
  }

  /** How many sessions the prune steps of a run remove. */
  ghost function PrunedDuring(c: Config, s: EngineState, actions: seq<Action>): nat
    decreases |actions|
  {
    if actions == [] || !Enabled(s, actions[0]) || Step(c, s, actions[0]).None? then 0
    else
      var a := actions[0];
      PrunedDuring(c, Step(c, s, a).value, actions[1..]) + if a.Prune? then |StaleIds(c, s.sessions, a.at)| else 0
  }

  lemma StepCounts(c: Config, s: EngineState, a: Action)
    requires TablesKnown(s) && Enabled(s, a) && Step(c, s, a).Some?
    ensures var s' := Step(c, s, a).value;
      s'.totalSessions + |s.sessions|
        == s.totalSessions + |s'.sessions| + if a.Prune? then |StaleIds(c, s.sessions, a.at)| else 0
  {
    match a
    case Report(ip, _, _, _, freshId, t) =>
      RegisterKeepsTables(s, ip, freshId, t.registered);
      var registered := Registered(s, ip, freshId, t.registered);
      ContributedLog(c, registered, registered.ipToSession[ip], a);
    case Prune(at) => PruneCounts(s.sessions, StaleIds(c, s.sessions, at));
    case _ =>
  }

  lemma PruneCounts(sessions: Sessions, stale: set<SessionId>)
    requires stale <= sessions.Keys
    ensures |sessions| == |sessions - stale| + |stale|
  {
    assert (sessions - stale).Keys == sessions.Keys - stale;
  }

  /** Over any run, the sessions registered are those that live now and those that prune steps removed. */
  lemma {:induction false} SessionsCounted(c: Config, s: EngineState, actions: seq<Action>, s': EngineState)
    requires TablesKnown(s) && Run(c, s, actions, s')
    ensures s'.totalSessions + |s.sessions| == s.totalSessions + |s'.sessions| + PrunedDuring(c, s, actions)
    decreases |actions|
  {
    if actions == [] {
    } else {
      hide TablesKnown, StaleIds;
      TablesKept(c, s, actions[0]);
      StepCounts(c, s, actions[0]);
      SessionsCounted(c, Step(c, s, actions[0]).value, actions[1..], s');
    }
  }

  lemma SessionsAccounted(c: Config, clock: Tick, actions: seq<Action>, s: EngineState)
    requires Run(c, Start(clock), actions, s)
    ensures s.totalSessions == |s.sessions| + PrunedDuring(c, Start(clock), actions)
  {
    SessionsCounted(c, Start(clock), actions, s);
  }

  /** Pruning removes the sessions that are isolated or released and too old, and nothing else. */
  lemma PruningIsExact(c: Config, s: EngineState, at: Tick)
    requires Reachable(c, s) && s.clock <= at
    ensures var s' := Pruned(c, s, at);
      && (forall id :: id in s'.sessions <==> id in s.sessions && !Stale(c, s.sessions[id], at))
      && (forall id :: id in s'.sessions ==> s'.sessions[id] == s.sessions[id])
      && (forall ip :: ip in s'.ipToSession <==>
           ip in s.ipToSession && s.ipToSession[ip] in s.sessions
           && !Stale(c, s.sessions[s.ipToSession[ip]], at))
      && (forall ip :: ip in s'.ipToSession ==> s'.ipToSession[ip] == s.ipToSession[ip])
  {
    ReachableInvariant(c, s);
  }

  ghost predicate Dated(session: Session, clock: Tick) {
    0 <= session.createdAt <= clock && (session.isolatedAt.Some? ==> session.createdAt <= session.isolatedAt.value)
  }

  ghost predicate AllDated(sessions: map<SessionId, Session>, clock: Tick) {
    forall id :: id in sessions ==> Dated(sessions[id], clock)
  }

  lemma StepKeepsDates(c: Config, s: EngineState, a: Action)
    requires TablesKnown(s) && AllDated(s.sessions, s.clock) && Enabled(s, a) && s.clock >= 0
    requires Step(c, s, a).Some?
    ensures var s' := Step(c, s, a).value; AllDated(s'.sessions, s'.clock) && s'.clock >= s.clock
  {
    if a.Report? { ReportKeepsDates(c, s, a); } else { hide TablesKnown; }
  }

  lemma ReportKeepsDates(c: Config, s: EngineState, a: Action)
    requires a.Report? && AllDated(s.sessions, s.clock) && Enabled(s, a) && s.clock >= 0
    requires Reported(c, s, a).Some?
    ensures var s' := Reported(c, s, a).value; AllDated(s'.sessions, s'.clock) && s'.clock >= s.clock
  {
    hide Contributed;
    var registered := Registered(s, a.ip, a.freshId, a.readings.registered);
    ContributedDated(c, registered, registered.ipToSession[a.ip], a);
  }

  lemma ContributedDated(c: Config, s: EngineState, id: SessionId, a: Action)
    requires a.Report? && id in s.sessions && AllDated(s.sessions, s.clock)
    requires var t := a.readings; s.clock <= t.reported <= t.evaluated <= t.isolated <= t.scored
    ensures var s' := Contributed(c, s, id, a); AllDated(s'.sessions, s'.clock) && s'.clock >= s.clock
  {
  }

  lemma {:induction false} RunKeepsDates(c: Config, s: EngineState, actions: seq<Action>, s': EngineState)
    requires TablesKnown(s) && AllDated(s.sessions, s.clock) && s.clock >= 0 && Run(c, s, actions, s')
    ensures AllDated(s'.sessions, s'.clock)
    decreases |actions|
  {
    if actions == [] {
    } else {
      hide AllDated, TablesKnown;
      StepKeepsDates(c, s, actions[0]);
      TablesKept(c, s, actions[0]);
      RunKeepsDates(c, Step(c, s, actions[0]).value, actions[1..], s');
    }
  }

  /**
   On a clock that starts at or above 0 the age is the time since the isolation, or since the
   registration of a session released without one: reading an isolation at 0 as unset changes nothing.
   */
  lemma StaleByAge(c: Config, clock: Tick, actions: seq<Action>, s: EngineState, id: SessionId, at: Tick)
    requires clock >= 0 && Run(c, Start(clock), actions, s) && id in s.sessions && s.clock <= at
    ensures var session := s.sessions[id];
      Stale(c, session, at) <==>
        && (session.status == Isolated || session.status == Released)
        && at - (if session.isolatedAt.Some? then session.isolatedAt.value else session.createdAt)
             > 12 * c.halfLife.ticks
  {
    RunKeepsDates(c, Start(clock), actions, s);
    assert Dated(s.sessions[id], s.clock);
  }

  // ----- isolation happens once

  lemma {:induction false} IdAtIndex(isolations: seq<Isolation>, i: nat)
    requires i < |isolations|
    ensures isolations[i].sessionId in IdsOf(isolations)
  {
    if i == |isolations| - 1 {
    } else {
      IdAtIndex(isolations[..|isolations| - 1], i);
    }
  }

  lemma {:induction false} OnceByIndex(isolations: seq<Isolation>)
    requires Once(isolations)
    ensures forall i, j :: 0 <= i < j < |isolations| ==> isolations[i].sessionId != isolations[j].sessionId
  {
    if isolations == [] {
    } else {
      var n := |isolations| - 1;
      OnceByIndex(isolations[..n]);
      forall i | 0 <= i < n ensures isolations[i].sessionId != isolations[n].sessionId {
        IdAtIndex(isolations[..n], i);
      }
    }
  }

  lemma {:induction false} IpsByIndex(isolations: seq<Isolation>)
    ensures |IpsOf(isolations)| == |isolations|
    ensures forall i :: 0 <= i < |isolations| ==> IpsOf(isolations)[i] == isolations[i].ip
  {
    if isolations == [] {
    } else {
      IpsByIndex(isolations[..|isolations| - 1]);
    }
  }

  /**
   Under every interleaving no session id is isolated twice, each isolation makes one attempt at
   the IPS (when there is one) for the ip of its own session, and those completed and those in
   flight are all there ever were.
   */
  lemma IsolatedAtMostOnce(c: Config, s: EngineState)
    requires Reachable(c, s)
    ensures forall i, j :: 0 <= i < j < |s.isolations| ==> s.isolations[i].sessionId != s.isolations[j].sessionId
    ensures s.totalIsolated + |s.isolating| == |s.isolations|
    ensures c.hasIps ==> |s.blockAttempts| == |s.isolations|
    ensures c.hasIps ==> forall i :: 0 <= i < |s.isolations| ==> s.blockAttempts[i] == s.isolations[i].ip
    ensures forall i :: 0 <= i < |s.isolations| && s.isolations[i].sessionId in s.sessions ==>
      s.sessions[s.isolations[i].sessionId].ip == s.isolations[i].ip
    ensures !c.hasIps ==> s.blockAttempts == []
    ensures forall id :: id in s.sessions && s.sessions[id].status == Isolated ==>
      (id in s.isolating) != (id in CompletedIds(s))
  {
    ReachableInvariant(c, s);
    OnceByIndex(s.isolations);
    IpsByIndex(s.isolations);
  }

  lemma ShadowNeverEnforces(c: Config, s: EngineState)
    requires Reachable(c, s) && c.shadowMode
    ensures s.isolations == [] && s.blockAttempts == [] && s.totalIsolated == 0 && s.isolating == map[]
    ensures forall id :: id in s.sessions ==> s.sessions[id].status != Isolated
  {
    ReachableInvariant(c, s);
    assert |s.isolating| == 0;
  }

  // ----- a status only advances

  predicate MayBecome(from: Status, to: Status) {
    from == to || from == Active || (from == Suspicious && to != Active) || (from == Isolated && to == Released)
  }

  /** Everything a session keeps while time goes on; `id` may also have been pruned in between. */
  ghost predicate Follows(s: EngineState, s': EngineState) {
    && s.issued <= s'.issued
    && forall id :: id in s.issued && id in s'.sessions ==>
      && id in s.sessions
      && s'.sessions[id].ip == s.sessions[id].ip && s'.sessions[id].createdAt == s.sessions[id].createdAt
      && s.sessions[id].contributions <= s'.sessions[id].contributions
      && MayBecome(s.sessions[id].status, s'.sessions[id].status)
  }

  lemma StepFollows(c: Config, s: EngineState, a: Action)
    requires TablesKnown(s) && Enabled(s, a)
    ensures Step(c, s, a).Some? && Follows(s, Step(c, s, a).value)
  {
    hide Reported;
    match a
    case Register(ip, freshId, at) => RegisterFollows(s, ip, freshId, at);
    case Report(_, _, _, _, _, _) => ReportFollows(c, s, a);
    case Release(_) =>
    case Prune(_) =>
    case BlockReturned(_, _, _) =>
    case ForensicReturned(_) =>
  }

  lemma ReportFollows(c: Config, s: EngineState, a: Action)
    requires a.Report? && TablesKnown(s) && Enabled(s, a)
    ensures Reported(c, s, a).Some? && Follows(s, Reported(c, s, a).value)
  {
    hide Contributed, Follows;
    RegisterKeepsTables(s, a.ip, a.freshId, a.readings.registered);
    var registered := Registered(s, a.ip, a.freshId, a.readings.registered);
    RegisterFollows(s, a.ip, a.freshId, a.readings.registered);
    ContributedFollows(c, registered, registered.ipToSession[a.ip], a);
    FollowsTransitive(s, registered, Reported(c, s, a).value);
  }

  lemma RegisterFollows(s: EngineState, ip: Ip, freshId: SessionId, at: Tick)
    requires freshId !in s.issued
    ensures Follows(s, Registered(s, ip, freshId, at))
  {
  }

  lemma ContributedFollows(c: Config, s: EngineState, id: SessionId, a: Action)
    requires a.Report? && id in s.sessions
    ensures Follows(s, Contributed(c, s, id, a))
  {
  }

  /** Whatever happens, a released session stays released until it is pruned, and its id never returns. */
  lemma {:induction false} StatusOnlyAdvances(c: Config, s: EngineState, actions: seq<Action>, s': EngineState)
    requires TablesKnown(s) && Run(c, s, actions, s')
    ensures Follows(s, s')
    decreases |actions|
  {
    if actions == [] {
    } else {
      var next := Step(c, s, actions[0]).value;
      TablesKept(c, s, actions[0]);
      StepFollows(c, s, actions[0]);
      StatusOnlyAdvances(c, next, actions[1..], s');
      FollowsTransitive(s, next, s');
    }
  }

  lemma FollowsTransitive(a: EngineState, b: EngineState, c: EngineState)
    requires Follows(a, b) && Follows(b, c)
    ensures Follows(a, c)
  {
  }

  // ----- one-off anomalies fade

  /** Contributions of at most `x`, at least one half-life apart. */
  ghost predicate Sparse(h: HalfLife, cs: seq<Contribution>, x: real) {
    && (forall i :: 0 <= i < |cs| ==> cs[i].rawScore <= x)
    && (forall i :: 0 < i < |cs| ==> cs[i].contributedAt - cs[i - 1].contributedAt >= h.ticks)
  }

  lemma {:induction false} SparseAtLast(h: HalfLife, cs: seq<Contribution>, x: real)
    requires cs != [] && x > 0.0 && Sparse(h, cs, x)
    ensures Before(cs, cs[|cs| - 1].contributedAt)
    ensures Total(h, cs, cs[|cs| - 1].contributedAt) < 2.0 * x
  {
    var n := |cs| - 1;
    var last := cs[n].contributedAt;
    if n == 0 {
    } else {
      var previous := cs[n - 1].contributedAt;
      SparseAtLast(h, cs[..n], x);
      TotalRescales(h, cs[..n], previous, last);
      FactorHalves(h, last - previous);
      HalfOf(Total(h, cs[..n], previous), Factor(h, last - previous), x);
    }
    assert Factor(h, 0) == 1.0;
  }

  lemma AtLeastProduct(a: real, b: real, x: real, y: real)
    requires a >= x >= 0.0 && b >= y >= 0.0
    ensures a * b >= x * y
  {
  }

  lemma HalfOf(t: real, f: real, x: real)
    requires t < 2.0 * x && 0.0 < f <= 0.5 && x > 0.0
    ensures t * f < x
  {
    if t > 0.0 { AtLeastProduct(t, 0.5 - f, 0.0, 0.0); } else { AtLeastProduct(-t, f, 0.0, 0.0); }
  }

  /** However long the series, the uncapped score stays strictly below twice the largest contribution. */
  lemma SparseStaysBelow(h: HalfLife, cs: seq<Contribution>, x: real, now: Tick)
    requires x > 0.0 && Sparse(h, cs, x) && Before(cs, now)
    ensures Total(h, cs, now) < 2.0 * x
  {
    if cs != [] {
      SparseAtLast(h, cs, x);
      BelowStaysBelow(h, cs, cs[|cs| - 1].contributedAt, now, 2.0 * x);
    }
  }

  /** After no contribution, and at no time later, was the uncapped score at 40. */
  ghost predicate NeverReaches(h: HalfLife, cs: seq<Contribution>) {
    forall k: nat, now :: k <= |cs| && Before(cs[..k], now) ==> Total(h, cs[..k], now) < SUSPICIOUS_THRESHOLD
  }

  ghost predicate QuietIfLow(h: HalfLife, session: Session) {
    NeverReaches(h, session.contributions) ==> session.status == Active || session.status == Released
  }

  lemma ReportKeepsQuiet(c: Config, s: EngineState, id: SessionId, a: Action)
    requires a.Report? && id in s.sessions && QuietIfLow(c.halfLife, s.sessions[id])
    requires Before(s.sessions[id].contributions, s.clock)
    requires s.clock <= a.readings.reported <= a.readings.evaluated
    ensures id in Contributed(c, s, id, a).sessions
    ensures QuietIfLow(c.halfLife, Contributed(c, s, id, a).sessions[id])
  {
    hide Total;
    var (before, session) := (s.sessions[id].contributions, WithContribution(s.sessions[id], a));
    var after := session.contributions;
    if NeverReaches(c.halfLife, after) {
      forall k: nat, now | k <= |before| && Before(before[..k], now)
        ensures Total(c.halfLife, before[..k], now) < SUSPICIOUS_THRESHOLD
      {
        assert after[..k] == before[..k];
      }
      assert after[..|after|] == after;
      assert Before(after, a.readings.evaluated);
      assert Total(c.halfLife, after, a.readings.evaluated) < SUSPICIOUS_THRESHOLD;
    }
  }

  lemma StepKeepsQuiet(c: Config, s: EngineState, a: Action)
    requires TablesKnown(s) && ScoresKnown(c, s) && Enabled(s, a)
    requires forall id :: id in s.sessions ==> QuietIfLow(c.halfLife, s.sessions[id])
    ensures Step(c, s, a).Some?
    ensures forall id :: id in Step(c, s, a).value.sessions ==>
      QuietIfLow(c.halfLife, Step(c, s, a).value.sessions[id])
  {
    TablesKept(c, s, a);
    if a.Report? {
      RegisterKeepsTables(s, a.ip, a.freshId, a.readings.registered);
      RegisterKeepsScores(c, s, a.ip, a.freshId, a.readings.registered);
      var registered := Registered(s, a.ip, a.freshId, a.readings.registered);
      var id := registered.ipToSession[a.ip];
      ReportKeepsQuiet(c, registered, id, a);
      ContributedLog(c, registered, id, a);
    }
  }

  lemma {:induction false} RunKeepsQuiet(c: Config, s: EngineState, actions: seq<Action>, s': EngineState)
    requires Invariant(c, s) && Run(c, s, actions, s')
    requires forall id :: id in s.sessions ==> QuietIfLow(c.halfLife, s.sessions[id])
    ensures forall id :: id in s'.sessions ==> QuietIfLow(c.halfLife, s'.sessions[id])
    decreases |actions|
  {
    if actions == [] {
    } else {
      InvariantKept(c, s, actions[0]);
      StepKeepsQuiet(c, s, actions[0]);
      RunKeepsQuiet(c, Step(c, s, actions[0]).value, actions[1..], s');
    }
  }

  /** A session whose score never reached 40 is active, or released by hand. */
  lemma LowScoresStayActive(c: Config, s: EngineState, id: SessionId)
    requires Reachable(c, s) && id in s.sessions && NeverReaches(c.halfLife, s.sessions[id].contributions)
    ensures s.sessions[id].status == Active || s.sessions[id].status == Released
  {
    hide NeverReaches, Total, Enabled, Step;
    var clock, actions :| Run(c, Start(clock), actions, s);
    assert Invariant(c, Start(clock));
    RunKeepsQuiet(c, Start(clock), actions, s);
    assert QuietIfLow(c.halfLife, s.sessions[id]);
  }

  /** One-off anomalies fade: a session hit by at most 20 per half-life is never suspicious nor isolated. */
  lemma OneOffAnomaliesFade(c: Config, s: EngineState, id: SessionId)
    requires Reachable(c, s) && id in s.sessions
    requires Sparse(c.halfLife, s.sessions[id].contributions, 20.0)
    ensures s.sessions[id].status == Active || s.sessions[id].status == Released
  {
    hide Reachable, Total;
    var cs := s.sessions[id].contributions;
    forall k: nat, now | k <= |cs| && Before(cs[..k], now)
      ensures Total(c.halfLife, cs[..k], now) < SUSPICIOUS_THRESHOLD
    {
      SparseStaysBelow(c.halfLife, cs[..k], 20.0, now);
    }
    LowScoresStayActive(c, s, id);
  }

  /** A list of contributions of at most `x` never totals more than they do undecayed. */
  lemma {:induction false} TotalAtMost(h: HalfLife, cs: seq<Contribution>, x: real, now: Tick)
    requires x >= 0.0 && Before(cs, now) && forall i :: 0 <= i < |cs| ==> cs[i].rawScore <= x
    ensures Total(h, cs, now) <= x * |cs| as real
  {
    if cs == [] {
    } else {
      var n := |cs| - 1;
      TotalAtMost(h, cs[..n], x, now);
      TermAtMost(h, cs[n], x, now);
      assert x * (n + 1) as real == x * n as real + x;
    }
  }

  lemma TermAtMost(h: HalfLife, c: Contribution, x: real, now: Tick)
    requires x >= 0.0 && c.rawScore <= x && c.contributedAt <= now
    ensures Term(h, c, now) <= x
  {
    var f := Factor(h, now - c.contributedAt);
    if c.rawScore > 0.0 { Shrinks(c.rawScore, f, c.rawScore * f); } else { AtLeastProduct(-c.rawScore, f, 0.0, 0.0); }
  }

  // ----- sustained attacks accumulate

  ghost predicate NonNegative(cs: seq<Contribution>) {
    forall i :: 0 <= i < |cs| ==> cs[i].rawScore >= 0.0
  }

  /** With no negative contribution, the sum is at least that of any earlier part. */
  lemma {:induction false} TotalOfPrefix(h: HalfLife, cs: seq<Contribution>, k: nat, now: Tick)
    requires NonNegative(cs) && k <= |cs|
    ensures Total(h, cs, now) >= Total(h, cs[..k], now)
    decreases |cs|
  {
    var n := |cs| - 1;
    if k <= n {
      AtLeastProduct(cs[n].rawScore, Factor(h, now - cs[n].contributedAt), 0.0, 0.0);
      TotalOfPrefix(h, cs[..n], k, now);
      assert cs[..n][..k] == cs[..k];
    } else {
      assert cs[..k] == cs;
    }
  }

  lemma TotalFrom(h: HalfLife, cs: seq<Contribution>, i: nat, k: nat, now: Tick)
    requires NonNegative(cs) && i < k <= |cs|
    ensures Total(h, cs[..k], now)
      >= Total(h, cs[..i], now) + Term(h, cs[i], now)
  {
    assert cs[..k][..i + 1] == cs[..i + 1] && cs[..i + 1][..i] == cs[..i];
    TotalOfPrefix(h, cs[..k], i + 1, now);
  }

  /** A report whose session ends at a score of 70 or more leaves it isolated, or released as it was. */
  lemma HighScoreIsolates(c: Config, s: EngineState, id: SessionId, a: Action)
    requires a.Report? && id in s.sessions && !c.shadowMode
    requires Total(c.halfLife, WithContribution(s.sessions[id], a).contributions, a.readings.evaluated)
      >= ISOLATION_THRESHOLD
    ensures id in Contributed(c, s, id, a).sessions
    ensures var before, after := s.sessions[id].status, Contributed(c, s, id, a).sessions[id].status;
      if before == Released then after == Released else after == Isolated
  {
  }

  lemma IsolatesIff(c: Config, s: EngineState, id: SessionId, a: Action)
    requires a.Report? && id in s.sessions && !c.shadowMode
    requires s.sessions[id].status == Active || s.sessions[id].status == Suspicious
    ensures id in Contributed(c, s, id, a).sessions
    ensures Contributed(c, s, id, a).sessions[id].status == Isolated <==>
      Total(c.halfLife, WithContribution(s.sessions[id], a).contributions, a.readings.evaluated) >= ISOLATION_THRESHOLD
  {
  }

  lemma ThreeTerms(h: HalfLife, cs: seq<Contribution>, i: nat, j: nat, now: Tick)
    requires NonNegative(cs) && i < j < |cs| - 1
    ensures Total(h, cs, now) >= Term(h, cs[i], now) + Term(h, cs[j], now) + Term(h, cs[|cs| - 1], now)
  {
    var n := |cs| - 1;
    TotalFrom(h, cs, j, n, now);
    TotalFrom(h, cs, i, j, now);
    TotalOfPrefix(h, cs[..i], 0, now);
    assert Total(h, cs, now) == Total(h, cs[..n], now) + Term(h, cs[n], now);
    assert Total(h, cs[..i][..0], now) == 0.0;
  }

  /** What three equal contributions weigh together, in units of one fresh contribution. */
  function Weight3(h: HalfLife, cs: seq<Contribution>, i: nat, j: nat, k: nat, now: Tick): real
    requires i < |cs| && j < |cs| && k < |cs|
  {
    Factor(h, now - cs[i].contributedAt) + Factor(h, now - cs[j].contributedAt) + Factor(h, now - cs[k].contributedAt)
  }

  /** Three criticals reach 70 whenever their decay factors add up to 1.75, whatever else is in the list. */
  lemma ThreeCriticalsReach(h: HalfLife, cs: seq<Contribution>, i: nat, j: nat, now: Tick)
    requires NonNegative(cs) && i < j < |cs| - 1
    requires cs[i].rawScore >= 40.0 && cs[j].rawScore >= 40.0 && cs[|cs| - 1].rawScore >= 40.0
    requires Weight3(h, cs, i, j, |cs| - 1, now) >= 1.75
    ensures Total(h, cs, now) >= ISOLATION_THRESHOLD
  {
    ThreeTerms(h, cs, i, j, now);
    TermAtLeast(h, cs[i], now, Factor(h, now - cs[i].contributedAt));
    TermAtLeast(h, cs[j], now, Factor(h, now - cs[j].contributedAt));
    TermAtLeast(h, cs[|cs| - 1], now, Factor(h, now - cs[|cs| - 1].contributedAt));
  }

  /** With exactly three criticals the condition is exact. */
  lemma ThreeCriticalsReachIff(h: HalfLife, cs: seq<Contribution>, now: Tick)
    requires |cs| == 3 && cs[0].rawScore == cs[1].rawScore == cs[2].rawScore == 40.0
    ensures Total(h, cs, now) >= ISOLATION_THRESHOLD <==> Weight3(h, cs, 0, 1, 2, now) >= 1.75
  {
    assert cs[..2][..1] == cs[..1] && cs[..2][..1][..0] == [];
    assert Total(h, cs[..2], now) == Total(h, cs[..1], now) + Term(h, cs[1], now);
  }

  /** Gaps of at most one half-life meet the condition on arrival. */
  lemma CloseCriticalsWeigh(h: HalfLife, cs: seq<Contribution>, i: nat, j: nat, k: nat)
    requires i < j < k < |cs|
    requires 0 <= cs[j].contributedAt - cs[i].contributedAt <= h.ticks
    requires 0 <= cs[k].contributedAt - cs[j].contributedAt <= h.ticks
    ensures Weight3(h, cs, i, j, k, cs[k].contributedAt) >= 1.75
  {
    var (g0, g1) := (cs[j].contributedAt - cs[i].contributedAt, cs[k].contributedAt - cs[j].contributedAt);
    QuarterAtLeast(h, g0, g1);
    assert cs[k].contributedAt - cs[i].contributedAt == g0 + g1;
  }

  lemma TermAtLeast(h: HalfLife, c: Contribution, now: Tick, f: real)
    requires c.rawScore >= 40.0 && f >= 0.0 && Factor(h, now - c.contributedAt) >= f
    ensures Term(h, c, now) >= 40.0 * f
  {
    AtLeastProduct(c.rawScore, Factor(h, now - c.contributedAt), 40.0, f);
  }

  lemma QuarterAtLeast(h: HalfLife, g0: Tick, g1: Tick)
    requires 0 <= g0 <= h.ticks && 0 <= g1 <= h.ticks
    ensures Factor(h, g0 + g1) >= 0.25 && Factor(h, g1) >= 0.5 && Factor(h, 0) == 1.0
  {
    FactorHalves(h, g0);
    FactorHalves(h, g1);
    FactorPlus(h, g0, g1);
    AtLeastProduct(Factor(h, g0), Factor(h, g1), 0.5, 0.5);
  }

  /**
   Sustained attacks accumulate: the report that makes the decay factors of three contributions of
   at least 40 add up to 1.75 isolates the session, however late its score is read.
   `ThreeCriticalsIsolateIff` shows that nothing less would do.
   */
  lemma ThreeCriticalsIsolate(c: Config, s: EngineState, id: SessionId, a: Action, i: nat, j: nat)
    requires Reachable(c, s) && !c.shadowMode && a.Report? && Enabled(s, a)
    requires a.ip in s.ipToSession && s.ipToSession[a.ip] == id && id in s.sessions && a.score >= 40.0
    requires var cs := s.sessions[id].contributions;
      && NonNegative(cs) && i < j < |cs| && cs[i].rawScore >= 40.0 && cs[j].rawScore >= 40.0
      && Weight3(c.halfLife, WithContribution(s.sessions[id], a).contributions, i, j, |cs|, a.readings.evaluated)
           >= 1.75
    ensures Reported(c, s, a).Some? && id in Reported(c, s, a).value.sessions
    ensures var after := Reported(c, s, a).value.sessions[id].status;
      if s.sessions[id].status == Released then after == Released else after == Isolated
  {
    hide Reachable, Contributed, Total, Weight3, ScoresKnown, LogKnown, FlightKnown;
    ReachableInvariant(c, s);
    ThreeCriticalsReach(c.halfLife, WithContribution(s.sessions[id], a).contributions, i, j, a.readings.evaluated);
    HighScoreIsolates(c, s, id, a);
  }

  /** Of a session that took two criticals and was not isolated, the third one isolates it exactly then. */
  lemma ThreeCriticalsIsolateIff(c: Config, s: EngineState, id: SessionId, a: Action)
    requires Reachable(c, s) && !c.shadowMode && a.Report? && Enabled(s, a)
    requires a.ip in s.ipToSession && s.ipToSession[a.ip] == id && id in s.sessions && a.score == 40.0
    requires var session := s.sessions[id];
      && (session.status == Active || session.status == Suspicious)
      && |session.contributions| == 2
      && session.contributions[0].rawScore == session.contributions[1].rawScore == 40.0
    ensures Reported(c, s, a).Some? && id in Reported(c, s, a).value.sessions
    ensures Reported(c, s, a).value.sessions[id].status == Isolated <==>
      Weight3(c.halfLife, WithContribution(s.sessions[id], a).contributions, 0, 1, 2, a.readings.evaluated) >= 1.75
  {
    hide Reachable, Contributed, Total, Weight3, ScoresKnown, LogKnown, FlightKnown;
    ReachableInvariant(c, s);
    IsolatesIff(c, s, id, a);
    ThreeCriticalsReachIff(c.halfLife, WithContribution(s.sessions[id], a).contributions, a.readings.evaluated);
  }

  /** A report that arrives at `at` and is evaluated `delay` later. */
  function LateReadings(at: Tick, delay: Tick): Readings {
    Readings(at, at, at + delay, at + delay, at + delay)
  }

  /** The three criticals of the failing run: one half-life apart, the last score read `delay` later. */
  function SpacedCriticals(h: HalfLife, delay: Tick): seq<Action> {
    var n := h.ticks;
    [Report("10.0.0.50", 40.0, "ids.alert", "alert", "id0", Readings(0, 0, 0, 0, 0)),
     Report("10.0.0.50", 40.0, "ids.alert", "alert", "id1", Readings(n, n, n, n, n)),
     Report("10.0.0.50", 40.0, "ids.alert", "alert", "id2", LateReadings(2 * n, delay))]
  }

  /** The bound is tight: gaps of one half-life isolate if the score is read on arrival, and never if later. */
  lemma ThreeCriticalsReadLate(c: Config, delay: Tick)
    requires !c.shadowMode && delay >= 0
    ensures exists s ::
      && Run(c, Start(0), SpacedCriticals(c.halfLife, delay), s) && "id0" in s.sessions
      && s.sessions["id0"].status == if delay == 0 then Isolated else Suspicious
  {
    hide Contributed, Factor, Total, Run;
    var actions := SpacedCriticals(c.halfLife, delay);
    FirstCritical(c, actions[0]);
    var s1 := Reported(c, Start(0), actions[0]).value;
    SecondCritical(c, s1, actions[1]);
    var s2 := Reported(c, s1, actions[1]).value;
    ThirdCritical(c, s2, actions[2], delay);
    ThreeSteps(c, Start(0), actions, s1, s2, Reported(c, s2, actions[2]).value);
  }

  lemma ThreeSteps(c: Config, s: EngineState, actions: seq<Action>, s1: EngineState, s2: EngineState, s3: EngineState)
    requires |actions| == 3
    requires Enabled(s, actions[0]) && Step(c, s, actions[0]) == Some(s1)
    requires Enabled(s1, actions[1]) && Step(c, s1, actions[1]) == Some(s2)
    requires Enabled(s2, actions[2]) && Step(c, s2, actions[2]) == Some(s3)
    ensures Run(c, s, actions, s3)
  {
    hide Step, Enabled;
    assert actions[1..][1..] == actions[2..] && actions[2..][1..] == [];
    assert Run(c, s2, actions[2..], s3);
    assert Run(c, s1, actions[1..], s3);
  }

  ghost predicate OneSession(s: EngineState, session: Session) {
    s.sessions == map["id0" := session] && s.ipToSession == map["10.0.0.50" := "id0"]
  }

  lemma FirstCritical(c: Config, a: Action)
    requires !c.shadowMode && a == Report("10.0.0.50", 40.0, "ids.alert", "alert", "id0", Readings(0, 0, 0, 0, 0))
    ensures Reported(c, Start(0), a).Some?
    ensures var s := Reported(c, Start(0), a).value;
      && s.clock == 0 && s.issued == {"id0"}
      && OneSession(s, Session("10.0.0.50", Suspicious, 0, 0, None, [Contribution("ids.alert", 40.0, 0, "alert")]))
  {
    var cs := [Contribution("ids.alert", 40.0, 0, "alert")];
    assert cs[..0] == [];
    assert Total(c.halfLife, cs, 0) == 40.0;
  }

  lemma SecondCritical(c: Config, s: EngineState, a: Action)
    requires var n := c.halfLife.ticks;
      !c.shadowMode && a == Report("10.0.0.50", 40.0, "ids.alert", "alert", "id1", Readings(n, n, n, n, n))
    requires OneSession(s, Session("10.0.0.50", Suspicious, 0, 0, None, [Contribution("ids.alert", 40.0, 0, "alert")]))
    ensures Reported(c, s, a).Some?
    ensures var (n, s') := (c.halfLife.ticks, Reported(c, s, a).value);
      && s'.clock == n && s'.issued == s.issued
      && OneSession(s', Session(
           "10.0.0.50", Suspicious, 0, n, None,
           [Contribution("ids.alert", 40.0, 0, "alert"), Contribution("ids.alert", 40.0, n, "alert")]))
  {
    var n := c.halfLife.ticks;
    var cs := [Contribution("ids.alert", 40.0, 0, "alert"), Contribution("ids.alert", 40.0, n, "alert")];
    assert cs[..1] == [cs[0]] && cs[..1][..0] == [];
    assert Factor(c.halfLife, n) == 0.5 && Factor(c.halfLife, 0) == 1.0;
    assert Total(c.halfLife, cs[..1], n) == 20.0;
    assert Total(c.halfLife, cs, n) == 60.0;
    assert WithContribution(s.sessions["id0"], a).contributions == cs;
  }

  lemma ThirdCritical(c: Config, s: EngineState, a: Action, delay: Tick)
    requires var n := c.halfLife.ticks;
      && !c.shadowMode && delay >= 0
      && a == Report("10.0.0.50", 40.0, "ids.alert", "alert", "id2",
                     LateReadings(2 * n, delay))
      && OneSession(s, Session(
           "10.0.0.50", Suspicious, 0, n, None,
           [Contribution("ids.alert", 40.0, 0, "alert"), Contribution("ids.alert", 40.0, n, "alert")]))
    ensures Reported(c, s, a).Some? && "id0" in Reported(c, s, a).value.sessions
    ensures Reported(c, s, a).value.sessions["id0"].status == if delay == 0 then Isolated else Suspicious
  {
    var cs := WithContribution(s.sessions["id0"], a).contributions;
    ThreeCriticalsReachIff(c.halfLife, cs, a.readings.evaluated);
    SpacedWeight(c.halfLife, delay);
  }

  lemma SpacedWeight(h: HalfLife, delay: Tick)
    requires delay >= 0
    ensures Factor(h, 2 * h.ticks + delay) + Factor(h, h.ticks + delay) + Factor(h, delay) == 1.75 * Factor(h, delay)
    ensures delay == 0 <==> Factor(h, delay) >= 1.0
  {
    FactorPlus(h, h.ticks, delay);
    FactorPlus(h, h.ticks, h.ticks + delay);
    if delay > 0 { StrictlyDecays(h, delay); }
  }
}
