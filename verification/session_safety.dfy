/** What every run of the session state machine keeps. */
module SessionSafety {
  import opened Wrappers
  import opened BoundedDeque
  import opened Decay
  import opened SessionProtocol

  // ----- decay of the running sum

  ghost predicate Before(cs: seq<Contribution>, now: Tick) {
    forall i :: 0 <= i < |cs| ==> cs[i].contributedAt <= now
  }

  lemma {:induction false} TotalRescales(h: HalfLife, cs: seq<Contribution>, now: Tick, later: Tick)
    requires Before(cs, now) && now <= later
    ensures Total(h, cs, later) == Total(h, cs, now) * Factor(h, later - now)
  {
    if cs == [] {
    } else {
      var n := |cs| - 1;
      TotalRescales(h, cs[..n], now, later);
      var (t, raw, age) := (Total(h, cs[..n], now), cs[n].rawScore, now - cs[n].contributedAt);
      FactorPlus(h, age, later - now);
      assert later - cs[n].contributedAt == age + (later - now);
      var (f, g) := (Factor(h, age), Factor(h, later - now));
      assert raw * (f * g) == (raw * f) * g;
      assert t * g + (raw * f) * g == (t + raw * f) * g;
    }
  }

  /** A sum below a positive threshold stays below it until something is added. */
  lemma BelowStaysBelow(h: HalfLife, cs: seq<Contribution>, now: Tick, later: Tick, threshold: real)
    requires Before(cs, now) && now <= later && 0.0 < threshold
    requires Total(h, cs, now) < threshold
    ensures Total(h, cs, later) < threshold
  {
    TotalRescales(h, cs, now, later);
    ShrinksBelow(Total(h, cs, now), Factor(h, later - now), threshold);
  }

  lemma ShrinksBelow(t: real, f: real, threshold: real)
    requires t < threshold && 0.0 < threshold && 0.0 < f <= 1.0
    ensures t * f < threshold
  {
  }

  // ----- the invariant, over the fields it reads

  type Sessions = map<SessionId, Session>

  ghost predicate TablesInverse(sessions: Sessions, ipToSession: map<Ip, SessionId>) {
    && (forall ip :: ip in ipToSession ==>
         ipToSession[ip] in sessions && sessions[ipToSession[ip]].ip == ip)
    && (forall id :: id in sessions ==>
         sessions[id].ip in ipToSession && ipToSession[sessions[id].ip] == id)
  }

  ghost predicate TimesKnown(sessions: Sessions, clock: Tick) {
    forall id :: id in sessions ==> Before(sessions[id].contributions, clock)
  }

  ghost predicate Calm(c: Config, session: Session, now: Tick) {
    && (session.status == Active ==> Total(c.halfLife, session.contributions, now) < SUSPICIOUS_THRESHOLD)
    && (session.status == Suspicious ==> Total(c.halfLife, session.contributions, now) < ISOLATION_THRESHOLD)
  }

  ghost predicate BelowThresholds(c: Config, sessions: Sessions, now: Tick) {
    !c.shadowMode ==> forall id :: id in sessions ==> Calm(c, sessions[id], now)
  }

  function IdsOf(isolations: seq<Isolation>): set<SessionId> {
    if isolations == [] then {}
    else IdsOf(isolations[..|isolations| - 1]) + {isolations[|isolations| - 1].sessionId}
  }

  function IpsOf(isolations: seq<Isolation>): seq<Ip> {
    if isolations == [] then []
    else IpsOf(isolations[..|isolations| - 1]) + [isolations[|isolations| - 1].ip]
  }

  function IsolationsOf(events: seq<IsolationEvent>): seq<Isolation> {
    if events == [] then []
    else IsolationsOf(events[..|events| - 1]) + [events[|events| - 1].isolation]
  }

  /** No session id occurs twice. */
  ghost predicate Once(isolations: seq<Isolation>) {
    isolations == [] ||
    (Once(isolations[..|isolations| - 1])
     && isolations[|isolations| - 1].sessionId !in IdsOf(isolations[..|isolations| - 1]))
  }

  ghost predicate StatusesMatch(sessions: Sessions, isolated: set<SessionId>) {
    forall id :: id in sessions ==>
      && (sessions[id].status == Isolated ==> id in isolated)
      && (id in isolated ==> sessions[id].status == Isolated || sessions[id].status == Released)
  }

  ghost predicate Attempted(c: Config, isolations: seq<Isolation>, blockAttempts: seq<Ip>) {
    && (c.shadowMode ==> isolations == [])
    && blockAttempts == if c.hasIps then IpsOf(isolations) else []
  }

  /** An isolation is logged under the ip of the session it isolates. */
  ghost predicate OwnIps(sessions: Sessions, issued: set<SessionId>, isolations: seq<Isolation>) {
    forall isolation :: isolation in isolations ==>
      isolation.sessionId in issued
      && (isolation.sessionId in sessions ==> sessions[isolation.sessionId].ip == isolation.ip)
  }

  ghost predicate InFlight(isolating: map<SessionId, Phase>, isolations: seq<Isolation>) {
    forall id :: id in isolating ==>
      isolating[id].isolation.sessionId == id && isolating[id].isolation in isolations
  }

  /** Every isolation is either in flight or completed, never both, and is counted once. */
  ghost predicate Accounted(
    isolating: set<SessionId>, isolated: set<SessionId>, done: set<SessionId>, begun: nat, completed: nat)
  {
    && isolating !! done
    && isolated == isolating + done
    && completed + |isolating| == begun
  }

  ghost predicate Recorded(totalIsolated: nat, history: seq<IsolationEvent>, completed: seq<IsolationEvent>) {
    totalIsolated == |completed| && history == Newest(completed, HISTORY_LENGTH)
  }

  function CompletedIds(s: EngineState): set<SessionId> {
    IdsOf(IsolationsOf(s.completed))
  }

  ghost predicate TablesKnown(s: EngineState) {
    TablesInverse(s.sessions, s.ipToSession) && s.sessions.Keys <= s.issued && s.totalSessions == |s.issued|
  }

  ghost predicate ScoresKnown(c: Config, s: EngineState) {
    TimesKnown(s.sessions, s.clock) && BelowThresholds(c, s.sessions, s.clock)
  }

  ghost predicate LogKnown(c: Config, s: EngineState) {
    && Once(s.isolations) && IdsOf(s.isolations) <= s.issued
    && StatusesMatch(s.sessions, IdsOf(s.isolations))
    && Attempted(c, s.isolations, s.blockAttempts)
    && OwnIps(s.sessions, s.issued, s.isolations)
  }

  ghost predicate FlightKnown(s: EngineState) {
    && InFlight(s.isolating, s.isolations)
    && Once(IsolationsOf(s.completed))
    && Accounted(s.isolating.Keys, IdsOf(s.isolations), CompletedIds(s), |s.isolations|, |s.completed|)
    && Recorded(s.totalIsolated, s.history, s.completed)
  }

  ghost predicate Invariant(c: Config, s: EngineState) {
    TablesKnown(s) && ScoresKnown(c, s) && LogKnown(c, s) && FlightKnown(s)
  }

  // ----- preservation, function by function and part by part

  lemma WaitKeepsScores(c: Config, sessions: Sessions, clock: Tick, later: Tick)
    requires TimesKnown(sessions, clock) && BelowThresholds(c, sessions, clock) && clock <= later
    ensures TimesKnown(sessions, later) && BelowThresholds(c, sessions, later)
  {
    if !c.shadowMode {
      forall id | id in sessions ensures Calm(c, sessions[id], later) {
        if sessions[id].status == Active {
          BelowStaysBelow(c.halfLife, sessions[id].contributions, clock, later, SUSPICIOUS_THRESHOLD);
        } else if sessions[id].status == Suspicious {
          BelowStaysBelow(c.halfLife, sessions[id].contributions, clock, later, ISOLATION_THRESHOLD);
        }
      }
    }
  }

  lemma RegisterKeepsTables(s: EngineState, ip: Ip, freshId: SessionId, at: Tick)
    requires TablesKnown(s) && freshId !in s.issued
    ensures var s' := Registered(s, ip, freshId, at);
      TablesKnown(s') && ip in s'.ipToSession && s'.ipToSession[ip] in s'.sessions
  {
  }

  /** The inverse tables alone keep every step defined: no lookup fails. */
  lemma TablesKept(c: Config, s: EngineState, a: Action)
    requires TablesKnown(s) && Enabled(s, a)
    ensures Step(c, s, a).Some? && TablesKnown(Step(c, s, a).value)
  {
    match a
    case Register(ip, freshId, at) => RegisterKeepsTables(s, ip, freshId, at);
    case Report(ip, _, _, _, freshId, t) =>
      RegisterKeepsTables(s, ip, freshId, t.registered);
      var registered := Registered(s, ip, freshId, t.registered);
      ContributeKeepsTables(c, registered, registered.ipToSession[ip], a);
    case Release(_) =>
    case Prune(at) => PruneKeepsTables(c, s, at);
    case BlockReturned(_, _, _) =>
    case ForensicReturned(_) =>
  }

  lemma ContributeKeepsTables(c: Config, s: EngineState, id: SessionId, a: Action)
    requires TablesKnown(s) && a.Report? && id in s.sessions
    ensures TablesKnown(Contributed(c, s, id, a))
  {
    ContributedLog(c, s, id, a);
    var s' := Contributed(c, s, id, a);
    UpdateKeepsTables(s, s', id, s'.sessions[id]);
  }

  lemma RegisterKeepsScores(c: Config, s: EngineState, ip: Ip, freshId: SessionId, at: Tick)
    requires ScoresKnown(c, s) && s.clock <= at
    ensures ScoresKnown(c, Registered(s, ip, freshId, at)) && s.clock <= Registered(s, ip, freshId, at).clock <= at
  {
    WaitKeepsScores(c, s.sessions, s.clock, at);
    assert Total(c.halfLife, [], at) == 0.0;
  }

  lemma RegisterKeepsLog(c: Config, s: EngineState, ip: Ip, freshId: SessionId, at: Tick)
    requires LogKnown(c, s) && freshId !in s.issued
    ensures LogKnown(c, Registered(s, ip, freshId, at))
  {
  }

  lemma RegisterKeepsFlight(s: EngineState, ip: Ip, freshId: SessionId, at: Tick)
    requires FlightKnown(s)
    ensures FlightKnown(Registered(s, ip, freshId, at))
  {
  }

  /** Replacing one session by another of the same ip. */
  lemma UpdateKeepsTables(s: EngineState, s': EngineState, id: SessionId, session: Session)
    requires TablesKnown(s) && id in s.sessions && session.ip == s.sessions[id].ip
    requires s'.sessions == s.sessions[id := session] && s'.ipToSession == s.ipToSession
    requires s'.issued == s.issued && s'.totalSessions == s.totalSessions
    ensures TablesKnown(s')
  {
  }

  lemma UpdateKeepsScores(c: Config, s: EngineState, s': EngineState, id: SessionId, session: Session)
    requires ScoresKnown(c, s) && id in s.sessions && s.clock <= s'.clock
    requires s'.sessions == s.sessions[id := session]
    requires Before(session.contributions, s'.clock)
    requires !c.shadowMode ==> Calm(c, session, s'.clock)
    ensures ScoresKnown(c, s')
  {
    WaitKeepsScores(c, s.sessions, s.clock, s'.clock);
  }

  /** What `Contributed` does to the session table and the clock. */
  lemma ContributedSession(c: Config, s: EngineState, id: SessionId, a: Action)
    requires a.Report? && id in s.sessions && s.clock <= a.readings.reported
    requires a.readings.reported <= a.readings.evaluated <= a.readings.isolated <= a.readings.scored
    requires Before(s.sessions[id].contributions, s.clock)
    ensures var s' := Contributed(c, s, id, a);
      && s.clock <= s'.clock && id in s'.sessions
      && s'.sessions == s.sessions[id := s'.sessions[id]]
      && s'.sessions[id].ip == s.sessions[id].ip
      && Before(s'.sessions[id].contributions, s'.clock)
      && (!c.shadowMode ==> Calm(c, s'.sessions[id], s'.clock))
  {
    hide Total;
  }

  lemma LogGrows(isolations: seq<Isolation>, isolation: Isolation)
    requires Once(isolations) && isolation.sessionId !in IdsOf(isolations)
    ensures var longer := isolations + [isolation];
      && Once(longer)
      && IdsOf(longer) == IdsOf(isolations) + {isolation.sessionId}
      && IpsOf(longer) == IpsOf(isolations) + [isolation.ip]
  {
  }

  /** An isolation that begins for a session that never had one is logged and in flight. */
  lemma BeginKeepsLog(c: Config, s: EngineState, s': EngineState, isolation: Isolation)
    requires LogKnown(c, s) && !c.shadowMode
    requires isolation.sessionId in s.issued && isolation.sessionId !in IdsOf(s.isolations)
    requires s'.isolations == s.isolations + [isolation] && s'.issued == s.issued
    requires s'.blockAttempts == if c.hasIps then s.blockAttempts + [isolation.ip] else s.blockAttempts
    requires isolation.sessionId in s'.sessions && s'.sessions[isolation.sessionId].status == Isolated
    requires isolation.sessionId in s.sessions && s.sessions[isolation.sessionId].ip == isolation.ip
    requires s'.sessions[isolation.sessionId].ip == isolation.ip
    requires s'.sessions == s.sessions[isolation.sessionId := s'.sessions[isolation.sessionId]]
    ensures LogKnown(c, s')
  {
  }

  lemma BeginKeepsInFlight(isolating: map<SessionId, Phase>, isolations: seq<Isolation>, isolation: Isolation)
    requires InFlight(isolating, isolations)
    ensures InFlight(isolating[isolation.sessionId := Severing(isolation)], isolations + [isolation])
    ensures isolating[isolation.sessionId := Severing(isolation)].Keys == isolating.Keys + {isolation.sessionId}
  {
  }

  lemma BeginKeepsFlight(s: EngineState, s': EngineState, isolation: Isolation)
    requires FlightKnown(s) && Once(s.isolations) && isolation.sessionId !in IdsOf(s.isolations)
    requires s'.isolations == s.isolations + [isolation]
    requires s'.isolating == s.isolating[isolation.sessionId := Severing(isolation)]
    requires s'.completed == s.completed && s'.totalIsolated == s.totalIsolated && s'.history == s.history
    ensures FlightKnown(s')
  {
    LogGrows(s.isolations, isolation);
    BeginKeepsInFlight(s.isolating, s.isolations, isolation);
    BeginKeepsAccounts(
      s.isolating.Keys, IdsOf(s.isolations), CompletedIds(s), |s.isolations|, |s.completed|, isolation.sessionId);
  }

  lemma BeginKeepsAccounts(
    isolating: set<SessionId>, isolated: set<SessionId>, done: set<SessionId>, begun: nat, completed: nat,
    id: SessionId)
    requires Accounted(isolating, isolated, done, begun, completed) && id !in isolated
    ensures Accounted(isolating + {id}, isolated + {id}, done, begun + 1, completed)
  {
  }

  /** A report leaves the logs alone, or begins one isolation of a session that had none. */
  lemma ContributedLog(c: Config, s: EngineState, id: SessionId, a: Action)
    requires a.Report? && id in s.sessions
    ensures var s' := Contributed(c, s, id, a);
      && s'.issued == s.issued && s'.completed == s.completed
      && s'.totalIsolated == s.totalIsolated && s'.history == s.history
      && id in s'.sessions && s'.sessions == s.sessions[id := s'.sessions[id]]
      && s'.sessions[id].ip == s.sessions[id].ip
      && s'.ipToSession == s.ipToSession && s'.totalSessions == s.totalSessions
      && if s'.isolations == s.isolations then
           && s'.isolating == s.isolating && s'.blockAttempts == s.blockAttempts
           && (s'.sessions[id].status == s.sessions[id].status
               || (s.sessions[id].status == Active && s'.sessions[id].status == Suspicious))
         else
           && !c.shadowMode && s'.sessions[id].status == Isolated
           && (s.sessions[id].status == Active || s.sessions[id].status == Suspicious)
           && |s'.isolations| == |s.isolations| + 1
           && var isolation := s'.isolations[|s.isolations|];
             && isolation.sessionId == id && isolation.ip == s.sessions[id].ip
             && s'.isolations == s.isolations + [isolation]
             && s'.isolating == s.isolating[id := Severing(isolation)]
             && s'.blockAttempts == if c.hasIps then s.blockAttempts + [isolation.ip] else s.blockAttempts
  {
  }

  lemma StatusKeepsLog(c: Config, s: EngineState, s': EngineState, id: SessionId)
    requires TablesKnown(s) && LogKnown(c, s) && FlightKnown(s) && id in s.sessions
    requires s'.issued == s.issued && s'.isolations == s.isolations && s'.blockAttempts == s.blockAttempts
    requires s'.isolating == s.isolating && s'.completed == s.completed
    requires s'.totalIsolated == s.totalIsolated && s'.history == s.history
    requires id in s'.sessions && s'.sessions == s.sessions[id := s'.sessions[id]]
    requires s'.sessions[id].ip == s.sessions[id].ip
    requires s'.sessions[id].status == s.sessions[id].status || s'.sessions[id].status == Released
      || (s.sessions[id].status == Active && s'.sessions[id].status == Suspicious)
    ensures LogKnown(c, s') && FlightKnown(s')
  {
    hide Once, IdsOf, IsolationsOf, Attempted, InFlight, Accounted, Recorded;
  }

  lemma ContributeKeepsScores(c: Config, s: EngineState, id: SessionId, a: Action)
    requires TablesKnown(s) && ScoresKnown(c, s) && a.Report? && id in s.sessions
    requires var t := a.readings; s.clock <= t.reported <= t.evaluated <= t.isolated <= t.scored
    ensures var s' := Contributed(c, s, id, a);
      TablesKnown(s') && ScoresKnown(c, s') && s.clock <= s'.clock
  {
    var s' := Contributed(c, s, id, a);
    ContributedSession(c, s, id, a);
    UpdateKeepsTables(s, s', id, s'.sessions[id]);
    UpdateKeepsScores(c, s, s', id, s'.sessions[id]);
  }

  lemma ContributeKeepsLog(c: Config, s: EngineState, id: SessionId, a: Action)
    requires TablesKnown(s) && LogKnown(c, s) && FlightKnown(s) && a.Report? && id in s.sessions
    ensures LogKnown(c, Contributed(c, s, id, a)) && FlightKnown(Contributed(c, s, id, a))
  {
    var s' := Contributed(c, s, id, a);
    ContributedLog(c, s, id, a);
    if s'.isolations == s.isolations {
      StatusKeepsLog(c, s, s', id);
    } else {
      var isolation := s'.isolations[|s.isolations|];
      BeginKeepsLog(c, s, s', isolation);
      BeginKeepsFlight(s, s', isolation);
    }
  }

  lemma ReleaseKeeps(c: Config, s: EngineState, ip: Ip)
    requires Invariant(c, s)
    ensures Invariant(c, ReleasedState(s, ip))
  {
    if ip in s.ipToSession {
      var (id, s') := (s.ipToSession[ip], ReleasedState(s, ip));
      UpdateKeepsTables(s, s', id, s'.sessions[id]);
      UpdateKeepsScores(c, s, s', id, s'.sessions[id]);
      StatusKeepsLog(c, s, s', id);
    }
  }

  lemma PruneKeepsTables(c: Config, s: EngineState, at: Tick)
    requires TablesKnown(s)
    ensures TablesKnown(Pruned(c, s, at))
  {
  }

  lemma PruneKeepsScores(c: Config, s: EngineState, at: Tick)
    requires ScoresKnown(c, s) && s.clock <= at
    ensures ScoresKnown(c, Pruned(c, s, at))
  {
    WaitKeepsScores(c, s.sessions, s.clock, at);
  }

  lemma PruneKeepsLog(c: Config, s: EngineState, at: Tick)
    requires LogKnown(c, s) && FlightKnown(s)
    ensures LogKnown(c, Pruned(c, s, at)) && FlightKnown(Pruned(c, s, at))
  {
  }

  lemma SeverKeeps(c: Config, s: EngineState, id: SessionId, result: string, written: bool)
    requires Invariant(c, s) && id in s.isolating
    ensures Invariant(c, Severed(s, id, result, written))
  {
    hide TablesInverse, TimesKnown, BelowThresholds, Once, StatusesMatch, Attempted, Accounted, Recorded;
    assert Severed(s, id, result, written).isolating.Keys == s.isolating.Keys;
  }

  lemma RecordKeeps(c: Config, s: EngineState, id: SessionId)
    requires Invariant(c, s) && id in s.isolating && s.isolating[id].Logging?
    ensures Invariant(c, SessionProtocol.Recorded(s, id))
  {
    hide FlightKnown, TablesInverse, TimesKnown, BelowThresholds, Once, IdsOf, StatusesMatch, Attempted, AppendLeft;
    RecordKeepsFlight(s, id);
  }

  lemma RecordKeepsFlight(s: EngineState, id: SessionId)
    requires FlightKnown(s) && id in s.isolating && s.isolating[id].Logging?
    ensures FlightKnown(SessionProtocol.Recorded(s, id))
  {
    hide Newest, AppendLeft, Once, IdsOf, IsolationsOf;
    var s' := SessionProtocol.Recorded(s, id);
    var event := s'.completed[|s.completed|];
    AppendLeftNewest(s.completed, event, HISTORY_LENGTH);
    CompletedGrows(s.completed, event);
    RecordKeepsAccounts(
      s.isolating.Keys, IdsOf(s.isolations), CompletedIds(s), |s.isolations|, |s.completed|, id);
    assert s'.isolating.Keys == s.isolating.Keys - {id};
  }

  lemma CompletedGrows(completed: seq<IsolationEvent>, event: IsolationEvent)
    requires Once(IsolationsOf(completed)) && event.isolation.sessionId !in IdsOf(IsolationsOf(completed))
    ensures var longer := IsolationsOf(completed + [event]);
      Once(longer) && IdsOf(longer) == IdsOf(IsolationsOf(completed)) + {event.isolation.sessionId}
  {
  }

  lemma RecordKeepsAccounts(
    isolating: set<SessionId>, isolated: set<SessionId>, done: set<SessionId>, begun: nat, completed: nat,
    id: SessionId)
    requires Accounted(isolating, isolated, done, begun, completed) && id in isolating
    ensures Accounted(isolating - {id}, isolated, done + {id}, begun, completed + 1)
  {
  }

  lemma ReportKeeps(c: Config, s: EngineState, a: Action)
    requires Invariant(c, s) && a.Report? && Enabled(s, a)
    ensures Reported(c, s, a).Some? && Invariant(c, Reported(c, s, a).value)
    ensures s.clock <= Reported(c, s, a).value.clock
  {
    RegisterKeeps(c, s, a.ip, a.freshId, a.readings.registered);
    var registered := Registered(s, a.ip, a.freshId, a.readings.registered);
    ContributeKeepsScores(c, registered, registered.ipToSession[a.ip], a);
    ContributeKeepsLog(c, registered, registered.ipToSession[a.ip], a);
  }

  lemma InvariantKept(c: Config, s: EngineState, a: Action)
    requires Invariant(c, s) && Enabled(s, a)
    ensures Step(c, s, a).Some? && Invariant(c, Step(c, s, a).value)
    ensures s.clock <= Step(c, s, a).value.clock
  {
    hide TablesKnown, ScoresKnown, LogKnown, FlightKnown, Registered, Reported;
    match a
    case Register(ip, freshId, at) => RegisterKeeps(c, s, ip, freshId, at);
    case Report(_, _, _, _, _, _) => ReportKeeps(c, s, a);
    case Release(ip) => ReleaseKeeps(c, s, ip);
    case Prune(at) => PruneKeeps(c, s, at);
    case BlockReturned(id, result, written) => SeverKeeps(c, s, id, result, written);
    case ForensicReturned(id) => RecordKeeps(c, s, id);
  }

  lemma PruneKeeps(c: Config, s: EngineState, at: Tick)
    requires Invariant(c, s) && s.clock <= at
    ensures Invariant(c, Pruned(c, s, at))
  {
    hide TablesKnown, ScoresKnown, LogKnown, StaleIds;
    PruneKeepsTables(c, s, at);
    PruneKeepsScores(c, s, at);
    PruneKeepsLog(c, s, at);
  }

  lemma RegisterKeeps(c: Config, s: EngineState, ip: Ip, freshId: SessionId, at: Tick)
    requires Invariant(c, s) && freshId !in s.issued && s.clock <= at
    ensures var s' := Registered(s, ip, freshId, at);
      && Invariant(c, s') && s.clock <= s'.clock <= at
      && ip in s'.ipToSession && s'.ipToSession[ip] in s'.sessions
  {
    RegisterKeepsTables(s, ip, freshId, at);
    RegisterKeepsScores(c, s, ip, freshId, at);
    RegisterKeepsLog(c, s, ip, freshId, at);
    RegisterKeepsFlight(s, ip, freshId, at);
  }

  lemma {:induction false} RunKeepsInvariant(c: Config, s: EngineState, actions: seq<Action>, s': EngineState)
    requires Invariant(c, s) && Run(c, s, actions, s')
    ensures Invariant(c, s')
    decreases |actions|
  {
    if actions == [] {
    } else {
      InvariantKept(c, s, actions[0]);
      RunKeepsInvariant(c, Step(c, s, actions[0]).value, actions[1..], s');
    }
  }

  lemma ReachableInvariant(c: Config, s: EngineState)
    requires Reachable(c, s)
    ensures Invariant(c, s)
  {
    var clock, actions :| Run(c, Start(clock), actions, s);
    assert Invariant(c, Start(clock));
    RunKeepsInvariant(c, Start(clock), actions, s);
  }

  // ----- runs that grow at their end

  lemma {:induction false} RunExtends(
    c: Config, s: EngineState, actions: seq<Action>, s': EngineState, a: Action)
    requires Run(c, s, actions, s') && Enabled(s', a) && Step(c, s', a).Some?
    ensures Run(c, s, actions + [a], Step(c, s', a).value)
    decreases |actions|
  {
    if actions == [] {
      assert [a][1..] == [];
    } else {
      RunExtends(c, Step(c, s, actions[0]).value, actions[1..], s', a);
      assert (actions + [a])[1..] == actions[1..] + [a];
    }
  }

  lemma {:induction false} RunKeepsTables(c: Config, s: EngineState, actions: seq<Action>, s': EngineState)
    requires TablesKnown(s) && Run(c, s, actions, s')
    ensures TablesKnown(s')
    decreases |actions|
  {
    if actions == [] {
    } else {
      TablesKept(c, s, actions[0]);
      RunKeepsTables(c, Step(c, s, actions[0]).value, actions[1..], s');
    }
  }

  lemma NextStep(c: Config, origin: Tick, actions: seq<Action>, s: EngineState, a: Action, s': EngineState)
    requires Run(c, Start(origin), actions, s) && Enabled(s, a) && Step(c, s, a) == Some(s')
    ensures Run(c, Start(origin), actions + [a], s')
  {
    RunExtends(c, Start(origin), actions, s, a);
  }
}
