/**
 What the steps of the isolation engine leave behind, over every run: who was released, what was
 reported about whom, and what was told to the bus.
 */
module SessionEffects {
  import opened Wrappers
  import opened BoundedDeque
  import opened Decay
  import opened SessionProtocol
  import opened SessionSafety
  import opened SessionTheorems

  // ----- releases

  /** Releasing an ip of the table releases its session and nobody else's; any other ip changes nothing. */
  lemma ReleaseReleases(c: Config, s: EngineState, ip: Ip)
    requires Reachable(c, s)
    ensures Step(c, s, Release(ip)).Some?
    ensures var s' := Step(c, s, Release(ip)).value;
      if ip !in s.ipToSession then s' == s
      else
        && s'.sessions.Keys == s.sessions.Keys && s.ipToSession[ip] in s'.sessions
        && s'.sessions[s.ipToSession[ip]] == s.sessions[s.ipToSession[ip]].(status := Released)
        && (forall id :: id in s.sessions && id != s.ipToSession[ip] ==> s'.sessions[id] == s.sessions[id])
        && s'.ipToSession == s.ipToSession && s'.isolating == s.isolating
        && s'.totalReleased == s.totalReleased + 1
        && s'.bus == s.bus + [SessionReleased(s.ipToSession[ip], ip)]
  {
    ReachableInvariant(c, s);
  }

  /** From then on the session is released in every later state that still holds it. */
  lemma ReleasedStays(c: Config, s: EngineState, ip: Ip, actions: seq<Action>, s': EngineState)
    requires Reachable(c, s) && ip in s.ipToSession
    requires Run(c, ReleasedState(s, ip), actions, s')
    ensures s.ipToSession[ip] in s'.sessions ==> s'.sessions[s.ipToSession[ip]].status == Released
  {
    ReleaseReleases(c, s, ip);
    ReachableInvariant(c, s);
    ReleaseKeeps(c, s, ip);
    StatusOnlyAdvances(c, ReleasedState(s, ip), actions, s');
  }

  /** How many actions of a run release an ip that is in the table then. */
  ghost function ReleasesDuring(c: Config, s: EngineState, actions: seq<Action>): nat
    decreases |actions|
  {
    if actions == [] || !Enabled(s, actions[0]) || Step(c, s, actions[0]).None? then 0
    else
      var a := actions[0];
      (if a.Release? && a.ip in s.ipToSession then 1 else 0)
      + ReleasesDuring(c, Step(c, s, a).value, actions[1..])
  }

  lemma ReleaseCounts(c: Config, s: EngineState, a: Action)
    requires TablesKnown(s) && Enabled(s, a) && Step(c, s, a).Some?
    ensures Step(c, s, a).value.totalReleased
      == s.totalReleased + if a.Release? && a.ip in s.ipToSession then 1 else 0
  {
    hide Total;
  }

  lemma {:induction false} ReleasesCount(c: Config, s: EngineState, actions: seq<Action>, s': EngineState)
    requires TablesKnown(s) && Run(c, s, actions, s')
    ensures s'.totalReleased == s.totalReleased + ReleasesDuring(c, s, actions)
    decreases |actions|
  {
    if actions == [] {
    } else {
      hide TablesKnown;
      TablesKept(c, s, actions[0]);
      ReleaseCounts(c, s, actions[0]);
      ReleasesCount(c, Step(c, s, actions[0]).value, actions[1..], s');
    }
  }

  lemma ReleasesCounted(c: Config, clock: Tick, actions: seq<Action>, s: EngineState)
    requires Run(c, Start(clock), actions, s)
    ensures s.totalReleased == ReleasesDuring(c, Start(clock), actions)
  {
    ReleasesCount(c, Start(clock), actions, s);
  }

  // ----- reports

  /** What the actions report about an ip, in order. */
  function ReportsAbout(ip: Ip, actions: seq<Action>): seq<Contribution> {
    if actions == [] then []
    else
      var a := actions[0];
      (if a.Report? && a.ip == ip then [Contribution(a.source, a.score, a.readings.reported, a.summary)] else [])
      + ReportsAbout(ip, actions[1..])
  }

  lemma StepContributes(c: Config, s: EngineState, a: Action, id: SessionId)
    requires TablesKnown(s) && Enabled(s, a) && Step(c, s, a).Some?
    requires id in s.sessions && id in Step(c, s, a).value.sessions
    ensures Step(c, s, a).value.sessions[id].ip == s.sessions[id].ip
    ensures Step(c, s, a).value.sessions[id].contributions
      == s.sessions[id].contributions + ReportsAbout(s.sessions[id].ip, [a])
  {
    hide Reported;
    assert [a][1..] == [];
    if a.Report? { ReportContributes(c, s, a, id); }
  }

  lemma ReportContributes(c: Config, s: EngineState, a: Action, id: SessionId)
    requires TablesKnown(s) && a.Report? && Enabled(s, a) && Reported(c, s, a).Some? && id in s.sessions
    ensures id in Reported(c, s, a).value.sessions
    ensures Reported(c, s, a).value.sessions[id].ip == s.sessions[id].ip
    ensures Reported(c, s, a).value.sessions[id].contributions == s.sessions[id].contributions
      + if a.ip == s.sessions[id].ip then [Contribution(a.source, a.score, a.readings.reported, a.summary)] else []
  {
    hide Contributed;
    RegisterKeepsTables(s, a.ip, a.freshId, a.readings.registered);
    var registered := Registered(s, a.ip, a.freshId, a.readings.registered);
    ContributedTo(c, registered, registered.ipToSession[a.ip], a, id);
  }

  lemma ContributedTo(c: Config, s: EngineState, to: SessionId, a: Action, id: SessionId)
    requires a.Report? && to in s.sessions && id in s.sessions
    ensures id in Contributed(c, s, to, a).sessions
    ensures var (before, after) := (s.sessions[id], Contributed(c, s, to, a).sessions[id]);
      && after.ip == before.ip
      && after.contributions == before.contributions
           + if id == to then [Contribution(a.source, a.score, a.readings.reported, a.summary)] else []
  {
    hide Effective;
  }

  /** A session gathers exactly the reports about its ip, for as long as it lives. */
  lemma {:induction false} ReportsGathered(
    c: Config, s: EngineState, actions: seq<Action>, s': EngineState, id: SessionId)
    requires TablesKnown(s) && Run(c, s, actions, s') && id in s.sessions && id in s'.sessions
    ensures s'.sessions[id].contributions
      == s.sessions[id].contributions + ReportsAbout(s.sessions[id].ip, actions)
    decreases |actions|
  {
    hide TablesKnown, Enabled, Step;
    if actions == [] {
    } else {
      var (a, next) := (actions[0], Step(c, s, actions[0]).value);
      TablesKept(c, s, a);
      LivesOn(c, s, a, actions[1..], s', id);
      StepContributes(c, s, a, id);
      ReportsGathered(c, next, actions[1..], s', id);
      assert [a][1..] == [];
    }
  }

  /** A session that is there at both ends of a run was there all the time. */
  lemma LivesOn(c: Config, s: EngineState, a: Action, actions: seq<Action>, s': EngineState, id: SessionId)
    requires TablesKnown(s) && Enabled(s, a) && Step(c, s, a).Some? && TablesKnown(Step(c, s, a).value)
    requires Run(c, Step(c, s, a).value, actions, s') && id in s.sessions && id in s'.sessions
    ensures id in Step(c, s, a).value.sessions
  {
    hide Step, Run, MayBecome;
    StepFollows(c, s, a);
    StatusOnlyAdvances(c, Step(c, s, a).value, actions, s');
  }

  /** The session that an action opened holds the reports of its ip since, that action's own included. */
  lemma SessionIsItsReports(c: Config, s: EngineState, a: Action, actions: seq<Action>, s': EngineState)
    requires Reachable(c, s) && Enabled(s, a) && (a.Register? || a.Report?) && a.ip !in s.ipToSession
    requires Step(c, s, a).Some? && Run(c, Step(c, s, a).value, actions, s') && a.freshId in s'.sessions
    ensures var session := s'.sessions[a.freshId];
      && session.ip == a.ip && session.contributions == ReportsAbout(a.ip, [a] + actions)
      && session.createdAt == if a.Register? then a.at else a.readings.registered
  {
    hide Run, Step, Enabled, Reachable, TablesKnown, ScoresKnown, LogKnown, FlightKnown, MayBecome;
    ReachableInvariant(c, s);
    TablesKept(c, s, a);
    var next := Step(c, s, a).value;
    Opened(c, s, a);
    StatusOnlyAdvances(c, next, actions, s');
    ReportsGathered(c, next, actions, s', a.freshId);
    assert ([a] + actions)[1..] == actions && [a][1..] == [];
  }

  lemma Opened(c: Config, s: EngineState, a: Action)
    requires TablesKnown(s) && Enabled(s, a) && (a.Register? || a.Report?) && a.ip !in s.ipToSession
    requires Step(c, s, a).Some?
    ensures a.freshId in Step(c, s, a).value.sessions && a.freshId in Step(c, s, a).value.issued
    ensures var session := Step(c, s, a).value.sessions[a.freshId];
      && session.ip == a.ip && session.contributions == ReportsAbout(a.ip, [a])
      && session.createdAt == if a.Register? then a.at else a.readings.registered
  {
    hide Effective, TablesInverse;
    assert [a][1..] == [];
  }

  /** The status of the session that a report about `ip` adds to; a new one is active. */
  function StatusOf(s: EngineState, ip: Ip): Status {
    if ip in s.ipToSession && s.ipToSession[ip] in s.sessions then s.sessions[s.ipToSession[ip]].status else Active
  }

  /** What a report leads to, by the score that the reports about its ip are worth when it is read. */
  lemma ReportDecides(c: Config, s: EngineState, a: Action)
    requires Reachable(c, s) && a.Report? && Enabled(s, a)
    ensures Step(c, s, a).Some?
    ensures var s' := Step(c, s, a).value;
      a.ip in s'.ipToSession && s'.ipToSession[a.ip] in s'.sessions
    ensures var s' := Step(c, s, a).value;
      var (id, before) := (s'.ipToSession[a.ip], StatusOf(s, a.ip));
      Decided(c, a, before, id, s'.sessions[id], s, s')
  {
    hide Contributed, Reachable, ScoresKnown, LogKnown, FlightKnown, Decided;
    ReachableInvariant(c, s);
    RegisterKeepsTables(s, a.ip, a.freshId, a.readings.registered);
    RegisteredStatus(s, a);
    var registered := Registered(s, a.ip, a.freshId, a.readings.registered);
    var id := registered.ipToSession[a.ip];
    ContributedDecides(c, registered, id, a);
    var s' := Reported(c, s, a).value;
    SameDecision(c, a, StatusOf(s, a.ip), id, s'.sessions[id], registered, s, s');
  }

  /** Isolated from 70 on, or announced in shadow mode; suspicious from 40 on; otherwise left alone. */
  ghost predicate Decided(
    c: Config, a: Action, before: Status, id: SessionId, session: Session, s: EngineState, s': EngineState)
    requires a.Report?
  {
    var score := Effective(c.halfLife, session.contributions, a.readings.evaluated);
    if score >= 70.0 && (before == Active || before == Suspicious) then
      if c.shadowMode then
        session.status == before && s'.isolations == s.isolations && s'.bus == s.bus + [ShadowWouldIsolate(id, a.ip)]
      else
        && session.status == Isolated && session.isolatedAt == Some(a.readings.isolated) && s'.bus == s.bus
        && s'.isolations == s.isolations
             + [Isolation(id, a.ip, Effective(c.halfLife, session.contributions, a.readings.scored), a.summary)]
    else
      s'.isolations == s.isolations
      && if score >= 40.0 && before == Active then
           session.status == Suspicious && s'.bus == s.bus + [SessionSuspicious(id, a.ip)]
         else
           session.status == before && s'.bus == s.bus
  }

  lemma RegisteredStatus(s: EngineState, a: Action)
    requires TablesKnown(s) && a.Report? && a.freshId !in s.issued
    ensures var r := Registered(s, a.ip, a.freshId, a.readings.registered);
      && a.ip in r.ipToSession && r.ipToSession[a.ip] in r.sessions
      && r.sessions[r.ipToSession[a.ip]].status == StatusOf(s, a.ip)
      && r.sessions[r.ipToSession[a.ip]].ip == a.ip && r.isolations == s.isolations && r.bus == s.bus
  {
  }

  lemma SameDecision(
    c: Config, a: Action, before: Status, id: SessionId, session: Session, r: EngineState, s: EngineState,
    s': EngineState)
    requires a.Report? && Decided(c, a, before, id, session, r, s')
    requires r.isolations == s.isolations && r.bus == s.bus
    ensures Decided(c, a, before, id, session, s, s')
  {
  }

  lemma ContributedDecides(c: Config, s: EngineState, id: SessionId, a: Action)
    requires a.Report? && id in s.sessions && s.sessions[id].ip == a.ip
    ensures var s' := Contributed(c, s, id, a);
      && s'.ipToSession == s.ipToSession && id in s'.sessions
      && Decided(c, a, s.sessions[id].status, id, s'.sessions[id], s, s')
  {
    hide Effective;
  }

  // ----- what the bus is told

  /** The isolations that are announced. */
  function IsolationsTold(bus: seq<BusEvent>): seq<IsolationEvent> {
    if bus == [] then []
    else
      var last := bus[|bus| - 1];
      IsolationsTold(bus[..|bus| - 1]) + if last.SessionIsolated? then [last.event] else []
  }

  function ReleasesTold(bus: seq<BusEvent>): nat {
    if bus == [] then 0
    else ReleasesTold(bus[..|bus| - 1]) + if bus[|bus| - 1].SessionReleased? then 1 else 0
  }

  /** How often a session is announced as suspicious. */
  function SuspicionsTold(bus: seq<BusEvent>, id: SessionId): nat {
    if bus == [] then 0
    else
      var last := bus[|bus| - 1];
      SuspicionsTold(bus[..|bus| - 1], id) + if last.SessionSuspicious? && last.sessionId == id then 1 else 0
  }

  ghost predicate Told(s: EngineState) {
    IsolationsTold(s.bus) == s.completed && ReleasesTold(s.bus) == s.totalReleased
  }

  lemma NextTold(bus: seq<BusEvent>, e: BusEvent, id: SessionId)
    ensures IsolationsTold(bus + [e]) == IsolationsTold(bus) + if e.SessionIsolated? then [e.event] else []
    ensures ReleasesTold(bus + [e]) == ReleasesTold(bus) + if e.SessionReleased? then 1 else 0
    ensures SuspicionsTold(bus + [e], id)
      == SuspicionsTold(bus, id) + if e.SessionSuspicious? && e.sessionId == id then 1 else 0
  {
    assert (bus + [e])[..|bus|] == bus;
  }

  lemma ReportTells(c: Config, s: EngineState, a: Action) returns (told: seq<BusEvent>)
    requires a.Report? && Reported(c, s, a).Some?
    ensures var s' := Reported(c, s, a).value;
      && s'.bus == s.bus + told && |told| <= 1 && s'.completed == s.completed && s'.totalReleased == s.totalReleased
    ensures told != [] ==> !told[0].SessionIsolated? && !told[0].SessionReleased?
  {
    hide Effective;
    told := Reported(c, s, a).value.bus[|s.bus|..];
  }

  /** What one step says: nothing, or one message. */
  lemma StepTells(c: Config, s: EngineState, a: Action) returns (told: seq<BusEvent>)
    requires Enabled(s, a) && Step(c, s, a).Some?
    ensures Step(c, s, a).value.bus == s.bus + told && |told| <= 1
    ensures var s' := Step(c, s, a).value;
      && s'.completed == s.completed + (if told != [] && told[0].SessionIsolated? then [told[0].event] else [])
      && s'.totalReleased == s.totalReleased + if told != [] && told[0].SessionReleased? then 1 else 0
  {
    hide Reported;
    if a.Report? {
      told := ReportTells(c, s, a);
    } else {
      told := Step(c, s, a).value.bus[|s.bus|..];
    }
  }

  lemma {:induction false} RunKeepsTold(c: Config, s: EngineState, actions: seq<Action>, s': EngineState)
    requires Told(s) && Run(c, s, actions, s')
    ensures Told(s')
    decreases |actions|
  {
    hide IsolationsTold, ReleasesTold, Enabled, Step;
    if actions == [] {
    } else {
      var told := StepTells(c, s, actions[0]);
      if told == [] { assert s.bus + told == s.bus; } else { NextTold(s.bus, told[0], ""); assert told == [told[0]]; }
      RunKeepsTold(c, Step(c, s, actions[0]).value, actions[1..], s');
    }
  }

  /** The IPS answered an isolation with this result. */
  ghost predicate Answered(actions: seq<Action>, id: SessionId, result: string) {
    exists written :: BlockReturned(id, result, written) in actions
  }

  /** The results on record are the answers; no session is answered twice. */
  ghost predicate Sourced(
    actions: seq<Action>, completed: seq<IsolationEvent>, isolating: map<SessionId, Phase>, isolations: seq<Isolation>)
  {
    && (forall e :: e in completed ==> e.isolation in isolations)
    && (forall e :: e in completed ==> Answered(actions, e.isolation.sessionId, e.blockResult))
    && (forall id :: id in isolating && isolating[id].Logging? ==> Answered(actions, id, isolating[id].blockResult))
    && (forall id, result :: Answered(actions, id, result) ==>
         id in IdsOf(isolations) && !(id in isolating && isolating[id].Severing?))
    && AnsweredOnce(actions)
  }

  ghost predicate AnsweredOnce(actions: seq<Action>) {
    forall id, a, b :: Answered(actions, id, a) && Answered(actions, id, b) ==> a == b
  }

  lemma NextAnswered(actions: seq<Action>, a: Action, id: SessionId, result: string)
    ensures Answered(actions + [a], id, result)
      <==> Answered(actions, id, result) || (a.BlockReturned? && a.sessionId == id && a.result == result)
  {
    if a.BlockReturned? && a.sessionId == id && a.result == result {
      assert BlockReturned(id, result, a.written) in actions + [a];
    }
    forall written | BlockReturned(id, result, written) in actions
      ensures BlockReturned(id, result, written) in actions + [a]
    {
    }
  }

  /** An action that answers nothing. */
  lemma OtherAnswers(actions: seq<Action>, a: Action)
    requires !a.BlockReturned?
    ensures forall id, result :: Answered(actions + [a], id, result) <==> Answered(actions, id, result)
  {
    hide Answered;
    forall id, result ensures Answered(actions + [a], id, result) <==> Answered(actions, id, result) {
      NextAnswered(actions, a, id, result);
    }
  }

  lemma BeginKeepsSourced(
    actions: seq<Action>, a: Action, completed: seq<IsolationEvent>, isolating: map<SessionId, Phase>,
    isolations: seq<Isolation>, isolation: Isolation)
    requires Sourced(actions, completed, isolating, isolations) && !a.BlockReturned?
    requires Once(isolations) && isolation.sessionId !in IdsOf(isolations)
    ensures Sourced(actions + [a], completed, isolating[isolation.sessionId := Severing(isolation)],
                    isolations + [isolation])
  {
    hide Answered, IdsOf, Once, IpsOf;
    OtherAnswers(actions, a);
    LogGrows(isolations, isolation);
  }

  lemma SeverKeepsSourced(
    actions: seq<Action>, a: Action, completed: seq<IsolationEvent>, isolating: map<SessionId, Phase>,
    isolations: seq<Isolation>)
    requires Sourced(actions, completed, isolating, isolations) && InFlight(isolating, isolations)
    requires a.BlockReturned? && a.sessionId in isolating && isolating[a.sessionId].Severing?
    requires a.sessionId in IdsOf(isolations)
    ensures Sourced(actions + [a], completed,
                    isolating[a.sessionId := Logging(isolating[a.sessionId].isolation, a.result)], isolations)
  {
    hide Answered, IdsOf, InFlight;
    forall id, result
      ensures Answered(actions + [a], id, result)
        <==> Answered(actions, id, result) || (a.sessionId == id && a.result == result)
    {
      NextAnswered(actions, a, id, result);
    }
  }

  lemma RecordKeepsSourced(
    actions: seq<Action>, a: Action, completed: seq<IsolationEvent>, isolating: map<SessionId, Phase>,
    isolations: seq<Isolation>, id: SessionId)
    requires Sourced(actions, completed, isolating, isolations) && InFlight(isolating, isolations)
    requires !a.BlockReturned? && id in isolating && isolating[id].Logging?
    ensures Sourced(actions + [a],
                    completed + [IsolationEvent(isolating[id].isolation, isolating[id].blockResult)],
                    isolating - {id}, isolations)
  {
    hide Answered, IdsOf;
    OtherAnswers(actions, a);
  }

  lemma QuietKeepsSourced(
    actions: seq<Action>, a: Action, completed: seq<IsolationEvent>, isolating: map<SessionId, Phase>,
    isolations: seq<Isolation>)
    requires Sourced(actions, completed, isolating, isolations) && !a.BlockReturned?
    ensures Sourced(actions + [a], completed, isolating, isolations)
  {
    hide Answered, IdsOf;
    OtherAnswers(actions, a);
  }

  lemma ReportKeepsSourced(c: Config, s: EngineState, actions: seq<Action>, a: Action)
    requires Sourced(actions, s.completed, s.isolating, s.isolations) && Invariant(c, s)
    requires a.Report? && Enabled(s, a) && Reported(c, s, a).Some?
    ensures var s' := Reported(c, s, a).value; Sourced(actions + [a], s'.completed, s'.isolating, s'.isolations)
  {
    hide Contributed, Sourced, Once, IdsOf, TablesKnown, ScoresKnown, FlightKnown, Attempted, OwnIps;
    RegisterKeeps(c, s, a.ip, a.freshId, a.readings.registered);
    var registered := Registered(s, a.ip, a.freshId, a.readings.registered);
    var s' := Reported(c, s, a).value;
    ContributedLog(c, registered, registered.ipToSession[a.ip], a);
    if s'.isolations == registered.isolations {
      QuietKeepsSourced(actions, a, s.completed, s.isolating, s.isolations);
    } else {
      BeginKeepsSourced(actions, a, s.completed, s.isolating, s.isolations, s'.isolations[|s.isolations|]);
    }
  }

  lemma StepKeepsSourced(c: Config, s: EngineState, actions: seq<Action>, a: Action)
    requires Sourced(actions, s.completed, s.isolating, s.isolations) && Invariant(c, s)
    requires Enabled(s, a) && Step(c, s, a).Some?
    ensures var s' := Step(c, s, a).value; Sourced(actions + [a], s'.completed, s'.isolating, s'.isolations)
  {
    hide Sourced, Reported, TablesKnown, ScoresKnown, LogKnown, Once, IdsOf, InFlight;
    if a.Report? {
      ReportKeepsSourced(c, s, actions, a);
    } else if a.BlockReturned? {
      SeverKeepsSourced(actions, a, s.completed, s.isolating, s.isolations);
    } else if a.ForensicReturned? {
      RecordKeepsSourced(actions, a, s.completed, s.isolating, s.isolations, a.sessionId);
    } else {
      QuietKeepsSourced(actions, a, s.completed, s.isolating, s.isolations);
    }
  }

  lemma {:induction false} RunKeepsSourced(
    c: Config, s: EngineState, done: seq<Action>, actions: seq<Action>, s': EngineState)
    requires Sourced(done, s.completed, s.isolating, s.isolations) && Invariant(c, s) && Run(c, s, actions, s')
    ensures Sourced(done + actions, s'.completed, s'.isolating, s'.isolations)
    decreases |actions|
  {
    hide Sourced, Invariant, Enabled, Step;
    if actions == [] {
      assert done + actions == done;
    } else {
      InvariantKept(c, s, actions[0]);
      StepKeepsSourced(c, s, done, actions[0]);
      RunKeepsSourced(c, Step(c, s, actions[0]).value, done + [actions[0]], actions[1..], s');
      assert done + [actions[0]] + actions[1..] == done + actions;
    }
  }

  /**
   The bus and the history tell exactly the isolations completed, each begun before and with the one
   result that the IPS gave for its session, and each release once.
   */
  lemma EventsAreTold(c: Config, clock: Tick, actions: seq<Action>, s: EngineState)
    requires Run(c, Start(clock), actions, s)
    ensures IsolationsTold(s.bus) == s.completed && ReleasesTold(s.bus) == s.totalReleased
    ensures s.totalIsolated == |s.completed| && s.history == Newest(s.completed, 500)
    ensures forall e :: e in s.completed ==>
      e.isolation in s.isolations && Answered(actions, e.isolation.sessionId, e.blockResult)
    ensures AnsweredOnce(actions)
  {
    hide Answered, Run, Once, TablesKnown, ScoresKnown, LogKnown, Newest;
    RunKeepsTold(c, Start(clock), actions, s);
    StartKeeps(c, clock);
    RunKeepsInvariant(c, Start(clock), actions, s);
    RunKeepsSourced(c, Start(clock), [], actions, s);
    assert [] + actions == actions;
  }

  lemma StartKeeps(c: Config, clock: Tick)
    ensures var s := Start(clock); Invariant(c, s) && Sourced([], s.completed, s.isolating, s.isolations)
  {
  }

  // ----- suspicions

  /** Each session is announced at most once, and any that is suspicious has been. */
  ghost predicate Warned(s: EngineState, id: SessionId) {
    var told := SuspicionsTold(s.bus, id);
    && (told == 0 || (told == 1 && id in s.issued && (id in s.sessions ==> s.sessions[id].status != Active)))
    && (id in s.sessions && s.sessions[id].status == Suspicious ==> told == 1)
  }

  lemma RegisterKeepsWarned(s: EngineState, ip: Ip, freshId: SessionId, at: Tick, id: SessionId)
    requires Warned(s, id) && freshId !in s.issued
    ensures Warned(Registered(s, ip, freshId, at), id)
  {
  }

  lemma ContributedKeepsWarned(c: Config, s: EngineState, to: SessionId, a: Action, id: SessionId)
    requires Warned(s, id) && a.Report? && to in s.sessions && to in s.issued && s.sessions[to].ip == a.ip
    ensures Warned(Contributed(c, s, to, a), id)
  {
    hide Effective, SuspicionsTold;
    forall e ensures SuspicionsTold(s.bus + [e], id)
      == SuspicionsTold(s.bus, id) + if e.SessionSuspicious? && e.sessionId == id then 1 else 0
    {
      NextTold(s.bus, e, id);
    }
  }

  lemma StepKeepsWarned(c: Config, s: EngineState, a: Action, id: SessionId)
    requires Warned(s, id) && TablesKnown(s) && Enabled(s, a) && Step(c, s, a).Some?
    ensures Warned(Step(c, s, a).value, id)
  {
    hide Contributed, SuspicionsTold;
    if a.Report? {
      RegisterKeepsTables(s, a.ip, a.freshId, a.readings.registered);
      RegisterKeepsWarned(s, a.ip, a.freshId, a.readings.registered, id);
      var registered := Registered(s, a.ip, a.freshId, a.readings.registered);
      ContributedKeepsWarned(c, registered, registered.ipToSession[a.ip], a, id);
    } else {
      var told := StepTells(c, s, a);
      if told == [] { assert s.bus + told == s.bus; } else { NextTold(s.bus, told[0], id); assert told == [told[0]]; }
    }
  }

  lemma {:induction false} RunKeepsWarned(
    c: Config, s: EngineState, actions: seq<Action>, s': EngineState, id: SessionId)
    requires Warned(s, id) && TablesKnown(s) && Run(c, s, actions, s')
    ensures Warned(s', id)
    decreases |actions|
  {
    hide Warned, TablesKnown, Enabled, Step;
    if actions == [] {
    } else {
      TablesKept(c, s, actions[0]);
      StepKeepsWarned(c, s, actions[0], id);
      RunKeepsWarned(c, Step(c, s, actions[0]).value, actions[1..], s', id);
    }
  }

  /** No session is announced as suspicious twice, and one that is suspicious was announced. */
  lemma SuspicionToldOnce(c: Config, clock: Tick, actions: seq<Action>, s: EngineState, id: SessionId)
    requires Run(c, Start(clock), actions, s)
    ensures SuspicionsTold(s.bus, id) <= 1
    ensures id in s.sessions && s.sessions[id].status == Suspicious ==> SuspicionsTold(s.bus, id) == 1
    ensures id in s.sessions && s.sessions[id].status == Active ==> SuspicionsTold(s.bus, id) == 0
  {
    RunKeepsWarned(c, Start(clock), actions, s, id);
  }

  // ----- forensic logs

  /** The sessions whose forensic log is announced as written. */
  function ForensicsTold(bus: seq<BusEvent>): seq<SessionId> {
    if bus == [] then []
    else
      var last := bus[|bus| - 1];
      ForensicsTold(bus[..|bus| - 1]) + if last.ForensicWritten? then [last.sessionId] else []
  }

  function WrittenIn(actions: seq<Action>): seq<SessionId> {
    if actions == [] then []
    else
      var a := actions[0];
      (if a.BlockReturned? && a.written then [a.sessionId] else []) + WrittenIn(actions[1..])
  }

  lemma NextForensics(bus: seq<BusEvent>, e: BusEvent)
    ensures ForensicsTold(bus + [e]) == ForensicsTold(bus) + if e.ForensicWritten? then [e.sessionId] else []
  {
    assert (bus + [e])[..|bus|] == bus;
  }

  lemma StepTellsForensics(c: Config, s: EngineState, a: Action)
    requires Enabled(s, a) && Step(c, s, a).Some?
    ensures ForensicsTold(Step(c, s, a).value.bus) == ForensicsTold(s.bus) + WrittenIn([a])
  {
    hide Effective, ForensicsTold;
    assert ForensicsTold(s.bus) + [] == ForensicsTold(s.bus) && [a][1..] == [];
    forall e ensures ForensicsTold(s.bus + [e])
      == ForensicsTold(s.bus) + if e.ForensicWritten? then [e.sessionId] else []
    {
      NextForensics(s.bus, e);
    }
  }

  /** Over any run, each forensic log that was written is announced once, in order. */
  lemma {:induction false} ForensicsAreTold(c: Config, s: EngineState, actions: seq<Action>, s': EngineState)
    requires Run(c, s, actions, s')
    ensures ForensicsTold(s'.bus) == ForensicsTold(s.bus) + WrittenIn(actions)
    decreases |actions|
  {
    hide ForensicsTold, Enabled, Step;
    if actions == [] {
      assert ForensicsTold(s.bus) + [] == ForensicsTold(s.bus);
    } else {
      var (now, first, rest) := (ForensicsTold(s.bus), WrittenIn([actions[0]]), WrittenIn(actions[1..]));
      StepTellsForensics(c, s, actions[0]);
      ForensicsAreTold(c, Step(c, s, actions[0]).value, actions[1..], s');
      assert [actions[0]][1..] == [] && WrittenIn(actions) == first + rest;
      assert now + first + rest == now + (first + rest);
    }
  }

  // ----- when a session was last seen

  /** Seen last at its last report, or when it was registered. */
  ghost predicate SeenLast(session: Session) {
    session.lastSeenAt
    == if session.contributions == [] then session.createdAt
       else session.contributions[|session.contributions| - 1].contributedAt
  }

  ghost predicate AllSeenLast(s: EngineState) {
    forall id :: id in s.sessions ==> SeenLast(s.sessions[id])
  }

  lemma StepKeepsSeen(c: Config, s: EngineState, a: Action)
    requires AllSeenLast(s) && Enabled(s, a) && Step(c, s, a).Some?
    ensures AllSeenLast(Step(c, s, a).value)
  {
    hide Reported;
    if a.Report? { ReportKeepsSeen(c, s, a); }
  }

  lemma ReportKeepsSeen(c: Config, s: EngineState, a: Action)
    requires AllSeenLast(s) && a.Report? && Reported(c, s, a).Some?
    ensures AllSeenLast(Reported(c, s, a).value)
  {
    hide Contributed, SeenLast;
    var registered := Registered(s, a.ip, a.freshId, a.readings.registered);
    RegisterKeepsSeen(s, a);
    ContributedKeepsSeen(c, registered, registered.ipToSession[a.ip], a);
  }

  lemma RegisterKeepsSeen(s: EngineState, a: Action)
    requires AllSeenLast(s) && a.Report?
    ensures AllSeenLast(Registered(s, a.ip, a.freshId, a.readings.registered))
  {
  }

  lemma ContributedKeepsSeen(c: Config, s: EngineState, id: SessionId, a: Action)
    requires AllSeenLast(s) && a.Report? && id in s.sessions
    ensures AllSeenLast(Contributed(c, s, id, a))
  {
    hide Effective;
  }

  lemma {:induction false} RunKeepsSeen(c: Config, s: EngineState, actions: seq<Action>, s': EngineState)
    requires AllSeenLast(s) && Run(c, s, actions, s')
    ensures AllSeenLast(s')
    decreases |actions|
  {
    hide AllSeenLast, Enabled, Step;
    if actions == [] {
    } else {
      StepKeepsSeen(c, s, actions[0]);
      RunKeepsSeen(c, Step(c, s, actions[0]).value, actions[1..], s');
    }
  }

  lemma LastSeenIsLastReport(c: Config, s: EngineState, id: SessionId)
    requires Reachable(c, s) && id in s.sessions
    ensures var (session, cs) := (s.sessions[id], s.sessions[id].contributions);
      session.lastSeenAt == if cs == [] then session.createdAt else cs[|cs| - 1].contributedAt
  {
    hide Step, Enabled;
    var clock, actions :| Run(c, Start(clock), actions, s);
    RunKeepsSeen(c, Start(clock), actions, s);
    assert SeenLast(s.sessions[id]);
  }
}
