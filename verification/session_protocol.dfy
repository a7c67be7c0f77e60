/**
 The session state machine of the isolation engine as values: one step per stretch of code between
 two awaits, so that every interleaving of its coroutines is a run of `Step`.
 */
module SessionProtocol {
  import opened Wrappers
  import opened BoundedDeque
  import opened Decay

  type Ip = string
  type SessionId = string

  const SUSPICIOUS_THRESHOLD := 40.0
  const ISOLATION_THRESHOLD := 70.0
  const SCORE_CAP := 100.0
  const HISTORY_LENGTH := 500

  datatype Status = Active | Suspicious | Isolated | Released

  datatype Contribution = Contribution(source: string, rawScore: real, contributedAt: Tick, summary: string)

  datatype Session = Session(
    ip: Ip, status: Status, createdAt: Tick, lastSeenAt: Tick, isolatedAt: Option<Tick>,
    contributions: seq<Contribution>)

  /** What `_isolate_session` remembers across its awaits. */
  datatype Isolation = Isolation(sessionId: SessionId, ip: Ip, triggerScore: real, trigger: string)

  /** Where a suspended `_isolate_session` will resume: after the block, or after the forensic log. */
  datatype Phase = Severing(isolation: Isolation) | Logging(isolation: Isolation, blockResult: string)

  datatype IsolationEvent = IsolationEvent(isolation: Isolation, blockResult: string)

  datatype BusEvent =
    | SessionSuspicious(sessionId: SessionId, ip: Ip)
    | ShadowWouldIsolate(sessionId: SessionId, ip: Ip)
    | ForensicWritten(sessionId: SessionId, ip: Ip)
    | SessionIsolated(event: IsolationEvent)
    | SessionReleased(sessionId: SessionId, ip: Ip)

  datatype Config = Config(halfLife: HalfLife, shadowMode: bool, hasIps: bool)

  /** One hour, twelve half-lives. */
  function MaxSessionAge(c: Config): Tick {
    12 * c.halfLife.ticks
  }

  /**
   The engine's fields, the coroutines it has suspended, the calls it has made to the IPS and the
   bus, and three logs that the code does not keep: the session ids ever issued, the isolations
   ever begun and the ones completed.
   */
  datatype EngineState = EngineState(
    clock: Tick,
    sessions: map<SessionId, Session>,
    ipToSession: map<Ip, SessionId>,
    totalSessions: nat, totalIsolated: nat, totalReleased: nat,
    history: seq<IsolationEvent>,
    isolating: map<SessionId, Phase>,
    blockAttempts: seq<Ip>,
    bus: seq<BusEvent>,
    issued: set<SessionId>,
    isolations: seq<Isolation>,
    completed: seq<IsolationEvent>)

  function Start(clock: Tick): EngineState {
    EngineState(clock, map[], map[], 0, 0, 0, [], map[], [], [], {}, [], [])
  }

  // ----- scores

  /** One contribution as it counts at `now`. */
  function Term(h: HalfLife, c: Contribution, now: Tick): real {
    c.rawScore * Factor(h, now - c.contributedAt)
  }

  /** The running sum of `effective_score`, before the cap. */
  function Total(h: HalfLife, cs: seq<Contribution>, now: Tick): real {
    if cs == [] then 0.0 else Total(h, cs[..|cs| - 1], now) + Term(h, cs[|cs| - 1], now)
  }

  function Effective(h: HalfLife, cs: seq<Contribution>, now: Tick): real {
    var total := Total(h, cs, now);
    if total < SCORE_CAP then total else SCORE_CAP
  }

  // ----- steps

  /**
   The clock readings of one report: on registration, on arrival, for the score, on isolation, and for
   the score that the isolation records.
   */
  datatype Readings = Readings(registered: Tick, reported: Tick, evaluated: Tick, isolated: Tick, scored: Tick)

  datatype Action =
    | Register(ip: Ip, freshId: SessionId, at: Tick)
    | Report(ip: Ip, score: real, source: string, summary: string, freshId: SessionId, readings: Readings)
    | Release(ip: Ip)
    | Prune(at: Tick)
    | BlockReturned(sessionId: SessionId, result: string, written: bool)
    | ForensicReturned(sessionId: SessionId)

  /**
   What the surroundings guarantee: the clock never goes back, `uuid4` never repeats, and only a
   suspended coroutine resumes. (Without an IPS there is no await before the forensic log; letting
   other steps in between only adds runs.)
   */
  predicate Enabled(s: EngineState, a: Action) {
    match a
    case Register(_, freshId, at) => s.clock <= at && freshId !in s.issued
    case Report(_, _, _, _, freshId, t) =>
      s.clock <= t.registered <= t.reported <= t.evaluated <= t.isolated <= t.scored && freshId !in s.issued
    case Release(_) => true
    case Prune(at) => s.clock <= at
    case BlockReturned(id, _, _) => id in s.isolating && s.isolating[id].Severing?
    case ForensicReturned(id) => id in s.isolating && s.isolating[id].Logging?
  }

  function Registered(s: EngineState, ip: Ip, freshId: SessionId, at: Tick): EngineState {
    if ip in s.ipToSession then s
    else s.(sessions := s.sessions[freshId := Session(ip, Active, at, at, None, [])],
            ipToSession := s.ipToSession[ip := freshId],
            totalSessions := s.totalSessions + 1,
            issued := s.issued + {freshId},
            clock := at)
  }

  /** `report_threat` up to its first await; None stands for the KeyError of a failed lookup. */
  function Reported(c: Config, s: EngineState, a: Action): Option<EngineState>
    requires a.Report?
  {
    var registered := Registered(s, a.ip, a.freshId, a.readings.registered);
    if a.ip !in registered.ipToSession then None
    else
      var id := registered.ipToSession[a.ip];
      if id !in registered.sessions then None else Some(Contributed(c, registered, id, a))
  }

  function WithContribution(session: Session, a: Action): Session
    requires a.Report?
  {
    session.(
      lastSeenAt := a.readings.reported,
      contributions := session.contributions
        + [Contribution(a.source, a.score, a.readings.reported, a.summary)])
  }

  function Contributed(c: Config, s: EngineState, id: SessionId, a: Action): EngineState
    requires a.Report? && id in s.sessions
  {
    var session := WithContribution(s.sessions[id], a);
    Judged(c, s.(sessions := s.sessions[id := session]), id, a,
           Effective(c.halfLife, session.contributions, a.readings.evaluated))
  }

  /** The branches of `report_threat` on the score it has computed. */
  function Judged(c: Config, s: EngineState, id: SessionId, a: Action, effective: real): EngineState
    requires a.Report? && id in s.sessions
  {
    var session := s.sessions[id];
    if effective >= ISOLATION_THRESHOLD && session.status != Isolated && session.status != Released then
      if c.shadowMode then
        s.(clock := a.readings.isolated, bus := s.bus + [ShadowWouldIsolate(id, session.ip)])
      else
        IsolationBegun(c, s, id, a)
    else if effective >= SUSPICIOUS_THRESHOLD && session.status == Active then
      s.(clock := a.readings.evaluated,
         sessions := s.sessions[id := session.(status := Suspicious)],
         bus := s.bus + [SessionSuspicious(id, a.ip)])
    else
      s.(clock := a.readings.evaluated)
  }

  /** `_isolate_session` up to the await on the IPS. */
  function IsolationBegun(c: Config, s: EngineState, id: SessionId, a: Action): EngineState
    requires a.Report? && id in s.sessions
  {
    var (session, t) := (s.sessions[id], a.readings);
    var isolation :=
      Isolation(id, session.ip, Effective(c.halfLife, session.contributions, t.scored), a.summary);
    s.(clock := t.scored,
       sessions := s.sessions[id := session.(status := Isolated, isolatedAt := Some(t.isolated))],
       blockAttempts := if c.hasIps then s.blockAttempts + [session.ip] else s.blockAttempts,
       isolating := s.isolating[id := Severing(isolation)],
       isolations := s.isolations + [isolation])
  }

  /** The age test of `_prune_stale_sessions`; like the code, it reads an `isolatedAt` of 0 as unset. */
  predicate Stale(c: Config, session: Session, now: Tick) {
    var since := if session.isolatedAt.Some? && session.isolatedAt.value != 0
                 then session.isolatedAt.value else session.createdAt;
    (session.status == Isolated || session.status == Released) && now - since > MaxSessionAge(c)
  }

  function StaleIds(c: Config, sessions: map<SessionId, Session>, at: Tick): set<SessionId> {
    set id | id in sessions && Stale(c, sessions[id], at)
  }

  function Pruned(c: Config, s: EngineState, at: Tick): EngineState {
    var stale := StaleIds(c, s.sessions, at);
    s.(clock := at,
       sessions := s.sessions - stale,
       ipToSession := s.ipToSession - set id | id in stale :: s.sessions[id].ip)
  }

  function ReleasedState(s: EngineState, ip: Ip): EngineState {
    if ip !in s.ipToSession || s.ipToSession[ip] !in s.sessions then s
    else
      var id := s.ipToSession[ip];
      s.(sessions := s.sessions[id := s.sessions[id].(status := Released)],
         totalReleased := s.totalReleased + 1,
         bus := s.bus + [SessionReleased(id, ip)])
  }

  function Severed(s: EngineState, id: SessionId, result: string, written: bool): EngineState
    requires id in s.isolating
  {
    var isolation := s.isolating[id].isolation;
    s.(isolating := s.isolating[id := Logging(isolation, result)],
       bus := if written then s.bus + [ForensicWritten(id, isolation.ip)] else s.bus)
  }

  function Recorded(s: EngineState, id: SessionId): EngineState
    requires id in s.isolating && s.isolating[id].Logging?
  {
    var event := IsolationEvent(s.isolating[id].isolation, s.isolating[id].blockResult);
    s.(isolating := s.isolating - {id},
       totalIsolated := s.totalIsolated + 1,
       history := AppendLeft(s.history, event, HISTORY_LENGTH),
       bus := s.bus + [SessionIsolated(event)],
       completed := s.completed + [event])
  }

  function Step(c: Config, s: EngineState, a: Action): Option<EngineState>
    requires Enabled(s, a)
  {
    match a
    case Register(ip, freshId, at) => Some(Registered(s, ip, freshId, at))
    case Report(_, _, _, _, _, _) => Reported(c, s, a)
    case Release(ip) => Some(ReleasedState(s, ip))
    case Prune(at) => Some(Pruned(c, s, at))
    case BlockReturned(id, result, written) => Some(Severed(s, id, result, written))
    case ForensicReturned(id) => Some(Recorded(s, id))
  }

  /** `s'` is reached from `s` by performing the actions one after the other. */
  ghost predicate Run(c: Config, s: EngineState, actions: seq<Action>, s': EngineState)
    decreases |actions|
  {
    if actions == [] then s' == s
    else
      Enabled(s, actions[0]) && Step(c, s, actions[0]).Some?
      && Run(c, Step(c, s, actions[0]).value, actions[1..], s')
  }

  ghost predicate Reachable(c: Config, s: EngineState) {
    exists clock, actions :: Run(c, Start(clock), actions, s)
  }
}
