/**
 `IsolationSandboxEngine`: records and tables updated in place. A method that awaits stops there;
 `AfterBlock` and `AfterForensicLog` are the two places where a suspended `_isolate_session` goes on.
 */
module IsolationSandbox {
  import opened Wrappers
  import opened BoundedDeque
  import opened Decay
  import opened SessionProtocol
  import opened SessionSafety

  class SessionRecord {
    const sourceIp: Ip
    const createdAt: Tick
    var status: Status
    var lastSeenAt: Tick
    var isolatedAt: Option<Tick>
    var contributions: seq<Contribution>

    constructor (sourceIp: Ip, now: Tick)
      ensures Value() == Session(sourceIp, Active, now, now, None, [])
    {
      this.sourceIp, createdAt, lastSeenAt := sourceIp, now, now;
      status, isolatedAt, contributions := Active, None, [];
    }

    function Value(): Session
      reads this
    {
      Session(sourceIp, status, createdAt, lastSeenAt, isolatedAt, contributions)
    }

    method EffectiveScore(h: HalfLife, now: Tick) returns (score: real)
      ensures score == Effective(h, contributions, now)
    {
      var total := 0.0;
      for i := 0 to |contributions|
        invariant total == Total(h, contributions[..i], now)
      {
        var c := contributions[i];
        assert contributions[..i + 1][..i] == contributions[..i];
        total := total + c.rawScore * Factor(h, now - c.contributedAt);
      }
      assert contributions[..|contributions|] == contributions;
      score := if total < SCORE_CAP then total else SCORE_CAP;
    }
  }

  class IsolationSandboxEngine {
    const config: Config
    var sessions: map<SessionId, SessionRecord>
    var ipToSession: map<Ip, SessionId>
    var isolationHistory: seq<IsolationEvent>
    var totalSessions: nat
    var totalIsolated: nat
    var totalReleased: nat
    // the coroutines suspended inside _isolate_session, and the calls made so far
    var isolating: map<SessionId, Phase>
    var blockAttempts: seq<Ip>
    var bus: seq<BusEvent>
    // logs the code does not keep
    ghost var clock: Tick
    ghost var issued: set<SessionId>
    ghost var isolations: seq<Isolation>
    ghost var completed: seq<IsolationEvent>
    // the run that led here
    ghost const origin: Tick
    ghost var actions: seq<Action>

    /** The session table by value. */
    ghost function Table(): Sessions
      reads this`sessions, sessions.Values
    {
      map id | id in sessions :: sessions[id].Value()
    }

    ghost function State(): EngineState
      reads this, sessions.Values
    {
      EngineState(
        clock, Table(), ipToSession,
        totalSessions, totalIsolated, totalReleased, isolationHistory, isolating, blockAttempts, bus,
        issued, isolations, completed)
    }

    ghost predicate OwnRecords()
      reads this`sessions
    {
      forall a, b :: a in sessions && b in sessions && a != b ==> sessions[a] != sessions[b]
    }

    ghost predicate Valid()
      reads this, sessions.Values
    {
      OwnRecords() && Run(config, Start(origin), actions, State())
    }

    twostate lemma OneRecordChanged(id: SessionId)
      requires OwnRecords() && sessions == old(sessions) && id in sessions
      requires forall other :: other in sessions && other != id ==> unchanged(sessions[other])
      ensures Table() == old(Table())[id := sessions[id].Value()]
    {
    }

    twostate lemma OneRecordAdded(id: SessionId, new record: SessionRecord)
      requires id !in old(sessions) && sessions == old(sessions)[id := record]
      requires forall other :: other in old(sessions) ==> unchanged(old(sessions)[other])
      ensures Table() == old(Table())[id := record.Value()]
    {
    }

    /** So every promise about reachable states holds of every engine object. */
    lemma ValidIsReachable()
      requires Valid()
      ensures Reachable(config, State())
    {
    }

    lemma Tables(ip: Ip)
      requires Valid()
      ensures sessions.Keys <= issued && (ip in ipToSession ==> ipToSession[ip] in sessions)
    {
      RunKeepsTables(config, Start(origin), actions, State());
    }

    constructor (config: Config, ghost now: Tick)
      ensures Valid() && this.config == config && State() == Start(now)
    {
      this.config := config;
      sessions, ipToSession, isolationHistory := map[], map[], [];
      totalSessions, totalIsolated, totalReleased := 0, 0, 0;
      isolating, blockAttempts, bus := map[], [], [];
      clock, issued, isolations, completed := now, {}, [], [];
      origin, actions := now, [];
    }

    method RegisterSession(ip: Ip, freshId: SessionId, now: Tick) returns (id: SessionId)
      requires Valid() && Enabled(State(), Register(ip, freshId, now))
      modifies this
      ensures Valid() && fresh(sessions.Values - old(sessions.Values))
      ensures Step(config, old(State()), Register(ip, freshId, now)) == Some(State())
      ensures actions == old(actions) + [Register(ip, freshId, now)]
      ensures ip in ipToSession && id == ipToSession[ip] && id in sessions
    {
      Tables(ip);
      id := FindOrCreate(ip, freshId, now);
      actions := actions + [Register(ip, freshId, now)];
      NextStep(config, origin, old(actions), old(State()), Register(ip, freshId, now), State());
    }

    method FindOrCreate(ip: Ip, freshId: SessionId, now: Tick) returns (id: SessionId)
      requires OwnRecords() && freshId !in sessions && (ip in ipToSession ==> ipToSession[ip] in sessions)
      modifies this`sessions, this`ipToSession, this`totalSessions, this`issued, this`clock
      ensures OwnRecords() && fresh(sessions.Values - old(sessions.Values))
      ensures State() == Registered(old(State()), ip, freshId, now)
      ensures ip in ipToSession && id == ipToSession[ip] && id in sessions
    {
      if ip in ipToSession {
        id := ipToSession[ip];
      } else {
        Create(ip, freshId, now);
        id := freshId;
      }
    }

    method Create(ip: Ip, freshId: SessionId, now: Tick)
      requires OwnRecords() && freshId !in sessions && ip !in ipToSession
      modifies this`sessions, this`ipToSession, this`totalSessions, this`issued, this`clock
      ensures OwnRecords() && fresh(sessions.Values - old(sessions.Values)) && freshId in sessions
      ensures Table() == old(Table())[freshId := Session(ip, Active, now, now, None, [])]
      ensures ipToSession == old(ipToSession)[ip := freshId] && totalSessions == old(totalSessions) + 1
      ensures issued == old(issued) + {freshId} && clock == now
    {
      var record := new SessionRecord(ip, now);
      sessions := sessions[freshId := record];
      OneRecordAdded(freshId, record);
      ipToSession := ipToSession[ip := freshId];
      totalSessions := totalSessions + 1;
      issued, clock := issued + {freshId}, now;
    }

    method ReportThreat(
      ip: Ip, score: real, source: string, summary: string, freshId: SessionId, t: Readings)
      requires Valid() && Enabled(State(), Report(ip, score, source, summary, freshId, t))
      modifies this, sessions.Values
      ensures Valid() && fresh(sessions.Values - old(sessions.Values))
      ensures Step(config, old(State()), Report(ip, score, source, summary, freshId, t)) == Some(State())
      ensures actions == old(actions) + [Report(ip, score, source, summary, freshId, t)]
    {
      var a := Report(ip, score, source, summary, freshId, t);
      hide Contributed, Run;
      Tables(ip);
      var id := FindOrCreate(ip, freshId, t.registered);
      Contribute(id, a);
      actions := actions + [a];
      NextStep(config, origin, old(actions), old(State()), a, State());
    }

    /** The body of `report_threat` after the lookup. */
    method Contribute(id: SessionId, a: Action)
      requires OwnRecords() && id in sessions && a.Report?
      modifies this`clock, this`bus, this`isolating, this`blockAttempts, this`isolations, sessions[id]
      ensures State() == Contributed(config, old(State()), id, a)
    {
      hide Judged, Total, Factor;
      var record := sessions[id];
      record.lastSeenAt := a.readings.reported;
      record.contributions := record.contributions + [Contribution(a.source, a.score, a.readings.reported, a.summary)];
      OneRecordChanged(id);
      var effective := record.EffectiveScore(config.halfLife, a.readings.evaluated);
      Judge(id, a, effective);
    }

    method Judge(id: SessionId, a: Action, effective: real)
      requires OwnRecords() && id in sessions && a.Report?
      modifies this`clock, this`bus, this`isolating, this`blockAttempts, this`isolations, sessions[id]
      ensures State() == Judged(config, old(State()), id, a, effective)
    {
      hide IsolationBegun, Effective;
      var record := sessions[id];
      if effective >= ISOLATION_THRESHOLD && record.status != Isolated && record.status != Released {
        Enforce(id, a);
      } else {
        clock := a.readings.evaluated;
        if effective >= SUSPICIOUS_THRESHOLD && record.status == Active {
          Suspect(id, a.ip);
        }
      }
    }

    /** What a score of 40 leads to. */
    method Suspect(id: SessionId, ip: Ip)
      requires OwnRecords() && id in sessions
      modifies this`bus, sessions[id]
      ensures State() == old(State()).(
          sessions := old(Table())[id := old(Table())[id].(status := Suspicious)],
          bus := old(bus) + [SessionSuspicious(id, ip)])
    {
      MarkSuspicious(id);
      bus := bus + [SessionSuspicious(id, ip)];
    }

    /** What a score of 70 leads to, in shadow mode or not. */
    method Enforce(id: SessionId, a: Action)
      requires OwnRecords() && id in sessions && a.Report?
      modifies this`clock, this`bus, this`isolating, this`blockAttempts, this`isolations, sessions[id]
      ensures State() ==
        if config.shadowMode then
          old(State()).(
            clock := a.readings.isolated,
            bus := old(bus) + [ShadowWouldIsolate(id, old(sessions[id].sourceIp))])
        else IsolationBegun(config, old(State()), id, a)
    {
      hide IsolationBegun;
      if config.shadowMode {
        clock := a.readings.isolated;
        bus := bus + [ShadowWouldIsolate(id, sessions[id].sourceIp)];
      } else {
        IsolateSession(id, a);
      }
    }

    /** `_isolate_session` up to the await on the IPS: the status is set first. */
    method IsolateSession(id: SessionId, a: Action)
      requires OwnRecords() && id in sessions && a.Report?
      modifies sessions[id], this`clock, this`isolating, this`blockAttempts, this`isolations
      ensures State() == IsolationBegun(config, old(State()), id, a)
    {
      hide Effective, Total, Factor;
      ghost var before := State();
      MarkIsolated(id, a.readings.isolated);
      ghost var isolated := before.(
        sessions := before.sessions[
          id := before.sessions[id].(status := Isolated, isolatedAt := Some(a.readings.isolated))]);
      assert State() == isolated;
      var effective := sessions[id].EffectiveScore(config.halfLife, a.readings.scored);
      clock := a.readings.scored;
      assert State() == isolated.(clock := a.readings.scored);
      SeverConnection(Isolation(id, sessions[id].sourceIp, effective, a.summary));
    }

    method MarkSuspicious(id: SessionId)
      requires OwnRecords() && id in sessions
      modifies sessions[id]
      ensures Table() == old(Table())[id := old(Table())[id].(status := Suspicious)]
    {
      sessions[id].status := Suspicious;
      OneRecordChanged(id);
    }

    method MarkIsolated(id: SessionId, now: Tick)
      requires OwnRecords() && id in sessions
      modifies sessions[id]
      ensures sessions[id].Value() == old(sessions[id].Value()).(status := Isolated, isolatedAt := Some(now))
      ensures Table() == old(Table())[id := sessions[id].Value()]
    {
      sessions[id].status := Isolated;
      sessions[id].isolatedAt := Some(now);
      OneRecordChanged(id);
    }

    /** `_sever_connection` up to its await, where the coroutine is left suspended. */
    method SeverConnection(isolation: Isolation)
      modifies this`blockAttempts, this`isolating, this`isolations
      ensures State() == old(State()).(
          blockAttempts := if config.hasIps then old(blockAttempts) + [isolation.ip] else old(blockAttempts),
          isolating := old(isolating)[isolation.sessionId := Severing(isolation)],
          isolations := old(isolations) + [isolation])
    {
      if config.hasIps {
        blockAttempts := blockAttempts + [isolation.ip];
      }
      isolating := isolating[isolation.sessionId := Severing(isolation)];
      isolations := isolations + [isolation];
    }

    method AfterBlock(id: SessionId, result: string, written: bool)
      requires Valid() && Enabled(State(), BlockReturned(id, result, written))
      modifies this`isolating, this`bus, this`actions
      ensures Valid()
      ensures Step(config, old(State()), BlockReturned(id, result, written)) == Some(State())
      ensures actions == old(actions) + [BlockReturned(id, result, written)]
    {
      var isolation := isolating[id].isolation;
      isolating := isolating[id := Logging(isolation, result)];
      if written {
        bus := bus + [ForensicWritten(id, isolation.ip)];
      }
      actions := actions + [BlockReturned(id, result, written)];
      NextStep(config, origin, old(actions), old(State()), BlockReturned(id, result, written), State());
    }

    method AfterForensicLog(id: SessionId)
      requires Valid() && Enabled(State(), ForensicReturned(id))
      modifies this`isolating, this`bus, this`totalIsolated, this`isolationHistory, this`completed, this`actions
      ensures Valid()
      ensures Step(config, old(State()), ForensicReturned(id)) == Some(State())
      ensures actions == old(actions) + [ForensicReturned(id)]
    {
      RecordIsolation(id);
      actions := actions + [ForensicReturned(id)];
      NextStep(config, origin, old(actions), old(State()), ForensicReturned(id), State());
    }

    /** The end of `_isolate_session`: counter, history and event. */
    method RecordIsolation(id: SessionId)
      requires id in isolating && isolating[id].Logging?
      modifies this`isolating, this`bus, this`totalIsolated, this`isolationHistory, this`completed
      ensures State() == SessionProtocol.Recorded(old(State()), id)
    {
      var event := IsolationEvent(isolating[id].isolation, isolating[id].blockResult);
      totalIsolated := totalIsolated + 1;
      isolationHistory := AppendLeft(isolationHistory, event, HISTORY_LENGTH);
      bus := bus + [SessionIsolated(event)];
      isolating := isolating - {id};
      completed := completed + [event];
    }

    method ReleaseSession(ip: Ip) returns (released: bool)
      requires Valid()
      modifies this`totalReleased, this`bus, this`actions, sessions.Values
      ensures Valid()
      ensures Step(config, old(State()), Release(ip)) == Some(State())
      ensures actions == old(actions) + [Release(ip)]
      ensures released <==> ip in ipToSession
      ensures released ==> ipToSession[ip] in sessions && sessions[ipToSession[ip]].status == Released
    {
      Tables(ip);
      released := MarkReleased(ip);
      actions := actions + [Release(ip)];
      NextStep(config, origin, old(actions), old(State()), Release(ip), State());
    }

    method MarkReleased(ip: Ip) returns (released: bool)
      requires OwnRecords()
      modifies this`totalReleased, this`bus, sessions.Values
      ensures State() == ReleasedState(old(State()), ip)
      ensures released <==> ip in ipToSession && ipToSession[ip] in sessions
      ensures released ==> sessions[ipToSession[ip]].status == Released
    {
      if ip !in ipToSession || ipToSession[ip] !in sessions {
        return false;
      }
      var id := ipToSession[ip];
      sessions[id].status := Released;
      OneRecordChanged(id);
      totalReleased := totalReleased + 1;
      bus := bus + [SessionReleased(id, ip)];
      return true;
    }

    method PruneStaleSessions(now: Tick)
      requires Valid() && Enabled(State(), Prune(now))
      modifies this`sessions, this`ipToSession, this`clock, this`actions
      ensures Valid() && sessions.Values <= old(sessions.Values)
      ensures Step(config, old(State()), Prune(now)) == Some(State())
      ensures actions == old(actions) + [Prune(now)]
    {
      hide Run, Stale, StaleIds;
      var toDelete := StaleSessions(now);
      DeleteSessions(toDelete);
      clock := now;
      actions := actions + [Prune(now)];
      NextStep(config, origin, old(actions), old(State()), Prune(now), State());
    }

    method StaleSessions(now: Tick) returns (toDelete: set<SessionId>)
      ensures toDelete == StaleIds(config, Table(), now) && toDelete <= sessions.Keys
    {
      toDelete := set id | id in sessions && Stale(config, sessions[id].Value(), now);
    }

    method DeleteSessions(toDelete: set<SessionId>)
      requires OwnRecords() && toDelete <= sessions.Keys
      modifies this`sessions, this`ipToSession
      ensures OwnRecords() && sessions.Values <= old(sessions.Values)
      ensures Table() == old(Table()) - toDelete
      ensures ipToSession == old(ipToSession) - set id | id in toDelete :: old(Table())[id].ip
    {
      var left := toDelete;
      while left != {}
        invariant left <= toDelete
        invariant sessions == old(sessions) - (toDelete - left)
        invariant ipToSession == old(ipToSession) - set id | id in toDelete - left :: old(sessions)[id].sourceIp
        decreases left
      {
        var id :| id in left;
        var record := sessions[id];
        sessions := sessions - {id};
        ipToSession := ipToSession - {record.sourceIp};
        assert toDelete - (left - {id}) == (toDelete - left) + {id};
        left := left - {id};
      }
      assert toDelete - left == toDelete;
    }
  }
}
