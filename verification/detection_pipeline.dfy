/**
 How verdicts become enforcement: the scores with which the isolation engine takes in the events of
 the other components, and what a block verdict of each leads to.
 */
module DetectionPipeline {
  import opened Wrappers
  import opened Decay
  import opened SessionProtocol
  import opened SessionSafety
  import opened SessionTheorems
  import opened SessionEffects
  import opened ThreatScoring
  import FloodDetector
  import P = ProtocolThreats
  import V = ProtocolVerdicts
  import E = EvaluationPasses

  /**
   The bus events the engine subscribes to; severities are lower-cased. An IDS alert has ip and
   severity where they are read from, at the top level of its data, or not at all.
   */
  datatype ThreatEvent =
    | McpThreat(ip: Ip, threatScore: real)
    | EvalFlagged(ip: Ip, threatScore: real)
    | EvalBlocked(ip: Ip, threatScore: real)
    | IdsAlert(source: Option<Ip>, level: Option<string>)
    | FirewallBlocked(ip: Ip, severity: string)

  function RawScore(e: ThreatEvent): real {
    match e
    case McpThreat(_, score) => score
    case EvalFlagged(_, score) => score
    case EvalBlocked(_, score) => score * 1.5
    case IdsAlert(_, level) =>
      var severity := if level.Some? then level.value else "medium";
      if severity == "critical" then 40.0 else if severity == "high" then 20.0
      else if severity == "medium" then 10.0 else if severity == "low" then 4.0 else 10.0
    case FirewallBlocked(_, severity) =>
      if severity == "critical" then 40.0 else if severity == "high" then 20.0
      else if severity == "medium" then 10.0 else 15.0
  }

  function Topic(e: ThreatEvent): string {
    match e
    case McpThreat(_, _) => "mcp.parser.threat"
    case EvalFlagged(_, _) => "eval.pipeline.flagged"
    case EvalBlocked(_, _) => "eval.pipeline.blocked"
    case IdsAlert(_, _) => "ids.alert"
    case FirewallBlocked(_, _) => "firewall.injection.blocked"
  }

  function IpOf(e: ThreatEvent): Ip {
    match e
    case IdsAlert(source, _) => if source.Some? then source.value else "0.0.0.0"
    case _ => e.ip
  }

  function Delivery(e: ThreatEvent, summary: string, freshId: SessionId, t: Readings): Action {
    Report(IpOf(e), RawScore(e), Topic(e), summary, freshId, t)
  }

  // ----- contributions are never negative

  ghost predicate NoNegativeReports(actions: seq<Action>) {
    forall i :: 0 <= i < |actions| && actions[i].Report? ==> actions[i].score >= 0.0
  }

  ghost predicate AllNonNegative(s: EngineState) {
    forall id :: id in s.sessions ==> NonNegativeScores(s.sessions[id])
  }

  ghost predicate NonNegativeScores(session: Session) {
    SessionTheorems.NonNegative(session.contributions)
  }

  lemma StepKeepsNonNegative(c: Config, s: EngineState, a: Action)
    requires TablesKnown(s) && AllNonNegative(s) && Enabled(s, a) && (a.Report? ==> a.score >= 0.0)
    ensures Step(c, s, a).Some? && AllNonNegative(Step(c, s, a).value)
  {
    hide Contributed, TablesKnown;
    TablesKept(c, s, a);
    if a.Report? {
      RegisterKeepsTables(s, a.ip, a.freshId, a.readings.registered);
      var registered := Registered(s, a.ip, a.freshId, a.readings.registered);
      var id := registered.ipToSession[a.ip];
      ContributedNonNegative(c, registered, id, a);
    }
  }

  lemma ContributedNonNegative(c: Config, s: EngineState, id: SessionId, a: Action)
    requires a.Report? && a.score >= 0.0 && id in s.sessions && AllNonNegative(s)
    ensures AllNonNegative(Contributed(c, s, id, a))
  {
  }

  lemma {:induction false} RunKeepsNonNegative(c: Config, s: EngineState, actions: seq<Action>, s': EngineState)
    requires TablesKnown(s) && AllNonNegative(s) && NoNegativeReports(actions) && Run(c, s, actions, s')
    ensures TablesKnown(s') && AllNonNegative(s')
    decreases |actions|
  {
    hide AllNonNegative, TablesKnown, Step;
    if actions == [] {
    } else {
      assert actions[0].Report? ==> actions[0].score >= 0.0;
      StepKeepsNonNegative(c, s, actions[0]);
      TablesKept(c, s, actions[0]);
      assert forall i :: 0 <= i < |actions[1..]| ==> actions[1..][i] == actions[i + 1];
      RunKeepsNonNegative(c, Step(c, s, actions[0]).value, actions[1..], s');
    }
  }

  // ----- one strong report

  /** What is left of the score of a report when the total is read. */
  function Worth(c: Config, a: Action): real
    requires a.Report?
  {
    a.score * Factor(c.halfLife, a.readings.evaluated - a.readings.reported)
  }

  /** Isolated, unless it had been released by hand before. */
  predicate IsolatesUnlessReleased(s: EngineState, s': EngineState, ip: Ip) {
    StatusOf(s', ip) == if StatusOf(s, ip) == Released then Released else Isolated
  }

  /** No longer active, and released only if it had been. */
  predicate LeavesActive(s: EngineState, s': EngineState, ip: Ip) {
    StatusOf(s', ip) != Active && (StatusOf(s', ip) == Released <==> StatusOf(s, ip) == Released)
  }

  lemma ScoreAtLeastLast(c: Config, session: Session, a: Action)
    requires a.Report? && NonNegativeScores(session)
    ensures Total(c.halfLife, WithContribution(session, a).contributions, a.readings.evaluated)
      >= Worth(c, a)
  {
    var cs := session.contributions;
    var longer := WithContribution(session, a).contributions;
    assert longer[..|cs|] == cs;
    TotalOfPrefix(c.halfLife, cs, 0, a.readings.evaluated);
    assert Total(c.halfLife, cs[..0], a.readings.evaluated) == 0.0;
  }

  /**
   A report that is still worth 70 when its score is read isolates the session; one worth 40 leaves
   it no longer active. Only a session released by hand before stays released.
   */
  lemma StrongReport(c: Config, clock: Tick, actions: seq<Action>, s: EngineState, a: Action)
    requires Run(c, Start(clock), actions, s) && NoNegativeReports(actions) && !c.shadowMode
    requires a.Report? && Enabled(s, a)
    ensures Step(c, s, a).Some?
    ensures Worth(c, a) >= ISOLATION_THRESHOLD ==> IsolatesUnlessReleased(s, Step(c, s, a).value, a.ip)
    ensures Worth(c, a) >= SUSPICIOUS_THRESHOLD ==> LeavesActive(s, Step(c, s, a).value, a.ip)
  {
    hide Contributed, Run, Total, Worth;
    RunKeepsNonNegative(c, Start(clock), actions, s);
    RegisterKeepsTables(s, a.ip, a.freshId, a.readings.registered);
    var registered := Registered(s, a.ip, a.freshId, a.readings.registered);
    var id := registered.ipToSession[a.ip];
    assert NonNegativeScores(registered.sessions[id]);
    ScoreAtLeastLast(c, registered.sessions[id], a);
    StatusByScore(c, registered, id, a);
  }

  /** The first report of an ip decides alone, so for it these conditions are exact. */
  lemma FirstReport(c: Config, s: EngineState, a: Action)
    requires TablesKnown(s) && a.Report? && Enabled(s, a) && a.ip !in s.ipToSession && !c.shadowMode
    ensures Step(c, s, a).Some?
    ensures StatusOf(Step(c, s, a).value, a.ip) ==
      if Worth(c, a) >= ISOLATION_THRESHOLD then Isolated
      else if Worth(c, a) >= SUSPICIOUS_THRESHOLD then Suspicious
      else Active
  {
    hide Contributed, Worth;
    RegisterKeepsTables(s, a.ip, a.freshId, a.readings.registered);
    var registered := Registered(s, a.ip, a.freshId, a.readings.registered);
    OnlyContribution(c, registered.sessions[a.freshId], a);
    StatusByScore(c, registered, a.freshId, a);
  }

  /** What a first event does by itself, read at once: only scores of 40 and critical severities count. */
  lemma FirstEvent(c: Config, s: EngineState, e: ThreatEvent, summary: string, freshId: SessionId, t: Readings)
    requires TablesKnown(s) && Enabled(s, Delivery(e, summary, freshId, t)) && !c.shadowMode
    requires IpOf(e) !in s.ipToSession && t.evaluated == t.reported
    ensures Step(c, s, Delivery(e, summary, freshId, t)).Some?
    ensures StatusOf(Step(c, s, Delivery(e, summary, freshId, t)).value, IpOf(e)) ==
      match e
      case McpThreat(_, score) => if score >= 70.0 then Isolated else if score >= 40.0 then Suspicious else Active
      case EvalFlagged(_, score) => if score >= 70.0 then Isolated else if score >= 40.0 then Suspicious else Active
      case EvalBlocked(_, score) =>
        if 3.0 * score >= 140.0 then Isolated else if 3.0 * score >= 80.0 then Suspicious else Active
      case IdsAlert(_, level) => if level == Some("critical") then Suspicious else Active
      case FirewallBlocked(_, severity) => if severity == "critical" then Suspicious else Active
  {
    hide Step, Enabled, TablesKnown, StatusOf;
    FirstReport(c, s, Delivery(e, summary, freshId, t));
    assert Factor(c.halfLife, 0) == 1.0;
    assert Worth(c, Delivery(e, summary, freshId, t)) == RawScore(e);
  }

  lemma OnlyContribution(c: Config, session: Session, a: Action)
    requires a.Report? && session.contributions == []
    ensures Total(c.halfLife, WithContribution(session, a).contributions, a.readings.evaluated) == Worth(c, a)
  {
    assert WithContribution(session, a).contributions[..0] == [];
  }

  /** The status after a report, by the uncapped score: the cap of 100 plays no part. */
  lemma StatusByScore(c: Config, s: EngineState, id: SessionId, a: Action)
    requires a.Report? && id in s.sessions && !c.shadowMode
    ensures var (total, s') := (
        Total(c.halfLife, WithContribution(s.sessions[id], a).contributions, a.readings.evaluated),
        Contributed(c, s, id, a));
      && id in s'.sessions && s'.ipToSession == s.ipToSession
      && s'.sessions[id].status ==
           (if s.sessions[id].status == Isolated || s.sessions[id].status == Released then s.sessions[id].status
            else if total >= ISOLATION_THRESHOLD then Isolated
            else if total >= SUSPICIOUS_THRESHOLD || s.sessions[id].status == Suspicious then Suspicious
            else Active)
  {
  }

  // ----- verdicts compose

  function BlockDelivery(
    m: E.Matcher, p: E.PassType, ctx: E.Context, summary: string, freshId: SessionId, t: Readings): Action
  {
    Delivery(EvalBlocked(ctx.sourceIp, E.Evaluate(m, false, p, ctx).threatScore), summary, freshId, t)
  }

  /**
   Delivering a dual-pass block isolates its sender, unless released by hand before, as long as the
   score is read before it has decayed to less than 7/9 (some 108 s).
   */
  lemma DualPassBlockIsolates(
    c: Config, clock: Tick, actions: seq<Action>, s: EngineState,
    m: E.Matcher, p: E.PassType, ctx: E.Context, summary: string, freshId: SessionId, t: Readings)
    requires Run(c, Start(clock), actions, s) && NoNegativeReports(actions) && !c.shadowMode
    requires E.Evaluate(m, false, p, ctx).action == Block
    requires Enabled(s, BlockDelivery(m, p, ctx, summary, freshId, t))
    requires 9.0 * Factor(c.halfLife, t.evaluated - t.reported) >= 7.0
    ensures var step := Step(c, s, BlockDelivery(m, p, ctx, summary, freshId, t));
      step.Some? && IsolatesUnlessReleased(s, step.value, ctx.sourceIp)
  {
    E.VerdictFromReport(m, false, p, ctx);
    hide E.Evaluate, Step, Run, Enabled, IsolatesUnlessReleased;
    var a := BlockDelivery(m, p, ctx, summary, freshId, t);
    AtLeastProduct(a.score, Factor(c.halfLife, t.evaluated - t.reported), 90.0, 7.0 / 9.0);
    StrongReport(c, clock, actions, s, a);
  }

  function ThreatDelivery(
    m: P.Matcher, msg: P.Message, uniqueMethods: nat, rawSize: nat, ip: Ip,
    summary: string, freshId: SessionId, t: Readings): Action
  {
    Delivery(McpThreat(ip, V.ReportedScore(m, msg, uniqueMethods, rawSize)), summary, freshId, t)
  }

  /**
   Delivering a message that the parser blocks leaves its sender suspicious at least, as long as the
   score is read before it has decayed to less than 2/3 (some 175 s).
   */
  lemma McpBlockNeverStaysActive(
    c: Config, clock: Tick, actions: seq<Action>, s: EngineState,
    m: P.Matcher, msg: P.Message, uniqueMethods: nat, rawSize: nat, ip: Ip,
    summary: string, freshId: SessionId, t: Readings)
    requires Run(c, Start(clock), actions, s) && NoNegativeReports(actions) && !c.shadowMode
    requires V.ReportedVerdict(m, msg, uniqueMethods, rawSize) == Block
    requires Enabled(s, ThreatDelivery(m, msg, uniqueMethods, rawSize, ip, summary, freshId, t))
    requires 3.0 * Factor(c.halfLife, t.evaluated - t.reported) >= 2.0
    ensures P.FinalThreats(m, msg, uniqueMethods, rawSize) != []  // so it goes out on the threat topic
    ensures var step := Step(c, s, ThreatDelivery(m, msg, uniqueMethods, rawSize, ip, summary, freshId, t));
      step.Some? && LeavesActive(s, step.value, ip)
  {
    hide V.ReportedVerdict, V.ReportedScore, P.FinalThreats, Step, Run, Enabled, LeavesActive;
    V.BlockedIsParsed(m, msg, uniqueMethods, rawSize);
    var a := ThreatDelivery(m, msg, uniqueMethods, rawSize, ip, summary, freshId, t);
    AtLeastProduct(a.score, Factor(c.halfLife, t.evaluated - t.reported), 60.0, 2.0 / 3.0);
    StrongReport(c, clock, actions, s, a);
  }

  /**
   IDS alerts below "critical", one half-life or more apart, never make a session leave ACTIVE: each
   counts for at most 20.
   */
  lemma LoneIdsAlertsFade(c: Config, s: EngineState, id: SessionId, alerts: seq<ThreatEvent>)
    requires Reachable(c, s) && id in s.sessions
    requires var cs := s.sessions[id].contributions;
      && |alerts| == |cs|
      && (forall i :: 0 <= i < |cs| ==>
           alerts[i].IdsAlert? && alerts[i].level != Some("critical") && cs[i].rawScore == RawScore(alerts[i]))
      && forall i :: 0 < i < |cs| ==> cs[i].contributedAt - cs[i - 1].contributedAt >= c.halfLife.ticks
    ensures s.sessions[id].status == Active || s.sessions[id].status == Released
  {
    OneOffAnomaliesFade(c, s, id);
  }

  // ----- alerts as the IDS publishes them

  /** Whatever the alert, ip and severity are one level down, under "alert", where nothing reads them. */
  function PublishedAlert(alert: FloodDetector.Alert): (e: ThreatEvent)
    ensures RawScore(e) == 10.0 && IpOf(e) == "0.0.0.0"
  {
    IdsAlert(None, None)
  }

  /** The session took exactly these alerts. */
  ghost predicate TookAlerts(session: Session, alerts: seq<FloodDetector.Alert>) {
    && session.ip == "0.0.0.0" && |session.contributions| == |alerts|
    && forall i :: 0 <= i < |alerts| ==> session.contributions[i].rawScore == RawScore(PublishedAlert(alerts[i]))
  }

  predicate LeftActive(session: Session) {
    session.status == Suspicious || session.status == Isolated
  }

  /** Up to three of them, however close, leave the session active. */
  lemma FewAlertsStayActive(c: Config, s: EngineState, id: SessionId, alerts: seq<FloodDetector.Alert>)
    requires Reachable(c, s) && id in s.sessions && TookAlerts(s.sessions[id], alerts) && |alerts| <= 3
    ensures !LeftActive(s.sessions[id])
  {
    hide Reachable, Total;
    var cs := s.sessions[id].contributions;
    forall k: nat, now | k <= |cs| && Before(cs[..k], now)
      ensures Total(c.halfLife, cs[..k], now) < SUSPICIOUS_THRESHOLD
    {
      TotalAtMost(c.halfLife, cs[..k], 10.0, now);
    }
    LowScoresStayActive(c, s, id);
  }

  /** The session after `n` alerts at one instant, before anything decayed. */
  ghost predicate AtOnce(s: EngineState, id: SessionId, n: nat) {
    && s.clock == 0 && id != "next" && s.issued == {id} && id in s.sessions && s.sessions[id].ip == "0.0.0.0"
    && "0.0.0.0" in s.ipToSession && s.ipToSession["0.0.0.0"] == id
    && |s.sessions[id].contributions| == n
    && (forall i :: 0 <= i < n ==>
         s.sessions[id].contributions[i].rawScore == 10.0 && s.sessions[id].contributions[i].contributedAt == 0)
    && s.sessions[id].status != Released && (n >= 4 ==> LeftActive(s.sessions[id]))
  }

  lemma {:induction false} TotalAtOnce(h: HalfLife, cs: seq<Contribution>)
    requires forall i :: 0 <= i < |cs| ==> cs[i].rawScore == 10.0 && cs[i].contributedAt == 0
    ensures Total(h, cs, 0) == 10.0 * |cs| as real
  {
    if cs == [] {
    } else {
      TotalAtOnce(h, cs[..|cs| - 1]);
      assert Factor(h, 0) == 1.0;
    }
  }

  lemma NextAtOnce(c: Config, s: EngineState, id: SessionId, n: nat, a: Action)
    requires AtOnce(s, id, n)
    requires a == Delivery(IdsAlert(None, None), "", "next", Readings(0, 0, 0, 0, 0))
    ensures Reported(c, s, a).Some? && AtOnce(Reported(c, s, a).value, id, n + 1)
  {
    hide Total;
    TotalAtOnce(c.halfLife, WithContribution(s.sessions[id], a).contributions);
  }

  lemma FirstAtOnce(c: Config, a: Action)
    requires a == Delivery(IdsAlert(None, None), "", "first", Readings(0, 0, 0, 0, 0))
    ensures Reported(c, Start(0), a).Some? && AtOnce(Reported(c, Start(0), a).value, "first", 1)
  {
    hide Total;
    TotalAtOnce(c.halfLife, [Contribution("ids.alert", 10.0, 0, "")]);
  }

  lemma {:induction false} AlertsAtOnce(c: Config, n: nat) returns (actions: seq<Action>, s: EngineState)
    requires n > 0
    ensures Run(c, Start(0), actions, s) && AtOnce(s, "first", n)
  {
    hide Reported, AtOnce;
    if n == 1 {
      var a := Delivery(IdsAlert(None, None), "", "first", Readings(0, 0, 0, 0, 0));
      FirstAtOnce(c, a);
      actions, s := [a], Reported(c, Start(0), a).value;
      NextStep(c, 0, [], Start(0), a, s);
      assert [] + [a] == [a];
    } else {
      var earlier, before := AlertsAtOnce(c, n - 1);
      var a := Delivery(IdsAlert(None, None), "", "next", Readings(0, 0, 0, 0, 0));
      NextAtOnce(c, before, "first", n - 1, a);
      NextIsEnabled(before, n - 1, a);
      actions, s := earlier + [a], Reported(c, before, a).value;
      NextStep(c, 0, earlier, before, a, s);
    }
  }

  lemma NextIsEnabled(s: EngineState, n: nat, a: Action)
    requires AtOnce(s, "first", n)
    requires a == Delivery(IdsAlert(None, None), "", "next", Readings(0, 0, 0, 0, 0))
    ensures Enabled(s, a)
  {
  }

  /**
   For any list of alerts, in shadow mode or not: a session that took them as the IDS publishes them
   can have left ACTIVE if and only if there are at least four.
   */
  lemma PublishedAlertsIff(c: Config, alerts: seq<FloodDetector.Alert>)
    ensures (exists s, id ::
        Reachable(c, s) && id in s.sessions && TookAlerts(s.sessions[id], alerts) && LeftActive(s.sessions[id]))
      <==> |alerts| >= 4
  {
    hide Run, LeftActive;
    if |alerts| >= 4 {
      var actions, s := AlertsAtOnce(c, |alerts|);
      assert Reachable(c, s) && TookAlerts(s.sessions["first"], alerts) && LeftActive(s.sessions["first"]);
    } else {
      forall s, id | Reachable(c, s) && id in s.sessions && TookAlerts(s.sessions[id], alerts)
        ensures !LeftActive(s.sessions[id])
      {
        FewAlertsStayActive(c, s, id, alerts);
      }
    }
  }
}
