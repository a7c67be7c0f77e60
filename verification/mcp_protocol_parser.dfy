/** `MCPProtocolParser.parse_stream` and its bookkeeping. */
module McpProtocolParser {
  import opened BoundedDeque
  import opened ThreatScoring
  import opened MethodWindow
  import opened ProtocolThreats
  import opened ProtocolReports
  import opened ProtocolParsers
  import opened ProtocolVerdicts

  type Ip = string

  const HISTORY_LENGTH := 500

  /** A payload as the decoder leaves it: a message, or the reason why there is none. */
  datatype Envelope = Decoded(message: Message) | Undecodable(reason: string)

  datatype ParsedMessage = ParsedMessage(
    sourceIp: Ip, rawSize: nat, threats: seq<Threat>, threatScore: real, action: Verdict)

  /** Malformed envelopes are always flagged, with a score of 8, whatever the thresholds say. */
  function MalformedMessage(ip: Ip, rawSize: nat): ParsedMessage {
    ParsedMessage(
      ip, rawSize, [Threat(Malformed, "__envelope__", Low, 0.70, "malformed_envelope")], MALFORMED_SCORE, Flag)
  }

  /** What is published: a message with or without threats, or a malformed envelope. */
  datatype BusMessage =
    | ThreatTopic(message: ParsedMessage)
    | ParsedTopic(message: ParsedMessage)
    | MalformedTopic(sourceIp: Ip, rawSize: nat)

  predicate IsMalformed(data: Envelope, rawSize: nat) {
    rawSize > MAX_RAW_SIZE || data.Undecodable?
  }

  function ThreatCount(parsed: seq<ParsedMessage>): nat {
    if parsed == [] then 0 else ThreatCount(parsed[..|parsed| - 1]) + |parsed[|parsed| - 1].threats|
  }

  function BlockCount(parsed: seq<ParsedMessage>): nat {
    if parsed == [] then 0
    else BlockCount(parsed[..|parsed| - 1]) + if parsed[|parsed| - 1].action == Block then 1 else 0
  }

  /** The calls of one sender. */
  function CallsOf(callLog: map<Ip, seq<Call>>, ip: Ip): seq<Call> {
    if ip in callLog then callLog[ip] else []
  }

  /** The clock does not go back. */
  ghost predicate NotBefore(calls: seq<Call>, now: Seconds) {
    calls != [] ==> calls[|calls| - 1].at <= now
  }

  /** The deque of one sender is the window of its whole call log. */
  ghost predicate SenderExact(methodLog: map<Ip, seq<Call>>, callLog: map<Ip, seq<Call>>, ip: Ip) {
    Exact(CallsOf(methodLog, ip), CallsOf(callLog, ip)) && Ordered(CallsOf(callLog, ip))
  }

  lemma WindowsStayExact(
    methodLog: map<Ip, seq<Call>>, callLog: map<Ip, seq<Call>>, ip: Ip, q: seq<Call>, calls: seq<Call>,
    windows: map<Ip, seq<Call>>, logs: map<Ip, seq<Call>>)
    requires forall other :: SenderExact(methodLog, callLog, other)
    requires Exact(q, calls) && MethodWindow.Ordered(calls)
    requires windows == methodLog[ip := q] && logs == callLog[ip := calls]
    ensures forall other :: SenderExact(windows, logs, other)
  {
    hide Exact, MethodWindow.Ordered;
    forall other ensures SenderExact(windows, logs, other) {
      assert SenderExact(methodLog, callLog, other);
    }
  }

  /** A fitting message: the score is the capped weighted sum of its own threat list, the verdict follows it. */
  predicate Scored(msg: ParsedMessage) {
    msg.threatScore == Capped(Total(msg.threats)) && msg.action == Decide(msg.threatScore)
  }

  /** A JSON-RPC call of a method. */
  predicate CallsMethod(msg: Message) {
    msg.JsonRpc? && msg.methodName != ""
  }

  /** The distinct methods in the window of the sender; other messages do not look at it. */
  function UniqueMethods(methodLog: map<Ip, seq<Call>>, ip: Ip, msg: Message): nat {
    if CallsMethod(msg) then |Methods(CallsOf(methodLog, ip))| else 0
  }

  /**
   What is final says that methods are enumerated exactly of a call of a method whose sender has 8
   methods in its window: those of its last 30 s, as long as these are at most 200 calls.
   */
  lemma EnumerationReported(
    m: Matcher, msg: Message, rawSize: nat, methodLog: map<Ip, seq<Call>>, callLog: map<Ip, seq<Call>>, ip: Ip)
    requires Exact(CallsOf(methodLog, ip), CallsOf(callLog, ip)) && (CallsMethod(msg) ==> CallsOf(callLog, ip) != [])
    ensures var threats := FinalThreats(m, msg, UniqueMethods(methodLog, ip, msg), rawSize);
      && (ReportsEnumeration(threats) <==> CallsMethod(msg) && |Methods(CallsOf(methodLog, ip))| >= 8)
      && forall n: nat :: n <= 200 && CallsMethod(msg) && WindowHolds(CallsOf(callLog, ip), n) ==>
           (ReportsEnumeration(threats) <==> |RecentMethods(CallsOf(callLog, ip))| >= 8)
  {
    hide MessageThreats, Methods, RecentMethods;
    EnumerationIff(m, msg, UniqueMethods(methodLog, ip, msg));
    if CallsMethod(msg) {
      EnumerationAlarm(CallsOf(methodLog, ip), CallsOf(callLog, ip));
    }
  }

  class MCPProtocolParser {
    const matcher: Matcher
    var methodLog: map<Ip, seq<Call>>
    var totalParsed: nat
    var totalThreats: nat
    var totalBlocked: nat
    var totalMalformed: nat
    var history: seq<ParsedMessage>
    var bus: seq<BusMessage>
    // everything parsed and every JSON-RPC call ever seen
    ghost var parsed: seq<ParsedMessage>
    ghost var callLog: map<Ip, seq<Call>>
    ghost var malformed: nat

    ghost predicate WindowsExact()
      reads this`methodLog, this`callLog
    {
      forall ip :: SenderExact(methodLog, callLog, ip)
    }

    ghost predicate CountsRight()
      reads this`totalParsed, this`totalThreats, this`totalBlocked, this`totalMalformed
      reads this`history, this`parsed, this`malformed
    {
      && totalParsed == |parsed| && totalThreats == ThreatCount(parsed)
      && totalBlocked == BlockCount(parsed) && totalMalformed == malformed
      && history == Newest(parsed, 500)
      && forall i :: 0 <= i < |parsed| ==> Scored(parsed[i])
    }

    ghost predicate Valid()
      reads this
    {
      WindowsExact() && CountsRight()
    }

    constructor (matcher: Matcher)
      ensures Valid() && this.matcher == matcher && parsed == [] && callLog == map[] && malformed == 0
    {
      this.matcher := matcher;
      methodLog, history, bus := map[], [], [];
      totalParsed, totalThreats, totalBlocked, totalMalformed := 0, 0, 0, 0;
      parsed, callLog, malformed := [], map[], 0;
    }

    method ParseStream(data: Envelope, rawSize: nat, ip: Ip, now: Seconds) returns (msg: ParsedMessage)
      requires Valid()
      requires NotBefore(CallsOf(callLog, ip), now)
      modifies this
      ensures Valid()
      ensures IsMalformed(data, rawSize) ==>
        && msg == MalformedMessage(ip, rawSize) && msg.action == Flag && msg.threatScore == 8.0
        && malformed == old(malformed) + 1
        && parsed == old(parsed) && callLog == old(callLog)
      ensures IsMalformed(data, rawSize) ==> bus == old(bus) + [MalformedTopic(ip, rawSize)]
      ensures !IsMalformed(data, rawSize) ==> parsed == old(parsed) + [msg] && malformed == old(malformed)
      ensures !IsMalformed(data, rawSize) ==>
        bus == old(bus) + [if msg.threats != [] then ThreatTopic(msg) else ParsedTopic(msg)]
      ensures !IsMalformed(data, rawSize) ==>
        && callLog == (if CallsMethod(data.message)
                       then old(callLog)[ip := CallsOf(old(callLog), ip) + [Call(now, data.message.methodName)]]
                       else old(callLog))
        && msg.threats == FinalThreats(matcher, data.message, UniqueMethods(methodLog, ip, data.message), rawSize)
        && msg.threatScore == FinalScore(matcher, data.message, UniqueMethods(methodLog, ip, data.message), rawSize)
        && msg.action == FinalVerdict(matcher, data.message, UniqueMethods(methodLog, ip, data.message), rawSize)
      ensures data.Decoded? ==>
        && msg.threatScore == ReportedScore(matcher, data.message, UniqueMethods(methodLog, ip, data.message), rawSize)
        && msg.action == ReportedVerdict(matcher, data.message, UniqueMethods(methodLog, ip, data.message), rawSize)
      ensures ReportsEnumeration(msg.threats) <==>
        && !IsMalformed(data, rawSize) && CallsMethod(data.message) && |Methods(CallsOf(methodLog, ip))| >= 8
      ensures !IsMalformed(data, rawSize) && CallsMethod(data.message) ==>
        forall n: nat :: n <= 200 && WindowHolds(CallsOf(callLog, ip), n) ==>
          (ReportsEnumeration(msg.threats) <==> |RecentMethods(CallsOf(callLog, ip))| >= 8)
    {
      hide FinalThreats, FinalScore, FinalVerdict, MessageThreats, Total, Methods, Scored;
      hide CountsRight, WindowsExact, RecentMethods, WindowHolds, Exact, MethodWindow.Ordered;
      if rawSize > MAX_RAW_SIZE || data.Undecodable? {
        msg := MakeMalformed(ip, rawSize);
        return;
      }
      var unique := TrackMethod(data.message, ip, now);
      var threats, score := ParseMessage(data.message, unique);
      msg := Finish(data.message, unique, ip, rawSize, threats, score);
      Remember(msg);
      Publish(msg);
      WindowOf(ip);
      EnumerationReported(matcher, data.message, rawSize, methodLog, callLog, ip);
    }

    lemma WindowOf(ip: Ip)
      requires WindowsExact()
      ensures Exact(CallsOf(methodLog, ip), CallsOf(callLog, ip))
    {
      assert SenderExact(methodLog, callLog, ip);
    }

    /** `_publish`. */
    method Publish(msg: ParsedMessage)
      modifies this`bus
      ensures bus == old(bus) + [if msg.threats != [] then ThreatTopic(msg) else ParsedTopic(msg)]
    {
      if msg.threats != [] {
        bus := bus + [ThreatTopic(msg)];
      } else {
        bus := bus + [ParsedTopic(msg)];
      }
    }

    method MakeMalformed(ip: Ip, rawSize: nat) returns (msg: ParsedMessage)
      requires CountsRight()
      modifies this`totalMalformed, this`malformed, this`bus
      ensures bus == old(bus) + [MalformedTopic(ip, rawSize)]
      ensures CountsRight() && msg == MalformedMessage(ip, rawSize) && malformed == old(malformed) + 1
    {
      totalMalformed := totalMalformed + 1;
      malformed := malformed + 1;
      msg := MalformedMessage(ip, rawSize);
      bus := bus + [MalformedTopic(ip, rawSize)];
    }

    method TrackMethod(msg: Message, ip: Ip, now: Seconds) returns (unique: nat)
      requires WindowsExact()
      requires NotBefore(CallsOf(callLog, ip), now)
      modifies this`methodLog, this`callLog
      ensures WindowsExact()
      ensures callLog == if CallsMethod(msg)
        then old(callLog)[ip := CallsOf(old(callLog), ip) + [Call(now, msg.methodName)]]
        else old(callLog)
      ensures unique == UniqueMethods(methodLog, ip, msg)
    {
      hide SenderExact, Methods;
      unique := 0;
      if CallsMethod(msg) {
        unique := LogMethod(ip, Call(now, msg.methodName));
      }
    }

    method LogMethod(ip: Ip, c: Call) returns (unique: nat)
      requires WindowsExact() && NotBefore(CallsOf(callLog, ip), c.at)
      modifies this`methodLog, this`callLog
      ensures WindowsExact() && callLog == old(callLog)[ip := CallsOf(old(callLog), ip) + [c]]
      ensures unique == |Methods(CallsOf(methodLog, ip))|
    {
      hide Exact, Methods, MethodWindow.Ordered, NotBefore;
      assert SenderExact(methodLog, callLog, ip);
      LaterCallOrdered(CallsOf(callLog, ip), c);
      ghost var calls := CallsOf(callLog, ip) + [c];
      var q, n := LogCall(CallsOf(methodLog, ip), c, CallsOf(callLog, ip));
      hide SenderExact;
      var windows := methodLog[ip := q];
      ghost var logs := callLog[ip := calls];
      WindowsStayExact(methodLog, callLog, ip, q, calls, windows, logs);
      methodLog, callLog, unique := windows, logs, n;
    }

    method ParseMessage(msg: Message, unique: nat) returns (threats: seq<Threat>, score: real)
      requires !msg.JsonRpc? ==> unique == 0
      ensures threats == MessageThreats(matcher, msg, unique) && score == Total(threats)
    {
      hide MessageThreats, Total;
      match msg {
        case JsonRpc(_, _, _) => threats, score := ParseJsonRpc(matcher, msg, unique);
        case Mcp(_, _, _, _, _, _, _) => threats, score := ParseMcp(matcher, msg);
        case GraphQl(_, _) => threats, score := ParseGraphQl(matcher, msg);
        case MultiAgent(_, _, _) => threats, score := ParseMultiAgent(matcher, msg);
        case Unknown(_) => threats, score := ParseUnknown(matcher, msg);
      }
    }

    /** Cap, soft size warning, verdict. */
    method Finish(msg: Message, unique: nat, ip: Ip, rawSize: nat, threats: seq<Threat>, score: real)
      returns (r: ParsedMessage)
      requires threats == MessageThreats(matcher, msg, unique) && score == Total(threats)
      ensures r.sourceIp == ip && r.rawSize == rawSize && Scored(r)
      ensures r.threats == FinalThreats(matcher, msg, unique, rawSize)
      ensures r.threatScore == FinalScore(matcher, msg, unique, rawSize)
      ensures r.action == FinalVerdict(matcher, msg, unique, rawSize)
    {
      hide MessageThreats, Total;
      var all, capped := threats, Capped(score);
      if rawSize > OVERSIZED_WARN_BYTES && forall t | t in threats :: t.category != OversizedPayload {
        all := threats + [SIZE_WARNING];
        TotalExtends(threats, SIZE_WARNING);
        CapTwice(score, 10.0);
        capped := Capped(capped + SeverityScore(Medium));
      }
      r := ParsedMessage(ip, rawSize, all, capped, Decide(capped));
    }

    method Remember(msg: ParsedMessage)
      requires CountsRight() && Scored(msg)
      modifies this`totalParsed, this`totalThreats, this`totalBlocked, this`history, this`parsed
      ensures CountsRight() && parsed == old(parsed) + [msg]
    {
      hide Scored, Newest, AppendLeft, ThreatCount, BlockCount;
      CountsGrow(parsed, msg);
      totalParsed := totalParsed + 1;
      totalThreats := totalThreats + |msg.threats|;
      if msg.action == Block {
        totalBlocked := totalBlocked + 1;
      }
      history := AppendLeft(history, msg, HISTORY_LENGTH);
      AppendLeftNewest(parsed, msg, HISTORY_LENGTH);
      parsed := parsed + [msg];
    }
  }

  lemma CountsGrow(parsed: seq<ParsedMessage>, msg: ParsedMessage)
    ensures ThreatCount(parsed + [msg]) == ThreatCount(parsed) + |msg.threats|
    ensures BlockCount(parsed + [msg]) == BlockCount(parsed) + if msg.action == Block then 1 else 0
  {
    assert (parsed + [msg])[..|parsed|] == parsed;
  }

  lemma LaterCallOrdered(calls: seq<Call>, c: Call)
    requires MethodWindow.Ordered(calls) && NotBefore(calls, c.at)
    ensures MethodWindow.Ordered(calls + [c])
  {
  }
}
