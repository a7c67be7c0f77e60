/** What the protocol parser reports for one decoded message: the final threat list, and its weighted sum. */
module ProtocolThreats {
  import opened Wrappers
  import opened Decimal
  import opened ThreatScoring
  import opened MethodWindow

  const MAX_RAW_SIZE := 1024 * 1024
  const OVERSIZED_WARN_BYTES := 64 * 1024
  const UNKNOWN_PREFIX := 4096

  /** An entry of the pattern tables without its regular expression. */
  datatype Pattern = Pattern(description: string, confidence: real)

  const INJECTION_PATTERNS: seq<Pattern> := [
    Pattern("instruction override", 0.97),
    Pattern("context wipe", 0.97),
    Pattern("persona hijack", 0.95),
    Pattern("fake system tag", 0.92),
    Pattern("INST-tag injection", 0.93),
    Pattern("synthetic system tag", 0.90),
    Pattern("data extraction command", 0.88),
    Pattern("prompt exfiltration", 0.94),
    Pattern("prompt reveal", 0.91),
    Pattern("instruction probe", 0.85),
    Pattern("explicit attack declaration", 0.99),
    Pattern("context boundary break", 0.88),
    Pattern("raw tokenizer injection", 0.96),
    Pattern("alignment bypass", 0.93)]

  const INTROSPECTION_PATTERNS: seq<Pattern> := [
    Pattern("GraphQL schema introspection", 0.95),
    Pattern("GraphQL type introspection", 0.92),
    Pattern("named introspection query", 0.97),
    Pattern("XML-RPC/JSON-RPC introspection", 0.95),
    Pattern("OpenRPC schema discovery", 0.93),
    Pattern("capability enumeration", 0.88)]

  const EXFILTRATION_PATTERNS: seq<Pattern> := [
    Pattern("long base64 blob", 0.60),
    Pattern("AWS access key", 0.98),
    Pattern("API secret key", 0.96),
    Pattern("password field in response", 0.85),
    Pattern("private key material", 0.99),
    Pattern("auth token in response", 0.82)]

  const TOOL_ABUSE_NAMES: set<string> := {
    "eval", "exec", "shell", "bash", "cmd", "powershell", "system", "popen",
    "subprocess", "os_command", "run_code", "execute_code", "terminal",
    "file_write", "file_delete", "file_exec", "spawn_process", "kernel_call",
    "network_send", "exfiltrate", "upload_data", "send_payload"}

  /** Which pattern matches which text is left open. */
  type Matcher = (Pattern, string) -> bool

  datatype Category =
    | PromptInjection | ToolAbuse | Introspection | ContextPoisoning
    | OversizedPayload | MethodEnum | Malformed | Exfiltration

  datatype Threat = Threat(category: Category, path: string, severity: Severity, confidence: real, rule: string)

  /** `_classify_severity`. */
  function Classify(confidence: real): Severity {
    if confidence >= 0.95 then Critical
    else if confidence >= 0.85 then High
    else if confidence >= 0.70 then Medium
    else Low
  }

  // ----- weights

  /** Severity times confidence, except that method enumeration and the soft size warning are flat. */
  function Weight(t: Threat): real {
    if t.category == MethodEnum then 20.0
    else if t.category == OversizedPayload && t.rule == "oversized_payload" then 10.0
    else SeverityScore(t.severity) * t.confidence
  }

  function Weights(threats: seq<Threat>): seq<real> {
    Weighed(threats, Weight)
  }

  function Total(threats: seq<Threat>): real {
    Sum(Weights(threats))
  }

  lemma TotalConcat(a: seq<Threat>, b: seq<Threat>)
    ensures Total(a + b) == Total(a) + Total(b)
  {
    WeighedConcat(a, b, Weight);
  }

  lemma TotalExtends(threats: seq<Threat>, t: Threat)
    ensures Total(threats + [t]) == Total(threats) + Weight(t)
  {
    WeighedNext(threats, t, Weight);
  }

  // ----- scans

  function Boosted(confidence: real, boost: real): real {
    if confidence * boost < 1.0 then confidence * boost else 1.0
  }

  function Hit(p: Pattern, category: Category, path: string, boost: real): Threat {
    Threat(category, path, Classify(p.confidence * boost), Boosted(p.confidence, boost), p.description)
  }

  function Hits(m: Matcher, patterns: seq<Pattern>, category: Category, path: string, text: string, boost: real)
    : seq<Threat>
  {
    if patterns == [] then []
    else
      var p := patterns[|patterns| - 1];
      Hits(m, patterns[..|patterns| - 1], category, path, text, boost)
      + if m(p, text) then [Hit(p, category, path, boost)] else []
  }

  /** `_evaluate_text`: only the injection patterns are boosted. */
  function TextThreats(m: Matcher, path: string, text: string, boost: real): seq<Threat> {
    if text == "" then []
    else
      Hits(m, INJECTION_PATTERNS, PromptInjection, path, text, boost)
      + Hits(m, INTROSPECTION_PATTERNS, Introspection, path, text, 1.0)
  }

  /** `_scan_exfiltration`. */
  function LeakThreats(m: Matcher, path: string, text: string): seq<Threat> {
    if text == "" then [] else Hits(m, EXFILTRATION_PATTERNS, Exfiltration, path, text, 1.0)
  }

  // ----- messages

  /** A tool call with its lower-cased name and the text of its parameters. */
  datatype ToolCall = ToolCall(name: string, parameters: string)

  /** A decoded message; structured fields are already in their `json.dumps` form. */
  datatype Message =
    | JsonRpc(methodName: string, params: string, result: Option<string>)
    | Mcp(msgType: string, role: string, content: string, toolCalls: seq<ToolCall>,
          ragBlocks: seq<string>, toolResults: seq<string>, contextItems: seq<string>)
    | GraphQl(query: string, variables: string)
    | MultiAgent(actionType: string, toolName: string, payload: string)
    | Unknown(body: string)

  function Indexed(name: string, i: nat): string {
    name + "[" + ToText(i) + "]"
  }

  function Poisoned(threats: seq<Threat>): (r: seq<Threat>)
    ensures |r| == |threats|
    ensures forall i :: 0 <= i < |r| ==> r[i] == threats[i].(category := ContextPoisoning)
  {
    seq(|threats|, i requires 0 <= i < |threats| => threats[i].(category := ContextPoisoning))
  }

  function IsSystem(msg: Message): bool
    requires msg.Mcp?
  {
    msg.role == "system" || msg.msgType == "system"
  }

  function Boost(msg: Message): real
    requires msg.Mcp?
  {
    if IsSystem(msg) then 1.5 else 1.0
  }

  function CallThreats(m: Matcher, call: ToolCall, i: nat): seq<Threat> {
    (if call.name in TOOL_ABUSE_NAMES
     then [Threat(ToolAbuse, Indexed("tool_calls", i) + ".name", Critical, 0.95, "tool_abuse_name")] else [])
    + TextThreats(m, Indexed("tool_calls", i) + ".params", call.parameters, 1.0)
  }

  function CallsThreats(m: Matcher, calls: seq<ToolCall>): seq<Threat> {
    if calls == [] then []
    else CallsThreats(m, calls[..|calls| - 1]) + CallThreats(m, calls[|calls| - 1], |calls| - 1)
  }

  function BlocksThreats(m: Matcher, blocks: seq<string>): seq<Threat> {
    if blocks == [] then []
    else
      var n := |blocks| - 1;
      BlocksThreats(m, blocks[..n]) + Poisoned(TextThreats(m, Indexed("rag_blocks", n), blocks[n], 1.0))
  }

  function ResultsThreats(m: Matcher, results: seq<string>): seq<Threat> {
    if results == [] then []
    else
      var n := |results| - 1;
      ResultsThreats(m, results[..n]) + LeakThreats(m, Indexed("tool_results", n), results[n])
  }

  function ItemsThreats(m: Matcher, items: seq<string>): seq<Threat> {
    if items == [] then []
    else
      var n := |items| - 1;
      ItemsThreats(m, items[..n]) + TextThreats(m, Indexed("context_injection", n), items[n], 1.0)
  }

  function Braces(text: string): nat {
    if text == "" then 0 else Braces(text[..|text| - 1]) + if text[|text| - 1] == '{' then 1 else 0
  }

  function DepthThreats(query: string): seq<Threat> {
    var depth := Braces(query);
    if depth > 15
    then [Threat(OversizedPayload, "query", if depth > 30 then High else Medium, 0.80, "graphql_deep_nesting")]
    else []
  }

  function EnumerationThreats(methodName: string, uniqueMethods: nat): seq<Threat> {
    if methodName != "" && uniqueMethods >= METHOD_ENUM_THRESHOLD
    then [Threat(MethodEnum, "method", High, 0.88, "method_enumeration")] else []
  }

  /** The threats of a message; `uniqueMethods` counts the distinct methods in the window of its sender. */
  function MessageThreats(m: Matcher, msg: Message, uniqueMethods: nat): seq<Threat> {
    match msg
    case JsonRpc(methodName, params, result) =>
      EnumerationThreats(methodName, uniqueMethods)
      + Hits(m, INTROSPECTION_PATTERNS, Introspection, "method", methodName, 1.0)
      + TextThreats(m, "params", params, 1.0)
      + (if result.Some? then LeakThreats(m, "result", result.value) else [])
    case Mcp(_, _, content, calls, blocks, results, items) =>
      TextThreats(m, "content", content, Boost(msg))
      + (CallsThreats(m, calls) + BlocksThreats(m, blocks) + ResultsThreats(m, results) + ItemsThreats(m, items))
    case GraphQl(query, variables) =>
      Hits(m, INTROSPECTION_PATTERNS, Introspection, "query", query, 1.0)
      + TextThreats(m, "query", query, 1.0)
      + TextThreats(m, "variables", variables, 1.0)
      + DepthThreats(query)
    case MultiAgent(actionType, toolName, payload) =>
      (if toolName in TOOL_ABUSE_NAMES
       then [Threat(ToolAbuse, "tool_name", Critical, 0.95, "multiagent_tool_abuse")] else [])
      + TextThreats(m, "payload", payload, 1.0)
      + (if actionType == "memory_write" || actionType == "retrieval_augmentation"
         then LeakThreats(m, actionType, payload) else [])
    case Unknown(body) =>
      TextThreats(m, "raw_body", if |body| <= UNKNOWN_PREFIX then body else body[..UNKNOWN_PREFIX], 1.0)
  }

  const SIZE_WARNING := Threat(OversizedPayload, "__envelope__", Medium, 0.75, "oversized_payload")

  predicate NeedsSizeWarning(threats: seq<Threat>, rawSize: nat) {
    rawSize > OVERSIZED_WARN_BYTES && forall t | t in threats :: t.category != OversizedPayload
  }

  /** The final list: a large message gets the soft warning unless something already says it is too large. */
  function FinalThreats(m: Matcher, msg: Message, uniqueMethods: nat, rawSize: nat): seq<Threat> {
    var threats := MessageThreats(m, msg, uniqueMethods);
    threats + if NeedsSizeWarning(threats, rawSize) then [SIZE_WARNING] else []
  }

  // ----- what every threat of a message satisfies

  /** Confidences lie in [0, 1], and a critical threat is at least 0.95 sure. */
  predicate Sound(t: Threat) {
    && 0.0 <= t.confidence <= 1.0
    && (t.severity == Critical ==> t.confidence >= 0.95 && Plain(t))
  }

  /** Not one of the two threats with a flat weight. */
  predicate Plain(t: Threat) {
    t.category != MethodEnum && t.rule != "oversized_payload"
  }

  ghost predicate AllSound(threats: seq<Threat>) {
    forall i :: 0 <= i < |threats| ==> Sound(threats[i])
  }

  ghost predicate AllPlain(threats: seq<Threat>) {
    forall i :: 0 <= i < |threats| ==> Plain(threats[i])
  }

  ghost predicate PatternsFit(patterns: seq<Pattern>) {
    forall i :: 0 <= i < |patterns| ==>
      0.0 <= patterns[i].confidence <= 1.0 && patterns[i].description != "oversized_payload"
  }

  lemma TablesFit()
    ensures PatternsFit(INJECTION_PATTERNS) && PatternsFit(INTROSPECTION_PATTERNS) && PatternsFit(EXFILTRATION_PATTERNS)
  {
  }

  lemma {:induction false} HitsSound(
    m: Matcher, patterns: seq<Pattern>, category: Category, path: string, text: string, boost: real)
    requires PatternsFit(patterns) && 1.0 <= boost && category != MethodEnum
    ensures AllSound(Hits(m, patterns, category, path, text, boost))
    ensures AllPlain(Hits(m, patterns, category, path, text, boost))
  {
    if patterns == [] {
    } else {
      var (n, p) := (|patterns| - 1, patterns[|patterns| - 1]);
      HitsSound(m, patterns[..n], category, path, text, boost);
      HitSound(p, category, path, boost);
    }
  }

  lemma HitSound(p: Pattern, category: Category, path: string, boost: real)
    requires 0.0 <= p.confidence <= 1.0 && p.description != "oversized_payload"
    requires 1.0 <= boost && category != MethodEnum
    ensures Sound(Hit(p, category, path, boost))
  {
  }

  lemma TextThreatsSound(m: Matcher, path: string, text: string, boost: real)
    requires 1.0 <= boost
    ensures AllSound(TextThreats(m, path, text, boost)) && AllPlain(TextThreats(m, path, text, boost))
  {
    TablesFit();
    HitsSound(m, INJECTION_PATTERNS, PromptInjection, path, text, boost);
    HitsSound(m, INTROSPECTION_PATTERNS, Introspection, path, text, 1.0);
  }

  lemma LeakThreatsSound(m: Matcher, path: string, text: string)
    ensures AllSound(LeakThreats(m, path, text)) && AllPlain(LeakThreats(m, path, text))
  {
    TablesFit();
    HitsSound(m, EXFILTRATION_PATTERNS, Exfiltration, path, text, 1.0);
  }

  lemma {:induction false} CallsSound(m: Matcher, calls: seq<ToolCall>)
    ensures AllSound(CallsThreats(m, calls))
  {
    if calls == [] {
    } else {
      var n := |calls| - 1;
      CallsSound(m, calls[..n]);
      TextThreatsSound(m, Indexed("tool_calls", n) + ".params", calls[n].parameters, 1.0);
    }
  }

  lemma {:induction false} BlocksSound(m: Matcher, blocks: seq<string>)
    ensures AllSound(BlocksThreats(m, blocks))
  {
    if blocks == [] {
    } else {
      var n := |blocks| - 1;
      BlocksSound(m, blocks[..n]);
      TextThreatsSound(m, Indexed("rag_blocks", n), blocks[n], 1.0);
    }
  }

  lemma {:induction false} ResultsSound(m: Matcher, results: seq<string>)
    ensures AllSound(ResultsThreats(m, results))
  {
    if results == [] {
    } else {
      var n := |results| - 1;
      ResultsSound(m, results[..n]);
      LeakThreatsSound(m, Indexed("tool_results", n), results[n]);
    }
  }

  lemma {:induction false} ItemsSound(m: Matcher, items: seq<string>)
    ensures AllSound(ItemsThreats(m, items))
  {
    if items == [] {
    } else {
      var n := |items| - 1;
      ItemsSound(m, items[..n]);
      TextThreatsSound(m, Indexed("context_injection", n), items[n], 1.0);
    }
  }

  lemma MessageThreatsSound(m: Matcher, msg: Message, uniqueMethods: nat)
    ensures AllSound(MessageThreats(m, msg, uniqueMethods))
  {
    hide TextThreats, LeakThreats, Hits, CallsThreats, BlocksThreats, ResultsThreats, ItemsThreats;
    TablesFit();
    match msg
    case JsonRpc(methodName, params, result) =>
      HitsSound(m, INTROSPECTION_PATTERNS, Introspection, "method", methodName, 1.0);
      TextThreatsSound(m, "params", params, 1.0);
      if result.Some? { LeakThreatsSound(m, "result", result.value); }
    case Mcp(_, _, content, calls, blocks, results, items) =>
      TextThreatsSound(m, "content", content, Boost(msg));
      CallsSound(m, calls);
      BlocksSound(m, blocks);
      ResultsSound(m, results);
      ItemsSound(m, items);
    case GraphQl(query, variables) =>
      HitsSound(m, INTROSPECTION_PATTERNS, Introspection, "query", query, 1.0);
      TextThreatsSound(m, "query", query, 1.0);
      TextThreatsSound(m, "variables", variables, 1.0);
    case MultiAgent(actionType, toolName, payload) =>
      TextThreatsSound(m, "payload", payload, 1.0);
      LeakThreatsSound(m, actionType, payload);
    case Unknown(body) =>
      TextThreatsSound(m, "raw_body", if |body| <= UNKNOWN_PREFIX then body else body[..UNKNOWN_PREFIX], 1.0);
  }
}
