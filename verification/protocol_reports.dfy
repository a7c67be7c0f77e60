/** What the threats of a message say about it, part by part, and what they are worth. */
module ProtocolReports {
  import opened Wrappers
  import opened ThreatScoring
  import opened ProtocolThreats

  // ----- which threats are reported

  ghost predicate Matches(
    m: Matcher, patterns: seq<Pattern>, category: Category, path: string, text: string, boost: real, t: Threat)
  {
    exists p :: p in patterns && m(p, text) && t == Hit(p, category, path, boost)
  }

  ghost predicate TextReports(m: Matcher, path: string, text: string, boost: real, t: Threat) {
    text != ""
    && (|| Matches(m, INJECTION_PATTERNS, PromptInjection, path, text, boost, t)
        || Matches(m, INTROSPECTION_PATTERNS, Introspection, path, text, 1.0, t))
  }

  ghost predicate LeakReports(m: Matcher, path: string, text: string, t: Threat) {
    text != "" && Matches(m, EXFILTRATION_PATTERNS, Exfiltration, path, text, 1.0, t)
  }

  ghost predicate CallReports(m: Matcher, calls: seq<ToolCall>, i: nat, t: Threat)
    requires i < |calls|
  {
    || TextReports(m, Indexed("tool_calls", i) + ".params", calls[i].parameters, 1.0, t)
    || (calls[i].name in TOOL_ABUSE_NAMES
        && t == Threat(ToolAbuse, Indexed("tool_calls", i) + ".name", Critical, 0.95, "tool_abuse_name"))
  }

  /** What a block of retrieved text reports is called context poisoning. */
  ghost predicate BlockReports(m: Matcher, blocks: seq<string>, i: nat, t: Threat)
    requires i < |blocks|
  {
    exists found ::
      TextReports(m, Indexed("rag_blocks", i), blocks[i], 1.0, found) && t == found.(category := ContextPoisoning)
  }

  ghost predicate ResultReports(m: Matcher, results: seq<string>, i: nat, t: Threat)
    requires i < |results|
  {
    LeakReports(m, Indexed("tool_results", i), results[i], t)
  }

  ghost predicate ItemReports(m: Matcher, items: seq<string>, i: nat, t: Threat)
    requires i < |items|
  {
    TextReports(m, Indexed("context_injection", i), items[i], 1.0, t)
  }

  /** The opening braces of a text. */
  function Opening(text: string): nat {
    multiset(text)['{']
  }

  lemma {:induction false} BracesAreCounted(text: string)
    ensures Braces(text) == Opening(text)
  {
    if text == "" {
    } else {
      var n := |text| - 1;
      BracesAreCounted(text[..n]);
      assert text == text[..n] + [text[n]];
    }
  }

  /** Only a GraphQL query with more than 15 opening braces says that it is too large. */
  predicate DepthReports(query: string, t: Threat) {
    Opening(query) > 15
    && var severity := if Opening(query) > 30 then High else Medium;
    t == Threat(OversizedPayload, "query", severity, 0.80, "graphql_deep_nesting")
  }

  /** Only a JSON-RPC call with a method name reports method enumeration, from 8 methods on. */
  predicate EnumerationReports(methodName: string, uniqueMethods: nat, t: Threat) {
    methodName != "" && uniqueMethods >= 8 && t == Threat(MethodEnum, "method", High, 0.88, "method_enumeration")
  }

  ghost predicate Reports(m: Matcher, msg: Message, uniqueMethods: nat, t: Threat) {
    match msg
    case JsonRpc(methodName, params, result) =>
      || EnumerationReports(methodName, uniqueMethods, t)
      || Matches(m, INTROSPECTION_PATTERNS, Introspection, "method", methodName, 1.0, t)
      || TextReports(m, "params", params, 1.0, t)
      || (result.Some? && LeakReports(m, "result", result.value, t))
    case Mcp(msgType, role, content, calls, blocks, results, items) =>
      || TextReports(m, "content", content, if role == "system" || msgType == "system" then 1.5 else 1.0, t)
      || (exists i :: 0 <= i < |calls| && CallReports(m, calls, i, t))
      || (exists i :: 0 <= i < |blocks| && BlockReports(m, blocks, i, t))
      || (exists i :: 0 <= i < |results| && ResultReports(m, results, i, t))
      || (exists i :: 0 <= i < |items| && ItemReports(m, items, i, t))
    case GraphQl(query, variables) =>
      || Matches(m, INTROSPECTION_PATTERNS, Introspection, "query", query, 1.0, t)
      || TextReports(m, "query", query, 1.0, t)
      || TextReports(m, "variables", variables, 1.0, t)
      || DepthReports(query, t)
    case MultiAgent(actionType, toolName, payload) =>
      || (toolName in TOOL_ABUSE_NAMES
          && t == Threat(ToolAbuse, "tool_name", Critical, 0.95, "multiagent_tool_abuse"))
      || TextReports(m, "payload", payload, 1.0, t)
      || (actionType in {"memory_write", "retrieval_augmentation"} && LeakReports(m, actionType, payload, t))
    case Unknown(body) => TextReports(m, "raw_body", body[..if |body| < 4096 then |body| else 4096], 1.0, t)
  }

  lemma {:induction false} HitsIff(
    m: Matcher, patterns: seq<Pattern>, category: Category, path: string, text: string, boost: real, t: Threat)
    ensures t in Hits(m, patterns, category, path, text, boost)
      <==> Matches(m, patterns, category, path, text, boost, t)
  {
    hide Hit;
    if patterns == [] {
    } else {
      var (n, p) := (|patterns| - 1, patterns[|patterns| - 1]);
      HitsIff(m, patterns[..n], category, path, text, boost, t);
      assert forall q :: q in patterns <==> q in patterns[..n] || q == p;
    }
  }

  lemma TextIff(m: Matcher, path: string, text: string, boost: real, t: Threat)
    ensures t in TextThreats(m, path, text, boost) <==> TextReports(m, path, text, boost, t)
  {
    hide Hits, Matches;
    HitsIff(m, INJECTION_PATTERNS, PromptInjection, path, text, boost, t);
    HitsIff(m, INTROSPECTION_PATTERNS, Introspection, path, text, 1.0, t);
  }

  lemma LeakIff(m: Matcher, path: string, text: string, t: Threat)
    ensures t in LeakThreats(m, path, text) <==> LeakReports(m, path, text, t)
  {
    hide Hits, Matches;
    HitsIff(m, EXFILTRATION_PATTERNS, Exfiltration, path, text, 1.0, t);
  }

  lemma {:induction false} CallsIff(m: Matcher, calls: seq<ToolCall>, t: Threat)
    ensures t in CallsThreats(m, calls) <==> exists i :: 0 <= i < |calls| && CallReports(m, calls, i, t)
  {
    hide TextThreats, TextReports;
    if calls == [] {
    } else {
      var n := |calls| - 1;
      CallsIff(m, calls[..n], t);
      TextIff(m, Indexed("tool_calls", n) + ".params", calls[n].parameters, 1.0, t);
      assert t in CallThreats(m, calls[n], n) <==> CallReports(m, calls, n, t);
      assert forall i :: 0 <= i < n ==> (CallReports(m, calls[..n], i, t) <==> CallReports(m, calls, i, t));
    }
  }

  lemma PoisonedIff(m: Matcher, blocks: seq<string>, i: nat, t: Threat)
    requires i < |blocks|
    ensures t in Poisoned(TextThreats(m, Indexed("rag_blocks", i), blocks[i], 1.0)) <==> BlockReports(m, blocks, i, t)
  {
    hide TextThreats, TextReports;
    var found := TextThreats(m, Indexed("rag_blocks", i), blocks[i], 1.0);
    forall f ensures f in found <==> TextReports(m, Indexed("rag_blocks", i), blocks[i], 1.0, f) {
      TextIff(m, Indexed("rag_blocks", i), blocks[i], 1.0, f);
    }
    if t in Poisoned(found) {
      var k :| 0 <= k < |found| && Poisoned(found)[k] == t;
      assert found[k] in found;
    }
    if BlockReports(m, blocks, i, t) {
      var f :| TextReports(m, Indexed("rag_blocks", i), blocks[i], 1.0, f) && t == f.(category := ContextPoisoning);
      var k :| 0 <= k < |found| && found[k] == f;
      assert Poisoned(found)[k] == t;
    }
  }

  lemma {:induction false} BlocksIff(m: Matcher, blocks: seq<string>, t: Threat)
    ensures t in BlocksThreats(m, blocks) <==> exists i :: 0 <= i < |blocks| && BlockReports(m, blocks, i, t)
  {
    hide TextThreats, TextReports, Poisoned;
    if blocks == [] {
    } else {
      var n := |blocks| - 1;
      BlocksIff(m, blocks[..n], t);
      PoisonedIff(m, blocks, n, t);
      assert forall i :: 0 <= i < n ==> (BlockReports(m, blocks[..n], i, t) <==> BlockReports(m, blocks, i, t));
    }
  }

  lemma {:induction false} ResultsIff(m: Matcher, results: seq<string>, t: Threat)
    ensures t in ResultsThreats(m, results) <==> exists i :: 0 <= i < |results| && ResultReports(m, results, i, t)
  {
    hide LeakThreats, LeakReports;
    if results == [] {
    } else {
      var n := |results| - 1;
      ResultsIff(m, results[..n], t);
      LeakIff(m, Indexed("tool_results", n), results[n], t);
      if t in LeakThreats(m, Indexed("tool_results", n), results[n]) {
        assert ResultReports(m, results, n, t);
      } else if i :| 0 <= i < n && ResultReports(m, results[..n], i, t) {
        assert ResultReports(m, results, i, t);
      } else {
        assert forall i :: 0 <= i < n ==> (ResultReports(m, results[..n], i, t) <==> ResultReports(m, results, i, t));
      }
    }
  }

  lemma {:induction false} ItemsIff(m: Matcher, items: seq<string>, t: Threat)
    ensures t in ItemsThreats(m, items) <==> exists i :: 0 <= i < |items| && ItemReports(m, items, i, t)
  {
    hide TextThreats, TextReports;
    if items == [] {
    } else {
      var n := |items| - 1;
      ItemsIff(m, items[..n], t);
      TextIff(m, Indexed("context_injection", n), items[n], 1.0, t);
      if t in TextThreats(m, Indexed("context_injection", n), items[n], 1.0) {
        assert ItemReports(m, items, n, t);
      } else if i :| 0 <= i < n && ItemReports(m, items[..n], i, t) {
        assert ItemReports(m, items, i, t);
      } else {
        assert forall i :: 0 <= i < n ==> (ItemReports(m, items[..n], i, t) <==> ItemReports(m, items, i, t));
      }
    }
  }

  /** Every threat of a message is one of these, and all of these are reported. */
  lemma ThreatsAreReports(m: Matcher, msg: Message, uniqueMethods: nat, t: Threat)
    ensures t in MessageThreats(m, msg, uniqueMethods) <==> Reports(m, msg, uniqueMethods, t)
  {
    hide Hits, Matches, TextThreats, TextReports, LeakThreats, LeakReports;
    hide CallsThreats, BlocksThreats, ResultsThreats, ItemsThreats;
    hide CallReports, BlockReports, ResultReports, ItemReports, Opening, Braces;
    match msg
    case JsonRpc(methodName, params, result) =>
      HitsIff(m, INTROSPECTION_PATTERNS, Introspection, "method", methodName, 1.0, t);
      TextIff(m, "params", params, 1.0, t);
      if result.Some? { LeakIff(m, "result", result.value, t); }
    case Mcp(_, _, content, calls, blocks, results, items) =>
      TextIff(m, "content", content, Boost(msg), t);
      CallsIff(m, calls, t);
      BlocksIff(m, blocks, t);
      ResultsIff(m, results, t);
      ItemsIff(m, items, t);
    case GraphQl(query, variables) =>
      BracesAreCounted(query);
      HitsIff(m, INTROSPECTION_PATTERNS, Introspection, "query", query, 1.0, t);
      TextIff(m, "query", query, 1.0, t);
      TextIff(m, "variables", variables, 1.0, t);
    case MultiAgent(actionType, toolName, payload) =>
      TextIff(m, "payload", payload, 1.0, t);
      LeakIff(m, actionType, payload, t);
    case Unknown(body) =>
      TextIff(m, "raw_body", body[..if |body| < 4096 then |body| else 4096], 1.0, t);
      assert |body| <= 4096 ==> body[..|body|] == body;
  }

  /** No pattern's threat, nor that of a tool, says that a message is too large or that methods are enumerated. */
  lemma ReportCategories(m: Matcher, msg: Message, uniqueMethods: nat, t: Threat)
    requires Reports(m, msg, uniqueMethods, t)
    ensures t.category == OversizedPayload <==> msg.GraphQl? && DepthReports(msg.query, t)
    ensures t.category == MethodEnum <==> msg.JsonRpc? && EnumerationReports(msg.methodName, uniqueMethods, t)
  {
    hide Opening, TOOL_ABUSE_NAMES, INJECTION_PATTERNS, INTROSPECTION_PATTERNS, EXFILTRATION_PATTERNS;
  }

  lemma OversizedIff(m: Matcher, msg: Message, uniqueMethods: nat)
    ensures (exists t :: t in MessageThreats(m, msg, uniqueMethods) && t.category == OversizedPayload)
      <==> msg.GraphQl? && Opening(msg.query) > 15
  {
    hide Opening, MessageThreats, Reports;
    forall t | t in MessageThreats(m, msg, uniqueMethods) && t.category == OversizedPayload
      ensures msg.GraphQl? && Opening(msg.query) > 15
    {
      ThreatsAreReports(m, msg, uniqueMethods, t);
      ReportCategories(m, msg, uniqueMethods, t);
    }
    if msg.GraphQl? && Opening(msg.query) > 15 {
      var severity := if Opening(msg.query) > 30 then High else Medium;
      var t := Threat(OversizedPayload, "query", severity, 0.80, "graphql_deep_nesting");
      DepthIsReported(m, msg, uniqueMethods, t);
      ThreatsAreReports(m, msg, uniqueMethods, t);
    }
  }

  lemma DepthIsReported(m: Matcher, msg: Message, uniqueMethods: nat, t: Threat)
    requires msg.GraphQl? && DepthReports(msg.query, t)
    ensures Reports(m, msg, uniqueMethods, t)
  {
  }

  predicate ReportsEnumeration(threats: seq<Threat>) {
    exists t :: t in threats && t.category == MethodEnum
  }

  /** Method enumeration is reported of a JSON-RPC call with a name, from 8 methods on, and of nothing else. */
  lemma EnumerationIff(m: Matcher, msg: Message, uniqueMethods: nat)
    ensures ReportsEnumeration(MessageThreats(m, msg, uniqueMethods))
      <==> msg.JsonRpc? && msg.methodName != "" && uniqueMethods >= 8
  {
    hide MessageThreats, Reports;
    forall t | t in MessageThreats(m, msg, uniqueMethods) && t.category == MethodEnum
      ensures msg.JsonRpc? && msg.methodName != "" && uniqueMethods >= 8
    {
      ThreatsAreReports(m, msg, uniqueMethods, t);
      ReportCategories(m, msg, uniqueMethods, t);
    }
    if msg.JsonRpc? && msg.methodName != "" && uniqueMethods >= 8 {
      var t := Threat(MethodEnum, "method", High, 0.88, "method_enumeration");
      EnumerationIsReported(m, msg, uniqueMethods, t);
      ThreatsAreReports(m, msg, uniqueMethods, t);
    }
  }

  lemma EnumerationIsReported(m: Matcher, msg: Message, uniqueMethods: nat, t: Threat)
    requires msg.JsonRpc? && EnumerationReports(msg.methodName, uniqueMethods, t)
    ensures Reports(m, msg, uniqueMethods, t)
  {
  }

  // ----- what they are worth

  /** Severity by boosted confidence, times that confidence, at most 1. */
  function Points(p: Pattern, boost: real): real {
    var confidence := p.confidence * boost;
    (if confidence >= 0.95 then 40.0 else if confidence >= 0.85 then 20.0 else if confidence >= 0.70 then 10.0 else 4.0)
    * (if confidence < 1.0 then confidence else 1.0)
  }

  function PatternPoints(m: Matcher, patterns: seq<Pattern>, text: string, boost: real): real {
    if patterns == [] then 0.0
    else
      var p := patterns[|patterns| - 1];
      PatternPoints(m, patterns[..|patterns| - 1], text, boost)
      + if m(p, text) then Points(p, boost) else 0.0
  }

  function TextPoints(m: Matcher, text: string, boost: real): real {
    if text == "" then 0.0
    else PatternPoints(m, INJECTION_PATTERNS, text, boost) + PatternPoints(m, INTROSPECTION_PATTERNS, text, 1.0)
  }

  function LeakPoints(m: Matcher, text: string): real {
    if text == "" then 0.0 else PatternPoints(m, EXFILTRATION_PATTERNS, text, 1.0)
  }

  function CallsPoints(m: Matcher, calls: seq<ToolCall>): real {
    if calls == [] then 0.0
    else
      var call := calls[|calls| - 1];
      CallsPoints(m, calls[..|calls| - 1]) + (if call.name in TOOL_ABUSE_NAMES then 38.0 else 0.0)
      + TextPoints(m, call.parameters, 1.0)
  }

  function TextsPoints(m: Matcher, texts: seq<string>): real {
    if texts == [] then 0.0
    else TextsPoints(m, texts[..|texts| - 1]) + TextPoints(m, texts[|texts| - 1], 1.0)
  }

  function LeaksPoints(m: Matcher, texts: seq<string>): real {
    if texts == [] then 0.0 else LeaksPoints(m, texts[..|texts| - 1]) + LeakPoints(m, texts[|texts| - 1])
  }

  /** The uncapped score of a message without its threats; the probes in a GraphQL query count twice. */
  function MessagePoints(m: Matcher, msg: Message, uniqueMethods: nat): real {
    match msg
    case JsonRpc(methodName, params, result) =>
      (if methodName != "" && uniqueMethods >= 8 then 20.0 else 0.0)
      + PatternPoints(m, INTROSPECTION_PATTERNS, methodName, 1.0) + TextPoints(m, params, 1.0)
      + if result.Some? then LeakPoints(m, result.value) else 0.0
    case Mcp(msgType, role, content, calls, blocks, results, items) =>
      TextPoints(m, content, if role == "system" || msgType == "system" then 1.5 else 1.0)
      + CallsPoints(m, calls) + TextsPoints(m, blocks) + LeaksPoints(m, results) + TextsPoints(m, items)
    case GraphQl(query, variables) =>
      PatternPoints(m, INTROSPECTION_PATTERNS, query, 1.0) + TextPoints(m, query, 1.0) + TextPoints(m, variables, 1.0)
      + if Opening(query) > 30 then 16.0 else if Opening(query) > 15 then 8.0 else 0.0
    case MultiAgent(actionType, toolName, payload) =>
      (if toolName in TOOL_ABUSE_NAMES then 38.0 else 0.0) + TextPoints(m, payload, 1.0)
      + if actionType in {"memory_write", "retrieval_augmentation"} then LeakPoints(m, payload) else 0.0
    case Unknown(body) => TextPoints(m, body[..if |body| < 4096 then |body| else 4096], 1.0)
  }

  lemma {:induction false} HitsWorth(
    m: Matcher, patterns: seq<Pattern>, category: Category, path: string, text: string, boost: real)
    requires PatternsFit(patterns) && category != MethodEnum
    ensures Total(Hits(m, patterns, category, path, text, boost)) == PatternPoints(m, patterns, text, boost)
  {
    hide Total, Points, Hit, Weight;
    if patterns == [] {
      NothingWorth();
    } else {
      var (n, p) := (|patterns| - 1, patterns[|patterns| - 1]);
      var before := Hits(m, patterns[..n], category, path, text, boost);
      HitsWorth(m, patterns[..n], category, path, text, boost);
      HitWorth(p, category, path, boost);
      TotalExtends(before, Hit(p, category, path, boost));
      assert before + [] == before;
    }
  }

  lemma NothingWorth()
    ensures Total([]) == 0.0
  {
  }

  lemma OneWorth(t: Threat)
    ensures Total([t]) == Weight(t)
  {
    hide Total;
    NothingWorth();
    TotalExtends([], t);
    assert [] + [t] == [t];
  }

  lemma HitWorth(p: Pattern, category: Category, path: string, boost: real)
    requires p.description != "oversized_payload" && category != MethodEnum
    ensures Weight(Hit(p, category, path, boost)) == Points(p, boost)
  {
    var c := p.confidence * boost;
    var hit := Hit(p, category, path, boost);
    assert hit.confidence == if c < 1.0 then c else 1.0;
    assert Weight(hit) == SeverityScore(Classify(c)) * hit.confidence;
  }

  lemma TextWorth(m: Matcher, path: string, text: string, boost: real)
    ensures Total(TextThreats(m, path, text, boost)) == TextPoints(m, text, boost)
  {
    hide Total, Hits, PatternPoints;
    NothingWorth();
    TablesFit();
    HitsWorth(m, INJECTION_PATTERNS, PromptInjection, path, text, boost);
    HitsWorth(m, INTROSPECTION_PATTERNS, Introspection, path, text, 1.0);
    TotalConcat(Hits(m, INJECTION_PATTERNS, PromptInjection, path, text, boost),
                Hits(m, INTROSPECTION_PATTERNS, Introspection, path, text, 1.0));
  }

  lemma LeakWorth(m: Matcher, path: string, text: string)
    ensures Total(LeakThreats(m, path, text)) == LeakPoints(m, text)
  {
    hide Total, Hits, PatternPoints;
    NothingWorth();
    TablesFit();
    HitsWorth(m, EXFILTRATION_PATTERNS, Exfiltration, path, text, 1.0);
  }

  /** Renaming the category does not change the weight of a pattern's threat. */
  lemma PoisonedWorth(threats: seq<Threat>)
    requires AllPlain(threats)
    ensures Total(Poisoned(threats)) == Total(threats)
  {
    hide Sum;
    forall i | 0 <= i < |threats| ensures Weight(Poisoned(threats)[i]) == Weight(threats[i]) {
      assert Plain(threats[i]);
    }
    assert Weights(Poisoned(threats)) == Weights(threats);
  }

  lemma {:induction false} CallsWorth(m: Matcher, calls: seq<ToolCall>)
    ensures Total(CallsThreats(m, calls)) == CallsPoints(m, calls)
  {
    hide Total, TextThreats, TextPoints;
    NothingWorth();
    if calls == [] {
    } else {
      var (n, call) := (|calls| - 1, calls[|calls| - 1]);
      CallsWorth(m, calls[..n]);
      var abuse := Threat(ToolAbuse, Indexed("tool_calls", n) + ".name", Critical, 0.95, "tool_abuse_name");
      var found := TextThreats(m, Indexed("tool_calls", n) + ".params", call.parameters, 1.0);
      TextWorth(m, Indexed("tool_calls", n) + ".params", call.parameters, 1.0);
      OneWorth(abuse);
      TotalConcat([abuse], found);
      TotalConcat(CallsThreats(m, calls[..n]), CallThreats(m, call, n));
      assert [] + found == found;
    }
  }

  lemma {:induction false} BlocksWorth(m: Matcher, blocks: seq<string>)
    ensures Total(BlocksThreats(m, blocks)) == TextsPoints(m, blocks)
  {
    hide Total, TextThreats, TextPoints, Poisoned;
    NothingWorth();
    if blocks == [] {
    } else {
      var n := |blocks| - 1;
      var found := TextThreats(m, Indexed("rag_blocks", n), blocks[n], 1.0);
      BlocksWorth(m, blocks[..n]);
      TextWorth(m, Indexed("rag_blocks", n), blocks[n], 1.0);
      TextThreatsSound(m, Indexed("rag_blocks", n), blocks[n], 1.0);
      PoisonedWorth(found);
      TotalConcat(BlocksThreats(m, blocks[..n]), Poisoned(found));
    }
  }

  lemma {:induction false} ResultsWorth(m: Matcher, results: seq<string>)
    ensures Total(ResultsThreats(m, results)) == LeaksPoints(m, results)
  {
    hide Total, LeakThreats, LeakPoints;
    NothingWorth();
    if results == [] {
    } else {
      var n := |results| - 1;
      ResultsWorth(m, results[..n]);
      LeakWorth(m, Indexed("tool_results", n), results[n]);
      TotalConcat(ResultsThreats(m, results[..n]), LeakThreats(m, Indexed("tool_results", n), results[n]));
    }
  }

  lemma {:induction false} ItemsWorth(m: Matcher, items: seq<string>)
    ensures Total(ItemsThreats(m, items)) == TextsPoints(m, items)
  {
    hide Total, TextThreats, TextPoints;
    NothingWorth();
    if items == [] {
    } else {
      var n := |items| - 1;
      ItemsWorth(m, items[..n]);
      TextWorth(m, Indexed("context_injection", n), items[n], 1.0);
      TotalConcat(ItemsThreats(m, items[..n]), TextThreats(m, Indexed("context_injection", n), items[n], 1.0));
    }
  }

  lemma FourWorth(a: seq<Threat>, b: seq<Threat>, c: seq<Threat>, d: seq<Threat>)
    ensures Total(a + b + c + d) == Total(a) + Total(b) + Total(c) + Total(d)
  {
    hide Total;
    TotalConcat(a, b);
    TotalConcat(a + b, c);
    TotalConcat(a + b + c, d);
  }

  lemma JsonRpcWorth(m: Matcher, msg: Message, uniqueMethods: nat)
    requires msg.JsonRpc?
    ensures Total(MessageThreats(m, msg, uniqueMethods)) == MessagePoints(m, msg, uniqueMethods)
  {
    hide Total, Hits, TextThreats, LeakThreats, PatternPoints, TextPoints, LeakPoints;
    NothingWorth();
    TablesFit();
    OneWorth(Threat(MethodEnum, "method", High, 0.88, "method_enumeration"));
    HitsWorth(m, INTROSPECTION_PATTERNS, Introspection, "method", msg.methodName, 1.0);
    TextWorth(m, "params", msg.params, 1.0);
    if msg.result.Some? { LeakWorth(m, "result", msg.result.value); }
    FourWorth(EnumerationThreats(msg.methodName, uniqueMethods),
              Hits(m, INTROSPECTION_PATTERNS, Introspection, "method", msg.methodName, 1.0),
              TextThreats(m, "params", msg.params, 1.0),
              if msg.result.Some? then LeakThreats(m, "result", msg.result.value) else []);
  }

  lemma McpWorth(m: Matcher, msg: Message)
    requires msg.Mcp?
    ensures Total(MessageThreats(m, msg, 0)) == MessagePoints(m, msg, 0)
  {
    hide Total, TextThreats, TextPoints, CallsThreats, BlocksThreats, ResultsThreats, ItemsThreats;
    hide CallsPoints, TextsPoints, LeaksPoints;
    TextWorth(m, "content", msg.content, Boost(msg));
    CallsWorth(m, msg.toolCalls);
    BlocksWorth(m, msg.ragBlocks);
    ResultsWorth(m, msg.toolResults);
    ItemsWorth(m, msg.contextItems);
    var calls, blocks := CallsThreats(m, msg.toolCalls), BlocksThreats(m, msg.ragBlocks);
    var results, items := ResultsThreats(m, msg.toolResults), ItemsThreats(m, msg.contextItems);
    FourWorth(calls, blocks, results, items);
    TotalConcat(TextThreats(m, "content", msg.content, Boost(msg)), calls + blocks + results + items);
  }

  lemma GraphQlWorth(m: Matcher, msg: Message)
    requires msg.GraphQl?
    ensures Total(MessageThreats(m, msg, 0)) == MessagePoints(m, msg, 0)
  {
    hide Total, Hits, TextThreats, PatternPoints, TextPoints, Opening;
    NothingWorth();
    TablesFit();
    HitsWorth(m, INTROSPECTION_PATTERNS, Introspection, "query", msg.query, 1.0);
    TextWorth(m, "query", msg.query, 1.0);
    TextWorth(m, "variables", msg.variables, 1.0);
    DepthWorth(msg.query);
    FourWorth(Hits(m, INTROSPECTION_PATTERNS, Introspection, "query", msg.query, 1.0),
              TextThreats(m, "query", msg.query, 1.0), TextThreats(m, "variables", msg.variables, 1.0),
              DepthThreats(msg.query));
  }

  lemma DepthWorth(query: string)
    ensures Total(DepthThreats(query)) == if Opening(query) > 30 then 16.0 else if Opening(query) > 15 then 8.0 else 0.0
  {
    hide Total, Opening, Braces;
    BracesAreCounted(query);
    NothingWorth();
    if Opening(query) > 15 { OneWorth(DepthThreats(query)[0]); }
  }

  lemma MultiAgentWorth(m: Matcher, msg: Message)
    requires msg.MultiAgent?
    ensures Total(MessageThreats(m, msg, 0)) == MessagePoints(m, msg, 0)
  {
    hide Total, TextThreats, LeakThreats, TextPoints, LeakPoints;
    NothingWorth();
    var abuse := Threat(ToolAbuse, "tool_name", Critical, 0.95, "multiagent_tool_abuse");
    OneWorth(abuse);
    TextWorth(m, "payload", msg.payload, 1.0);
    LeakWorth(m, msg.actionType, msg.payload);
    var first := if msg.toolName in TOOL_ABUSE_NAMES then [abuse] else [];
    var text := TextThreats(m, "payload", msg.payload, 1.0);
    TotalConcat(first, text);
    TotalConcat(first + text,
                if msg.actionType == "memory_write" || msg.actionType == "retrieval_augmentation"
                then LeakThreats(m, msg.actionType, msg.payload) else []);
  }

  lemma UnknownWorth(m: Matcher, msg: Message)
    requires msg.Unknown?
    ensures Total(MessageThreats(m, msg, 0)) == MessagePoints(m, msg, 0)
  {
    hide Total, TextThreats, TextPoints;
    var start := msg.body[..if |msg.body| < 4096 then |msg.body| else 4096];
    assert |msg.body| <= 4096 ==> start == msg.body;
    TextWorth(m, "raw_body", start, 1.0);
  }

  /** The weighted sum of all threats of a message is that. */
  lemma ThreatsWorth(m: Matcher, msg: Message, uniqueMethods: nat)
    requires !msg.JsonRpc? ==> uniqueMethods == 0
    ensures Total(MessageThreats(m, msg, uniqueMethods)) == MessagePoints(m, msg, uniqueMethods)
  {
    hide Total, MessageThreats, MessagePoints;
    match msg
    case JsonRpc(_, _, _) => JsonRpcWorth(m, msg, uniqueMethods);
    case Mcp(_, _, _, _, _, _, _) => McpWorth(m, msg);
    case GraphQl(_, _) => GraphQlWorth(m, msg);
    case MultiAgent(_, _, _) => MultiAgentWorth(m, msg);
    case Unknown(_) => UnknownWorth(m, msg);
  }

  /** What a parser has accumulated is exactly what the message reports, at its worth. */
  ghost predicate Explained(m: Matcher, msg: Message, uniqueMethods: nat, threats: seq<Threat>, score: real) {
    && (forall t :: t in threats <==> Reports(m, msg, uniqueMethods, t))
    && score == MessagePoints(m, msg, uniqueMethods)
  }

  lemma MessageExplained(m: Matcher, msg: Message, uniqueMethods: nat)
    requires !msg.JsonRpc? ==> uniqueMethods == 0
    ensures var threats := MessageThreats(m, msg, uniqueMethods);
      Explained(m, msg, uniqueMethods, threats, Total(threats))
  {
    hide Total, MessageThreats, MessagePoints, Reports;
    ThreatsWorth(m, msg, uniqueMethods);
    forall t ensures t in MessageThreats(m, msg, uniqueMethods) <==> Reports(m, msg, uniqueMethods, t) {
      ThreatsAreReports(m, msg, uniqueMethods, t);
    }
  }
}
