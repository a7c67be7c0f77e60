/** The per-protocol parsers: each accumulates threats and score the way its code does. */
module ProtocolParsers {
  import opened ThreatScoring
  import opened MethodWindow
  import opened ProtocolThreats
  import opened ProtocolReports

  lemma NextHits(
    m: Matcher, patterns: seq<Pattern>, i: nat, category: Category, path: string, text: string, boost: real)
    requires i < |patterns|
    ensures Hits(m, patterns[..i + 1], category, path, text, boost)
      == Hits(m, patterns[..i], category, path, text, boost)
       + if m(patterns[i], text) then [Hit(patterns[i], category, path, boost)] else []
  {
    assert patterns[..i + 1][..i] == patterns[..i];
  }

  /** A pattern loop that only collects, as in `_evaluate_text` and `_scan_exfiltration`. */
  method ScanPatterns(
    m: Matcher, patterns: seq<Pattern>, category: Category, path: string, text: string, boost: real)
    returns (found: seq<Threat>)
    ensures found == Hits(m, patterns, category, path, text, boost)
  {
    found := [];
    for i := 0 to |patterns|
      invariant found == Hits(m, patterns[..i], category, path, text, boost)
    {
      NextHits(m, patterns, i, category, path, text, boost);
      hide Hits;
      assert found + [] == found;
      var p := patterns[i];
      if m(p, text) {
        var confidence := Boosted(p.confidence, boost);
        found := found + [Threat(category, path, Classify(p.confidence * boost), confidence, p.description)];
      }
    }
    assert patterns[..|patterns|] == patterns;
  }

  method EvaluateText(m: Matcher, path: string, text: string, boost: real) returns (indicators: seq<Threat>)
    ensures indicators == TextThreats(m, path, text, boost)
  {
    if text == "" {
      return [];
    }
    var injections := ScanPatterns(m, INJECTION_PATTERNS, PromptInjection, path, text, boost);
    var probes := ScanPatterns(m, INTROSPECTION_PATTERNS, Introspection, path, text, 1.0);
    indicators := injections + probes;
  }

  method ScanExfiltration(m: Matcher, path: string, text: string) returns (indicators: seq<Threat>)
    ensures indicators == LeakThreats(m, path, text)
  {
    if text == "" {
      return [];
    }
    indicators := ScanPatterns(m, EXFILTRATION_PATTERNS, Exfiltration, path, text, 1.0);
  }

  /** A pattern loop that also adds to the score, as for method names and GraphQL queries. */
  method MatchProbes(
    m: Matcher, patterns: seq<Pattern>, path: string, text: string, threats: seq<Threat>, score: real)
    returns (threats': seq<Threat>, score': real)
    requires score == Total(threats) && PatternsFit(patterns)
    ensures threats' == threats + Hits(m, patterns, Introspection, path, text, 1.0)
    ensures score' == Total(threats')
  {
    threats', score' := threats, score;
    for i := 0 to |patterns|
      invariant threats' == threats + Hits(m, patterns[..i], Introspection, path, text, 1.0)
      invariant score' == Total(threats')
    {
      NextHits(m, patterns, i, Introspection, path, text, 1.0);
      hide Total, Hits;
      var p := patterns[i];
      if m(p, text) {
        var t := Threat(Introspection, path, Classify(p.confidence), p.confidence, p.description);
        ProbeIsHit(p, path);
        TotalExtends(threats', t);
        threats' := threats' + [t];
        score' := score' + SeverityScore(Classify(p.confidence)) * p.confidence;
      }
    }
    assert patterns[..|patterns|] == patterns;
  }

  lemma ProbeIsHit(p: Pattern, path: string)
    requires 0.0 <= p.confidence <= 1.0
    ensures Hit(p, Introspection, path, 1.0)
      == Threat(Introspection, path, Classify(p.confidence), p.confidence, p.description)
  {
  }

  /** `threats.extend(found)` and the sum of severity times confidence that goes with it. */
  method Extend(threats: seq<Threat>, score: real, found: seq<Threat>)
    returns (threats': seq<Threat>, score': real)
    requires score == Total(threats) && AllPlain(found)
    ensures threats' == threats + found && score' == Total(threats')
  {
    threats', score' := threats, score;
    for i := 0 to |found|
      invariant threats' == threats + found[..i]
      invariant score' == Total(threats')
    {
      hide Total;
      TotalExtends(threats', found[i]);
      assert found[..i + 1] == found[..i] + [found[i]];
      assert threats + found[..i + 1] == (threats + found[..i]) + [found[i]];
      threats' := threats' + [found[i]];
      score' := score' + SeverityScore(found[i].severity) * found[i].confidence;
    }
    assert found[..|found|] == found;
  }

  method ExtendText(m: Matcher, path: string, text: string, boost: real, threats: seq<Threat>, score: real)
    returns (threats': seq<Threat>, score': real)
    requires score == Total(threats) && 1.0 <= boost
    ensures threats' == threats + TextThreats(m, path, text, boost) && score' == Total(threats')
  {
    var found := EvaluateText(m, path, text, boost);
    TextThreatsSound(m, path, text, boost);
    threats', score' := Extend(threats, score, found);
  }

  method ExtendLeaks(m: Matcher, path: string, text: string, threats: seq<Threat>, score: real)
    returns (threats': seq<Threat>, score': real)
    requires score == Total(threats)
    ensures threats' == threats + LeakThreats(m, path, text) && score' == Total(threats')
  {
    var found := ScanExfiltration(m, path, text);
    LeakThreatsSound(m, path, text);
    threats', score' := Extend(threats, score, found);
  }

  method ParseJsonRpc(m: Matcher, msg: Message, uniqueMethods: nat) returns (threats: seq<Threat>, score: real)
    requires msg.JsonRpc?
    ensures threats == MessageThreats(m, msg, uniqueMethods) && score == Total(threats)
    ensures Explained(m, msg, uniqueMethods, threats, score)
    ensures ReportsEnumeration(threats) <==> msg.methodName != "" && uniqueMethods >= 8
  {
    hide Reports, MessagePoints, Hits, TextThreats, LeakThreats, Total;
    threats, score := [], 0.0;
    NoThreats();
    TablesFit();
    if msg.methodName != "" && uniqueMethods >= METHOD_ENUM_THRESHOLD {
      var t := Threat(MethodEnum, "method", High, 0.88, "method_enumeration");
      TotalExtends(threats, t);
      threats := threats + [t];
      score := score + SeverityScore(High);
    }
    assert threats == EnumerationThreats(msg.methodName, uniqueMethods);
    threats, score := MatchProbes(m, INTROSPECTION_PATTERNS, "method", msg.methodName, threats, score);
    threats, score := ExtendText(m, "params", msg.params, 1.0, threats, score);
    if msg.result.Some? {
      threats, score := ExtendLeaks(m, "result", msg.result.value, threats, score);
    }
    MessageExplained(m, msg, uniqueMethods);
    EnumerationIff(m, msg, uniqueMethods);
  }

  lemma NoThreats()
    ensures Total([]) == 0.0
  {
  }

  method ParseMcp(m: Matcher, msg: Message) returns (threats: seq<Threat>, score: real)
    requires msg.Mcp?
    ensures threats == MessageThreats(m, msg, 0) && score == Total(threats)
    ensures Explained(m, msg, 0, threats, score)
  {
    hide Reports, MessagePoints, TextThreats, Total, CallsThreats, BlocksThreats, ResultsThreats, ItemsThreats;
    NoThreats();
    threats, score := ExtendText(m, "content", msg.content, if IsSystem(msg) then 1.5 else 1.0, [], 0.0);
    assert threats == TextThreats(m, "content", msg.content, Boost(msg));
    threats, score := ParseCalls(m, msg.toolCalls, threats, score);
    threats, score := ParseBlocks(m, msg.ragBlocks, threats, score);
    threats, score := ParseResults(m, msg.toolResults, threats, score);
    threats, score := ParseItems(m, msg.contextItems, threats, score);
    MessageExplained(m, msg, 0);
  }

  lemma Associate(a: seq<Threat>, b: seq<Threat>, c: seq<Threat>)
    ensures a + (b + c) == (a + b) + c
  {
  }

  lemma NextCalls(m: Matcher, calls: seq<ToolCall>, i: nat)
    requires i < |calls|
    ensures CallsThreats(m, calls[..i + 1]) == CallsThreats(m, calls[..i]) + CallThreats(m, calls[i], i)
  {
    assert calls[..i + 1][..i] == calls[..i];
  }

  method ParseCalls(m: Matcher, calls: seq<ToolCall>, threats: seq<Threat>, score: real)
    returns (threats': seq<Threat>, score': real)
    requires score == Total(threats)
    ensures threats' == threats + CallsThreats(m, calls) && score' == Total(threats')
  {
    threats', score' := threats, score;
    for i := 0 to |calls|
      invariant threats' == threats + CallsThreats(m, calls[..i]) && score' == Total(threats')
    {
      hide Total, CallThreats, CallsThreats;
      NextCalls(m, calls, i);
      threats', score' := ParseCall(m, calls[i], i, threats', score');
      Associate(threats, CallsThreats(m, calls[..i]), CallThreats(m, calls[i], i));
    }
    assert calls[..|calls|] == calls;
  }

  method ParseCall(m: Matcher, call: ToolCall, i: nat, threats: seq<Threat>, score: real)
    returns (threats': seq<Threat>, score': real)
    requires score == Total(threats)
    ensures threats' == threats + CallThreats(m, call, i) && score' == Total(threats')
  {
    hide Total, TextThreats;
    threats', score' := threats, score;
    if call.name in TOOL_ABUSE_NAMES {
      var t := Threat(ToolAbuse, Indexed("tool_calls", i) + ".name", Critical, 0.95, "tool_abuse_name");
      TotalExtends(threats', t);
      threats' := threats' + [t];
      score' := score' + SeverityScore(Critical) * 0.95;
    }
    threats', score' := ExtendText(m, Indexed("tool_calls", i) + ".params", call.parameters, 1.0, threats', score');
  }

  lemma NextBlocks(m: Matcher, blocks: seq<string>, i: nat)
    requires i < |blocks|
    ensures BlocksThreats(m, blocks[..i + 1])
      == BlocksThreats(m, blocks[..i]) + Poisoned(TextThreats(m, Indexed("rag_blocks", i), blocks[i], 1.0))
  {
    assert blocks[..i + 1][..i] == blocks[..i];
  }

  method ParseBlocks(m: Matcher, blocks: seq<string>, threats: seq<Threat>, score: real)
    returns (threats': seq<Threat>, score': real)
    requires score == Total(threats)
    ensures threats' == threats + BlocksThreats(m, blocks) && score' == Total(threats')
  {
    threats', score' := threats, score;
    for i := 0 to |blocks|
      invariant threats' == threats + BlocksThreats(m, blocks[..i]) && score' == Total(threats')
    {
      hide Total, TextThreats, BlocksThreats, Poisoned;
      NextBlocks(m, blocks, i);
      var found := EvaluateText(m, Indexed("rag_blocks", i), blocks[i], 1.0);
      TextThreatsSound(m, Indexed("rag_blocks", i), blocks[i], 1.0);
      threats', score' := Extend(threats', score', Poisoned(found));
      Associate(threats, BlocksThreats(m, blocks[..i]),
                Poisoned(TextThreats(m, Indexed("rag_blocks", i), blocks[i], 1.0)));
    }
    assert blocks[..|blocks|] == blocks;
  }

  lemma NextResults(m: Matcher, results: seq<string>, i: nat)
    requires i < |results|
    ensures ResultsThreats(m, results[..i + 1])
      == ResultsThreats(m, results[..i]) + LeakThreats(m, Indexed("tool_results", i), results[i])
  {
    assert results[..i + 1][..i] == results[..i];
  }

  method ParseResults(m: Matcher, results: seq<string>, threats: seq<Threat>, score: real)
    returns (threats': seq<Threat>, score': real)
    requires score == Total(threats)
    ensures threats' == threats + ResultsThreats(m, results) && score' == Total(threats')
  {
    threats', score' := threats, score;
    for i := 0 to |results|
      invariant threats' == threats + ResultsThreats(m, results[..i]) && score' == Total(threats')
    {
      hide Total, TextThreats, LeakThreats, ResultsThreats;
      NextResults(m, results, i);
      threats', score' := ExtendLeaks(m, Indexed("tool_results", i), results[i], threats', score');
      Associate(threats, ResultsThreats(m, results[..i]), LeakThreats(m, Indexed("tool_results", i), results[i]));
    }
    assert results[..|results|] == results;
  }

  lemma NextItems(m: Matcher, items: seq<string>, i: nat)
    requires i < |items|
    ensures ItemsThreats(m, items[..i + 1])
      == ItemsThreats(m, items[..i]) + TextThreats(m, Indexed("context_injection", i), items[i], 1.0)
  {
    assert items[..i + 1][..i] == items[..i];
  }

  method ParseItems(m: Matcher, items: seq<string>, threats: seq<Threat>, score: real)
    returns (threats': seq<Threat>, score': real)
    requires score == Total(threats)
    ensures threats' == threats + ItemsThreats(m, items) && score' == Total(threats')
  {
    threats', score' := threats, score;
    for i := 0 to |items|
      invariant threats' == threats + ItemsThreats(m, items[..i]) && score' == Total(threats')
    {
      hide Total, TextThreats, LeakThreats, ItemsThreats;
      NextItems(m, items, i);
      threats', score' := ExtendText(m, Indexed("context_injection", i), items[i], 1.0, threats', score');
      Associate(threats, ItemsThreats(m, items[..i]), TextThreats(m, Indexed("context_injection", i), items[i], 1.0));
    }
    assert items[..|items|] == items;
  }

  method ParseGraphQl(m: Matcher, msg: Message) returns (threats: seq<Threat>, score: real)
    requires msg.GraphQl?
    ensures threats == MessageThreats(m, msg, 0) && score == Total(threats)
    ensures Explained(m, msg, 0, threats, score)
  {
    hide Reports, MessagePoints, Hits, TextThreats, Total, Braces;
    NoThreats();
    TablesFit();
    threats, score := MatchProbes(m, INTROSPECTION_PATTERNS, "query", msg.query, [], 0.0);
    threats, score := ExtendText(m, "query", msg.query, 1.0, threats, score);
    threats, score := ExtendText(m, "variables", msg.variables, 1.0, threats, score);
    var depth := Braces(msg.query);
    if depth > 15 {
      var severity := if depth > 30 then High else Medium;
      var t := Threat(OversizedPayload, "query", severity, 0.80, "graphql_deep_nesting");
      TotalExtends(threats, t);
      threats := threats + [t];
      score := score + SeverityScore(severity) * 0.80;
    }
    MessageExplained(m, msg, 0);
  }

  method ParseMultiAgent(m: Matcher, msg: Message) returns (threats: seq<Threat>, score: real)
    requires msg.MultiAgent?
    ensures threats == MessageThreats(m, msg, 0) && score == Total(threats)
    ensures Explained(m, msg, 0, threats, score)
  {
    hide Reports, MessagePoints, TextThreats, LeakThreats, Total;
    threats, score := [], 0.0;
    NoThreats();
    if msg.toolName in TOOL_ABUSE_NAMES {
      var t := Threat(ToolAbuse, "tool_name", Critical, 0.95, "multiagent_tool_abuse");
      TotalExtends(threats, t);
      threats := threats + [t];
      score := score + SeverityScore(Critical) * 0.95;
    }
    threats, score := ExtendText(m, "payload", msg.payload, 1.0, threats, score);
    if msg.actionType == "memory_write" || msg.actionType == "retrieval_augmentation" {
      threats, score := ExtendLeaks(m, msg.actionType, msg.payload, threats, score);
    }
    MessageExplained(m, msg, 0);
  }

  method ParseUnknown(m: Matcher, msg: Message) returns (threats: seq<Threat>, score: real)
    requires msg.Unknown?
    ensures threats == MessageThreats(m, msg, 0) && score == Total(threats)
    ensures Explained(m, msg, 0, threats, score)
  {
    hide Reports, MessagePoints;
    NoThreats();
    var head := if |msg.body| <= UNKNOWN_PREFIX then msg.body else msg.body[..UNKNOWN_PREFIX];
    threats, score := ExtendText(m, "raw_body", head, 1.0, [], 0.0);
    assert threats == TextThreats(m, "raw_body", head, 1.0);
    MessageExplained(m, msg, 0);
  }
}
