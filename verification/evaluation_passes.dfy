/** The two passes of `DualPassEvaluator` over the flattened fields of one context. */
module EvaluationPasses {
  import opened ThreatScoring
  import opened FieldTree

  const MAX_CONTEXT_SIZE := 128 * 1024

  /** An entry of the pattern tables without its regular expression. */
  datatype Rule = Rule(description: string, confidence: real, severity: Severity)

  const PRE_RULES: seq<Rule> := [
    Rule("instruction override", 0.97, Critical),
    Rule("context wipe attempt", 0.95, Critical),
    Rule("persona hijack", 0.95, Critical),
    Rule("synthetic system tag", 0.90, High),
    Rule("INST-tag injection", 0.92, High),
    Rule("tokenizer injection", 0.96, Critical),
    Rule("prompt exfiltration call", 0.93, High),
    Rule("prompt reveal call", 0.91, High),
    Rule("context boundary break", 0.88, High),
    Rule("alignment bypass", 0.93, Critical),
    Rule("safety bypass", 0.96, Critical),
    Rule("limit removal", 0.90, High),
    Rule("prompt replacement", 0.92, Critical),
    Rule("attack simulation", 0.85, High),
    Rule("code eval in prompt", 0.88, High),
    Rule("code exec in prompt", 0.88, High),
    Rule("dynamic import in prompt", 0.90, Critical),
    Rule("OS command in prompt", 0.93, Critical)]

  const POST_RULES: seq<Rule> := [
    Rule("AWS access key", 0.98, Critical),
    Rule("OpenAI/API secret key", 0.97, Critical),
    Rule("private key material", 0.99, Critical),
    Rule("password in response", 0.85, High),
    Rule("auth token in response", 0.82, High),
    Rule("large base64 blob", 0.65, Medium),
    Rule("recursive instruction", 0.88, High),
    Rule("response priming", 0.82, High),
    Rule("persistent directive injection", 0.80, Medium),
    Rule("OS command in response", 0.92, Critical),
    Rule("destructive subprocess", 0.94, Critical),
    Rule("remote code execution URL", 0.95, Critical),
    Rule("RCE via wget", 0.94, Critical),
    Rule("US SSN pattern", 0.90, High),
    Rule("Visa card number pattern", 0.85, High),
    Rule("Mastercard number pattern", 0.85, High)]

  datatype PassType = Pre | Post

  function Rules(p: PassType): seq<Rule> {
    if p.Pre? then PRE_RULES else POST_RULES
  }

  /** What the model leaves open: which rule matches which text, and how long a text is in UTF-8. */
  datatype Matcher = Matcher(matches: (Rule, string) -> bool, byteLength: string -> nat)

  datatype EvalFlag = EvalFlag(path: string, rule: string, severity: Severity, confidence: real)

  function Weight(f: EvalFlag): real {
    SeverityScore(f.severity) * f.confidence
  }

  function Weights(flags: seq<EvalFlag>): seq<real> {
    Weighed(flags, Weight)
  }

  function TextOf(s: Scalar): string {
    match s
    case Text(value) => value
    case Other(json) => json
  }

  function RuleFlags(m: Matcher, rules: seq<Rule>, f: Field): seq<EvalFlag> {
    if rules == [] then []
    else
      var rule := rules[|rules| - 1];
      RuleFlags(m, rules[..|rules| - 1], f)
      + if m.matches(rule, TextOf(f.scalar))
        then [EvalFlag(f.path, rule.description, rule.severity, rule.confidence)] else []
  }

  /** The flags of one field: only the first pass looks at the size. */
  function FieldFlags(m: Matcher, p: PassType, f: Field): seq<EvalFlag> {
    (if p.Pre? && m.byteLength(TextOf(f.scalar)) > MAX_CONTEXT_SIZE
     then [EvalFlag(f.path, "oversized_context", Medium, 0.80)] else [])
    + RuleFlags(m, Rules(p), f)
  }

  function PassFlags(m: Matcher, p: PassType, fields: seq<Field>): seq<EvalFlag> {
    if fields == [] then []
    else PassFlags(m, p, fields[..|fields| - 1]) + FieldFlags(m, p, fields[|fields| - 1])
  }

  /** The score before the cap. */
  function Score(m: Matcher, p: PassType, fields: seq<Field>): real {
    Sum(Weights(PassFlags(m, p, fields)))
  }

  /** In shadow mode a block is downgraded to a flag. */
  function DecideAction(shadowMode: bool, score: real): Verdict {
    if Decide(score) == Block && shadowMode then Flag else Decide(score)
  }

  datatype Context = Context(contextId: string, sourceIp: string, content: Content)

  datatype EvaluationResult = EvaluationResult(
    contextId: string, passType: PassType, sourceIp: string,
    threatScore: real, action: Verdict, flags: seq<EvalFlag>)

  function Evaluate(m: Matcher, shadowMode: bool, p: PassType, ctx: Context): EvaluationResult {
    var fields := Flatten(ctx.content, "");
    EvaluationResult(
      ctx.contextId, p, ctx.sourceIp, Capped(Score(m, p, fields)),
      DecideAction(shadowMode, Score(m, p, fields)), PassFlags(m, p, fields))
  }

  // ----- the loops

  lemma NextRule(m: Matcher, rules: seq<Rule>, i: nat, f: Field)
    requires i < |rules|
    ensures RuleFlags(m, rules[..i + 1], f) == RuleFlags(m, rules[..i], f)
      + if m.matches(rules[i], TextOf(f.scalar))
        then [EvalFlag(f.path, rules[i].description, rules[i].severity, rules[i].confidence)] else []
  {
    assert rules[..i + 1][..i] == rules[..i];
  }

  /** The pattern loop of both passes for one field. */
  method MatchRules(m: Matcher, rules: seq<Rule>, f: Field, found: seq<EvalFlag>, before: real)
    returns (flags: seq<EvalFlag>, score: real)
    requires before == Sum(Weights(found))
    ensures flags == found + RuleFlags(m, rules, f)
    ensures score == Sum(Weights(flags))
  {
    hide Sum, Weighed, SeverityScore;
    flags, score := found, before;
    ghost var more := [];
    for i := 0 to |rules|
      invariant flags == found + more && more == RuleFlags(m, rules[..i], f)
      invariant score == Sum(Weights(flags))
    {
      NextRule(m, rules, i, f);
      hide RuleFlags;
      assert more + [] == more;
      if m.matches(rules[i], TextOf(f.scalar)) {
        var flag := EvalFlag(f.path, rules[i].description, rules[i].severity, rules[i].confidence);
        WeighedNext(flags, flag, Weight);
        flags, score := flags + [flag], score + SeverityScore(rules[i].severity) * rules[i].confidence;
        more := more + [flag];
      }
    }
    assert rules[..|rules|] == rules;
  }

  /** The field of the first pass that is too large, if it is. */
  method CheckSize(m: Matcher, f: Field, found: seq<EvalFlag>, before: real)
    returns (flags: seq<EvalFlag>, score: real)
    requires before == Sum(Weights(found))
    ensures flags + RuleFlags(m, PRE_RULES, f) == found + FieldFlags(m, Pre, f)
    ensures score == Sum(Weights(flags))
  {
    hide Sum, RuleFlags;
    flags, score := found, before;
    if m.byteLength(TextOf(f.scalar)) > MAX_CONTEXT_SIZE {
      var flag := EvalFlag(f.path, "oversized_context", Medium, 0.80);
      WeighedNext(flags, flag, Weight);
      flags := flags + [flag];
      score := score + SeverityScore(Medium) * 0.80;
    }
  }

  // ----- what is flagged, flag by flag

  /** A flag for a field whose text is too large; only the first pass looks at the size. */
  predicate FlagsSize(m: Matcher, p: PassType, f: Field, flag: EvalFlag) {
    p == Pre && m.byteLength(TextOf(f.scalar)) > 131072
    && flag == EvalFlag(f.path, "oversized_context", Medium, 0.80)
  }

  /** A flag for a rule of the table that matches the text of the field. */
  predicate FlagsRule(m: Matcher, f: Field, rule: Rule, flag: EvalFlag) {
    m.matches(rule, TextOf(f.scalar)) && flag == EvalFlag(f.path, rule.description, rule.severity, rule.confidence)
  }

  ghost predicate FlagsField(m: Matcher, p: PassType, f: Field, flag: EvalFlag) {
    FlagsSize(m, p, f, flag)
    || exists rule :: rule in (if p == Pre then PRE_RULES else POST_RULES) && FlagsRule(m, f, rule, flag)
  }

  ghost predicate FlagsSome(m: Matcher, p: PassType, fields: seq<Field>, flag: EvalFlag) {
    exists f :: f in fields && FlagsField(m, p, f, flag)
  }

  lemma {:induction false} RuleFlagsIff(m: Matcher, rules: seq<Rule>, f: Field, flag: EvalFlag)
    ensures flag in RuleFlags(m, rules, f) <==> exists rule :: rule in rules && FlagsRule(m, f, rule, flag)
  {
    if rules == [] {
    } else {
      var n := |rules| - 1;
      RuleFlagsIff(m, rules[..n], f, flag);
      if FlagsRule(m, f, rules[n], flag) { assert rules[n] in rules; }
    }
  }

  lemma FieldFlagsIff(m: Matcher, p: PassType, f: Field, flag: EvalFlag)
    ensures flag in FieldFlags(m, p, f) <==> FlagsField(m, p, f, flag)
  {
    hide RuleFlags, FlagsRule;
    RuleFlagsIff(m, Rules(p), f, flag);
  }

  /** A pass reports exactly the fields that are too large, if it looks at that, and the rules that match. */
  lemma {:induction false} PassFlagsIff(m: Matcher, p: PassType, fields: seq<Field>, flag: EvalFlag)
    ensures flag in PassFlags(m, p, fields) <==> FlagsSome(m, p, fields, flag)
  {
    hide FieldFlags, FlagsField;
    if fields == [] {
    } else {
      var n := |fields| - 1;
      PassFlagsIff(m, p, fields[..n], flag);
      FieldFlagsIff(m, p, fields[n], flag);
      if FlagsField(m, p, fields[n], flag) { assert fields[n] in fields; }
    }
  }

  /** What the reported flags of a result say about the fields of its context. */
  ghost predicate FlagsExactly(m: Matcher, p: PassType, ctx: Context, flags: seq<EvalFlag>) {
    forall flag :: flag in flags <==> FlagsSome(m, p, Flatten(ctx.content, ""), flag)
  }

  lemma EvaluateFlags(m: Matcher, shadowMode: bool, p: PassType, ctx: Context)
    ensures FlagsExactly(m, p, ctx, Evaluate(m, shadowMode, p, ctx).flags)
  {
    hide PassFlags, FlagsSome, Flatten;
    forall flag
      ensures flag in Evaluate(m, shadowMode, p, ctx).flags <==> FlagsSome(m, p, Flatten(ctx.content, ""), flag)
    {
      PassFlagsIff(m, p, Flatten(ctx.content, ""), flag);
    }
  }

  /** The second pass never reports a size: all its flags are rules of its table. */
  lemma PostNeverFlagsSize(m: Matcher, ctx: Context, flag: EvalFlag)
    requires flag in Evaluate(m, false, Post, ctx).flags
    ensures flag.rule != "oversized_context"
  {
    hide PassFlags;
    EvaluateFlags(m, false, Post, ctx);
    assert FlagsSome(m, Post, Flatten(ctx.content, ""), flag);
    PostRulesNameNoSize();
  }

  lemma PostRulesNameNoSize()
    ensures forall rule :: rule in POST_RULES ==> rule.description != "oversized_context"
  {
  }

  // ----- the score, field by field

  /** Severity times confidence for every rule that matches. */
  function TableScore(m: Matcher, rules: seq<Rule>, text: string): real {
    if rules == [] then 0.0
    else
      var rule := rules[|rules| - 1];
      TableScore(m, rules[..|rules| - 1], text)
      + if m.matches(rule, text) then SeverityScore(rule.severity) * rule.confidence else 0.0
  }

  /** The score of one field without its flags: 8 points for a size, and those of the rules. */
  function FieldScore(m: Matcher, p: PassType, text: string): real {
    (if p == Pre && m.byteLength(text) > 131072 then 8.0 else 0.0)
    + TableScore(m, if p == Pre then PRE_RULES else POST_RULES, text)
  }

  function FieldsScore(m: Matcher, p: PassType, fields: seq<Field>): real {
    if fields == [] then 0.0
    else
      FieldsScore(m, p, fields[..|fields| - 1]) + FieldScore(m, p, TextOf(fields[|fields| - 1].scalar))
  }

  lemma {:induction false} RuleFlagsScore(m: Matcher, rules: seq<Rule>, f: Field)
    ensures Sum(Weights(RuleFlags(m, rules, f))) == TableScore(m, rules, TextOf(f.scalar))
  {
    if rules == [] {
    } else {
      hide Sum, Weighed;
      var (n, rule) := (|rules| - 1, rules[|rules| - 1]);
      RuleFlagsScore(m, rules[..n], f);
      var before := RuleFlags(m, rules[..n], f);
      WeighedNext(before, EvalFlag(f.path, rule.description, rule.severity, rule.confidence), Weight);
      assert before + [] == before;
    }
  }

  lemma WithSizeScore(m: Matcher, rules: seq<Rule>, f: Field)
    ensures Sum(Weights([EvalFlag(f.path, "oversized_context", Medium, 0.80)] + RuleFlags(m, rules, f)))
      == 8.0 + TableScore(m, rules, TextOf(f.scalar))
  {
    hide Sum, Weighed, RuleFlags, TableScore;
    var size := EvalFlag(f.path, "oversized_context", Medium, 0.80);
    RuleFlagsScore(m, rules, f);
    SizeScore(size);
    WeighedConcat([size], RuleFlags(m, rules, f), Weight);
  }

  lemma SizeScore(size: EvalFlag)
    requires size.severity == Medium && size.confidence == 0.80
    ensures Sum(Weights([size])) == 8.0
  {
    assert Weights([size])[..0] == [];
  }

  lemma FieldFlagsScore(m: Matcher, p: PassType, f: Field)
    ensures Sum(Weights(FieldFlags(m, p, f))) == FieldScore(m, p, TextOf(f.scalar))
  {
    hide Sum, Weights, RuleFlags, TableScore;
    RuleFlagsScore(m, Rules(p), f);
    WithSizeScore(m, Rules(p), f);
    assert [] + RuleFlags(m, Rules(p), f) == RuleFlags(m, Rules(p), f);
  }

  /** Both passes score exactly that: each match and each size once. */
  lemma {:induction false} ScoreByField(m: Matcher, p: PassType, fields: seq<Field>)
    ensures Score(m, p, fields) == FieldsScore(m, p, fields)
  {
    hide FieldFlags, FieldScore, Weighed, TextOf;
    if fields == [] {
    } else {
      var (n, last) := (|fields| - 1, fields[|fields| - 1]);
      ScoreByField(m, p, fields[..n]);
      FieldFlagsScore(m, p, last);
      WeighedConcat(PassFlags(m, p, fields[..n]), FieldFlags(m, p, last), Weight);
    }
  }

  method RunPrePass(m: Matcher, shadowMode: bool, ctx: Context) returns (r: EvaluationResult)
    ensures r == Evaluate(m, shadowMode, Pre, ctx) && FlagsExactly(m, Pre, ctx, r.flags)
    ensures r.threatScore == Capped(Sum(Weights(r.flags)))
    ensures r.action == DecideAction(shadowMode, Sum(Weights(r.flags)))
  {
    var fields := IterFields(ctx.content, "");
    var flags, score := PreFlags(m, fields);
    EvaluateFlags(m, shadowMode, Pre, ctx);
    r := EvaluationResult(ctx.contextId, Pre, ctx.sourceIp, Capped(score), DecideAction(shadowMode, score), flags);
  }

  /** The field loop of `_run_pre_pass`. */
  method PreFlags(m: Matcher, fields: seq<Field>) returns (flags: seq<EvalFlag>, score: real)
    ensures flags == PassFlags(m, Pre, fields) && score == Sum(Weights(flags))
  {
    flags, score := [], 0.0;
    for i := 0 to |fields|
      invariant flags == PassFlags(m, Pre, fields[..i])
      invariant score == Sum(Weights(flags))
    {
      hide Sum, RuleFlags, FieldFlags;
      assert fields[..i + 1][..i] == fields[..i];
      flags, score := CheckSize(m, fields[i], flags, score);
      flags, score := MatchRules(m, PRE_RULES, fields[i], flags, score);
    }
    assert fields[..|fields|] == fields;
  }

  method RunPostPass(m: Matcher, shadowMode: bool, ctx: Context) returns (r: EvaluationResult)
    ensures r == Evaluate(m, shadowMode, Post, ctx) && FlagsExactly(m, Post, ctx, r.flags)
    ensures r.threatScore == Capped(Sum(Weights(r.flags)))
    ensures r.action == DecideAction(shadowMode, Sum(Weights(r.flags)))
  {
    var fields := IterFields(ctx.content, "");
    var flags, score := PostFlags(m, fields);
    EvaluateFlags(m, shadowMode, Post, ctx);
    r := EvaluationResult(ctx.contextId, Post, ctx.sourceIp, Capped(score), DecideAction(shadowMode, score), flags);
  }

  /** The field loop of `_run_post_pass`. */
  method PostFlags(m: Matcher, fields: seq<Field>) returns (flags: seq<EvalFlag>, score: real)
    ensures flags == PassFlags(m, Post, fields) && score == Sum(Weights(flags))
  {
    flags, score := [], 0.0;
    for i := 0 to |fields|
      invariant flags == PassFlags(m, Post, fields[..i])
      invariant score == Sum(Weights(flags))
    {
      hide Sum, RuleFlags;
      assert fields[..i + 1][..i] == fields[..i];
      flags, score := MatchRules(m, POST_RULES, fields[i], flags, score);
      assert FieldFlags(m, Post, fields[i]) == RuleFlags(m, POST_RULES, fields[i]);
    }
    assert fields[..|fields|] == fields;
  }

  // ----- what the score means

  lemma {:induction false} PassFlagsConcat(m: Matcher, p: PassType, a: seq<Field>, b: seq<Field>)
    ensures PassFlags(m, p, a + b) == PassFlags(m, p, a) + PassFlags(m, p, b)
  {
    hide FieldFlags;
    if b == [] {
      assert a + b == a;
    } else {
      assert (a + b)[..|a + b| - 1] == a + b[..|b| - 1];
      PassFlagsConcat(m, p, a, b[..|b| - 1]);
    }
  }

  /** The score of a list of fields is the sum over its parts. */
  lemma ScoreAdditive(m: Matcher, p: PassType, a: seq<Field>, b: seq<Field>)
    ensures Score(m, p, a + b) == Score(m, p, a) + Score(m, p, b)
  {
    PassFlagsConcat(m, p, a, b);
    WeighedConcat(PassFlags(m, p, a), PassFlags(m, p, b), Weight);
  }

  /** The order in which the fields are visited does not matter. */
  lemma {:induction false} ScoreIgnoresOrder(m: Matcher, p: PassType, a: seq<Field>, b: seq<Field>)
    requires multiset(a) == multiset(b)
    ensures Score(m, p, a) == Score(m, p, b)
    decreases |a|
  {
    if a == [] {
      assert |b| == |multiset(b)| == 0;
    } else {
      hide Score;
      var n := |a| - 1;
      var i := LastInPermutation(a, b);
      ScoreIgnoresOrder(m, p, a[..n], b[..i] + b[i + 1..]);
      ScoreWithout(m, p, a, n);
      ScoreWithout(m, p, b, i);
      assert a[..n] + a[n + 1..] == a[..n];
    }
  }

  lemma ScoreWithout(m: Matcher, p: PassType, fields: seq<Field>, i: nat)
    requires i < |fields|
    ensures Score(m, p, fields) == Score(m, p, fields[..i] + fields[i + 1..]) + Score(m, p, [fields[i]])
  {
    hide Score;
    assert fields == fields[..i] + ([fields[i]] + fields[i + 1..]);
    ScoreAdditive(m, p, fields[..i], [fields[i]] + fields[i + 1..]);
    ScoreAdditive(m, p, [fields[i]], fields[i + 1..]);
    ScoreAdditive(m, p, fields[..i], fields[i + 1..]);
  }

  lemma RulesWeighPositive(p: PassType)
    ensures forall i :: 0 <= i < |Rules(p)| ==> Rules(p)[i].confidence >= 0.0
  {
  }

  lemma {:induction false} RuleFlagsPositive(m: Matcher, rules: seq<Rule>, f: Field)
    requires forall i :: 0 <= i < |rules| ==> rules[i].confidence >= 0.0
    ensures NonNegative(Weights(RuleFlags(m, rules, f)))
  {
    if rules == [] {
    } else {
      RuleFlagsPositive(m, rules[..|rules| - 1], f);
    }
  }

  lemma {:induction false} PassFlagsPositive(m: Matcher, p: PassType, fields: seq<Field>)
    ensures NonNegative(Weights(PassFlags(m, p, fields)))
  {
    if fields == [] {
    } else {
      var n := |fields| - 1;
      PassFlagsPositive(m, p, fields[..n]);
      RulesWeighPositive(p);
      RuleFlagsPositive(m, Rules(p), fields[n]);
    }
  }

  /** More fields never weaken the verdict, in shadow mode or not. */
  lemma MoreFieldsNeverWeaken(m: Matcher, shadowMode: bool, p: PassType, fields: seq<Field>, more: seq<Field>)
    ensures Rank(DecideAction(shadowMode, Score(m, p, fields)))
      <= Rank(DecideAction(shadowMode, Score(m, p, fields + more)))
  {
    ScoreAdditive(m, p, fields, more);
    PassFlagsPositive(m, p, more);
    SumNonNegative(Weights(PassFlags(m, p, more)));
  }

  /** The verdict can be read off the reported, capped score; shadow mode never blocks. */
  lemma VerdictFromReport(m: Matcher, shadowMode: bool, p: PassType, ctx: Context)
    ensures var r := Evaluate(m, shadowMode, p, ctx);
      && r.action == DecideAction(shadowMode, r.threatScore)
      && 0.0 <= r.threatScore <= 100.0
      && (r.action == Block <==> !shadowMode && r.threatScore >= 60.0)
      && (r.action == Allow <==> r.threatScore < 25.0)
    ensures var score := FieldsScore(m, p, Flatten(ctx.content, ""));
      Evaluate(m, shadowMode, p, ctx).threatScore == if score < 100.0 then score else 100.0
  {
    hide Flatten, FieldsScore, PassFlags, Weighed, Sum;
    ScoreByField(m, p, Flatten(ctx.content, ""));
    PassFlagsPositive(m, p, Flatten(ctx.content, ""));
    SumNonNegative(Weights(PassFlags(m, p, Flatten(ctx.content, ""))));
  }
}
