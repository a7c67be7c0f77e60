/**
 The queues, workers and statistics of `DualPassEvaluator` between `start` and `stop`, as a state
 machine whose steps are the stretches of code between awaits.
 */
module EvaluationPipeline {
  import opened Wrappers
  import opened BoundedDeque
  import opened ThreatScoring
  import opened EvaluationPasses

  const QUEUE_SIZE := 500
  const HISTORY_LENGTH := 1000

  datatype Outcome = Evaluated(context: Context, result: EvaluationResult) | Errored(context: Context)

  datatype Submission = Submission(context: Context, dropped: bool)

  /**
   One pass: its bounded queue, the context its worker holds, its counters, and the logs of all
   submissions and of all outcomes.
   */
  datatype Lane = Lane(
    queue: seq<Context>, held: Option<Context>,
    total: nat, flagged: nat, blocked: nat,
    submissions: seq<Submission>, outcomes: seq<Outcome>)

  datatype Topic = ResultTopic | FlaggedTopic | BlockedTopic

  datatype Message = Message(topic: Topic, result: EvaluationResult)

  datatype Pipeline = Pipeline(
    pre: Lane, post: Lane, history: seq<EvaluationResult>, results: seq<EvaluationResult>, bus: seq<Message>)

  function EmptyLane(): Lane {
    Lane([], None, 0, 0, 0, [], [])
  }

  function Start(): Pipeline {
    Pipeline(EmptyLane(), EmptyLane(), [], [], [])
  }

  datatype Config = Config(matcher: Matcher, shadowMode: bool)

  datatype Action =
    | Submit(pass: PassType, context: Context)
    | Take(pass: PassType)
    | Finish(pass: PassType, raised: bool)  // whether the evaluation raised an exception

  function LaneOf(s: Pipeline, p: PassType): Lane {
    if p.Pre? then s.pre else s.post
  }

  function WithLane(s: Pipeline, p: PassType, lane: Lane): Pipeline {
    if p.Pre? then s.(pre := lane) else s.(post := lane)
  }

  /** A worker takes only when it holds nothing, and finishes only what it holds. */
  predicate Enabled(s: Pipeline, a: Action) {
    match a
    case Submit(_, _) => true
    case Take(p) => LaneOf(s, p).held.None? && LaneOf(s, p).queue != []
    case Finish(p, _) => LaneOf(s, p).held.Some?
  }

  function Submitted(l: Lane, ctx: Context): Lane {
    if |l.queue| < QUEUE_SIZE
    then l.(queue := l.queue + [ctx], submissions := l.submissions + [Submission(ctx, false)])
    else l.(submissions := l.submissions + [Submission(ctx, true)])
  }

  function Taken(l: Lane): Lane
    requires l.queue != []
  {
    l.(queue := l.queue[1..], held := Some(l.queue[0]))
  }

  function Failed(l: Lane): Lane
    requires l.held.Some?
  {
    l.(held := None, outcomes := l.outcomes + [Errored(l.held.value)])
  }

  function Counted(l: Lane, r: EvaluationResult): Lane
    requires l.held.Some?
  {
    l.(held := None,
       total := l.total + 1,
       flagged := if r.action == Flag then l.flagged + 1 else l.flagged,
       blocked := if r.action == Block then l.blocked + 1 else l.blocked,
       outcomes := l.outcomes + [Evaluated(l.held.value, r)])
  }

  function TopicOf(v: Verdict): Topic {
    match v
    case Block => BlockedTopic
    case Flag => FlaggedTopic
    case Allow => ResultTopic
  }

  function Step(c: Config, s: Pipeline, a: Action): Pipeline
    requires Enabled(s, a)
  {
    match a
    case Submit(p, ctx) => WithLane(s, p, Submitted(LaneOf(s, p), ctx))
    case Take(p) => WithLane(s, p, Taken(LaneOf(s, p)))
    case Finish(p, raised) =>
      var lane := LaneOf(s, p);
      if raised then WithLane(s, p, Failed(lane))
      else
        var r := Evaluate(c.matcher, c.shadowMode, p, lane.held.value);
        WithLane(s, p, Counted(lane, r)).(
          history := AppendLeft(s.history, r, HISTORY_LENGTH),
          results := s.results + [r],
          bus := s.bus + [Message(TopicOf(r.action), r)])
  }

  ghost predicate Run(c: Config, s: Pipeline, actions: seq<Action>, s': Pipeline)
    decreases |actions|
  {
    if actions == [] then s' == s
    else Enabled(s, actions[0]) && Run(c, Step(c, s, actions[0]), actions[1..], s')
  }

  // ----- what the logs say

  /** The contexts that were not dropped, in the order of their submission. */
  function Accepted(log: seq<Submission>): seq<Context> {
    if log == [] then []
    else
      var last := log[|log| - 1];
      Accepted(log[..|log| - 1]) + if last.dropped then [] else [last.context]
  }

  function Dropped(log: seq<Submission>): nat {
    if log == [] then 0 else Dropped(log[..|log| - 1]) + if log[|log| - 1].dropped then 1 else 0
  }

  function ContextsOf(outcomes: seq<Outcome>): seq<Context> {
    if outcomes == [] then []
    else ContextsOf(outcomes[..|outcomes| - 1]) + [outcomes[|outcomes| - 1].context]
  }

  function Errors(outcomes: seq<Outcome>): nat {
    if outcomes == [] then 0
    else Errors(outcomes[..|outcomes| - 1]) + if outcomes[|outcomes| - 1].Errored? then 1 else 0
  }

  function WithVerdict(outcomes: seq<Outcome>, v: Verdict): nat {
    if outcomes == [] then 0
    else
      var last := outcomes[|outcomes| - 1];
      WithVerdict(outcomes[..|outcomes| - 1], v) + if last.Evaluated? && last.result.action == v then 1 else 0
  }

  /** The results of one lane, in order. */
  function ResultsOf(outcomes: seq<Outcome>): seq<EvaluationResult> {
    if outcomes == [] then []
    else
      var last := outcomes[|outcomes| - 1];
      ResultsOf(outcomes[..|outcomes| - 1]) + if last.Evaluated? then [last.result] else []
  }

  function OfPass(results: seq<EvaluationResult>, p: PassType): seq<EvaluationResult> {
    if results == [] then []
    else
      var last := results[|results| - 1];
      OfPass(results[..|results| - 1], p) + if last.passType == p then [last] else []
  }

  function Held(l: Lane): seq<Context> {
    if l.held.Some? then [l.held.value] else []
  }

  // ----- the invariant

  ghost predicate QueueInvariant(l: Lane) {
    && |l.queue| <= QUEUE_SIZE
    && ContextsOf(l.outcomes) + Held(l) + l.queue == Accepted(l.submissions)
    && |Accepted(l.submissions)| + Dropped(l.submissions) == |l.submissions|
  }

  ghost predicate CountInvariant(c: Config, p: PassType, l: Lane) {
    && l.total + Errors(l.outcomes) == |l.outcomes|
    && l.flagged == WithVerdict(l.outcomes, Flag) && l.blocked == WithVerdict(l.outcomes, Block)
    && l.flagged + l.blocked <= l.total
    && (forall i :: 0 <= i < |l.outcomes| && l.outcomes[i].Evaluated? ==>
         l.outcomes[i].result == Evaluate(c.matcher, c.shadowMode, p, l.outcomes[i].context))
    && (c.shadowMode ==> l.blocked == 0)
  }

  ghost predicate LaneInvariant(c: Config, p: PassType, l: Lane) {
    QueueInvariant(l) && CountInvariant(c, p, l)
  }

  ghost predicate OutputInvariant(c: Config, s: Pipeline) {
    && s.history == Newest(s.results, HISTORY_LENGTH)
    && OfPass(s.results, Pre) == ResultsOf(s.pre.outcomes)
    && OfPass(s.results, Post) == ResultsOf(s.post.outcomes)
    && (c.shadowMode ==> forall i :: 0 <= i < |s.results| ==> s.results[i].action != Block)
    && |s.bus| == |s.results|
    && forall i :: 0 <= i < |s.bus| ==> s.bus[i] == Message(TopicOf(s.results[i].action), s.results[i])
  }

  ghost predicate Invariant(c: Config, s: Pipeline) {
    LaneInvariant(c, Pre, s.pre) && LaneInvariant(c, Post, s.post) && OutputInvariant(c, s)
  }

  lemma SubmittedKeeps(c: Config, p: PassType, l: Lane, ctx: Context)
    requires LaneInvariant(c, p, l)
    ensures LaneInvariant(c, p, Submitted(l, ctx))
  {
    hide ContextsOf, Errors, WithVerdict, Evaluate;
    var l' := Submitted(l, ctx);
    assert l'.submissions[..|l.submissions|] == l.submissions;
    assert Accepted(l.submissions) + [] == Accepted(l.submissions);
    assert ContextsOf(l.outcomes) + Held(l) + (l.queue + [ctx]) == (ContextsOf(l.outcomes) + Held(l) + l.queue) + [ctx];
  }

  lemma TakenKeeps(c: Config, p: PassType, l: Lane)
    requires LaneInvariant(c, p, l) && l.held.None? && l.queue != []
    ensures LaneInvariant(c, p, Taken(l))
  {
  }

  lemma OutcomeGrows(outcomes: seq<Outcome>, o: Outcome)
    ensures var longer := outcomes + [o];
      && ContextsOf(longer) == ContextsOf(outcomes) + [o.context]
      && Errors(longer) == Errors(outcomes) + (if o.Errored? then 1 else 0)
      && ResultsOf(longer) == ResultsOf(outcomes) + (if o.Evaluated? then [o.result] else [])
      && forall v :: WithVerdict(longer, v)
           == WithVerdict(outcomes, v) + if o.Evaluated? && o.result.action == v then 1 else 0
  {
  }

  /** Finishing what the worker holds, one way or the other, keeps the order of the contexts. */
  lemma OutcomeKeepsQueue(l: Lane, l': Lane, o: Outcome)
    requires QueueInvariant(l) && l.held == Some(o.context)
    requires l'.queue == l.queue && l'.submissions == l.submissions && l'.held.None?
    requires l'.outcomes == l.outcomes + [o]
    ensures QueueInvariant(l')
  {
  }

  lemma FailedKeeps(c: Config, p: PassType, l: Lane)
    requires LaneInvariant(c, p, l) && l.held.Some?
    ensures LaneInvariant(c, p, Failed(l))
  {
    hide QueueInvariant, ContextsOf, Errors, WithVerdict, Evaluate, ResultsOf;
    OutcomeKeepsQueue(l, Failed(l), Errored(l.held.value));
    OutcomeGrows(l.outcomes, Errored(l.held.value));
  }

  lemma ShadowNeverBlocks(c: Config, p: PassType, ctx: Context)
    ensures c.shadowMode ==> Evaluate(c.matcher, true, p, ctx).action != Block
    ensures Evaluate(c.matcher, c.shadowMode, p, ctx).passType == p
  {
  }

  lemma CountedKeeps(c: Config, p: PassType, l: Lane)
    requires LaneInvariant(c, p, l) && l.held.Some?
    ensures LaneInvariant(c, p, Counted(l, Evaluate(c.matcher, c.shadowMode, p, l.held.value)))
  {
    var r := Evaluate(c.matcher, c.shadowMode, p, l.held.value);
    OutcomeKeepsQueue(l, Counted(l, r), Evaluated(l.held.value, r));
    OutcomeGrows(l.outcomes, Evaluated(l.held.value, r));
    ShadowNeverBlocks(c, p, l.held.value);
    hide QueueInvariant, ContextsOf, Errors, WithVerdict, Evaluate, ResultsOf;
  }

  lemma ResultGrows(results: seq<EvaluationResult>, r: EvaluationResult)
    ensures Newest(results + [r], HISTORY_LENGTH) == AppendLeft(Newest(results, HISTORY_LENGTH), r, HISTORY_LENGTH)
    ensures forall p :: OfPass(results + [r], p) == OfPass(results, p) + if r.passType == p then [r] else []
  {
  }

  /** A lane whose results stay the same leaves the outputs alone. */
  lemma SameResultsKeepOutput(c: Config, s: Pipeline, p: PassType, lane: Lane)
    requires OutputInvariant(c, s) && ResultsOf(lane.outcomes) == ResultsOf(LaneOf(s, p).outcomes)
    ensures OutputInvariant(c, WithLane(s, p, lane))
  {
  }

  lemma ResultKeepsOutput(c: Config, s: Pipeline, p: PassType, lane: Lane, r: EvaluationResult)
    requires OutputInvariant(c, s) && r.passType == p && (c.shadowMode ==> r.action != Block)
    requires ResultsOf(lane.outcomes) == ResultsOf(LaneOf(s, p).outcomes) + [r]
    ensures OutputInvariant(c, WithLane(s, p, lane).(
      history := AppendLeft(s.history, r, HISTORY_LENGTH),
      results := s.results + [r],
      bus := s.bus + [Message(TopicOf(r.action), r)]))
  {
    ResultGrows(s.results, r);
    hide ResultsOf, OfPass, Newest, AppendLeft, TopicOf;
    assert forall q :: OfPass(s.results, q) + [] == OfPass(s.results, q);
  }

  lemma FailedKeepsOutput(c: Config, s: Pipeline, p: PassType)
    requires OutputInvariant(c, s) && LaneOf(s, p).held.Some?
    ensures OutputInvariant(c, WithLane(s, p, Failed(LaneOf(s, p))))
  {
  }

  lemma EvaluatedKeepsOutput(c: Config, s: Pipeline, p: PassType)
    requires OutputInvariant(c, s) && LaneOf(s, p).held.Some?
    ensures OutputInvariant(c, Step(c, s, Finish(p, false)))
  {
    hide OutputInvariant, ResultsOf, ContextsOf, Errors, WithVerdict, Evaluate, TopicOf, AppendLeft;
    var lane := LaneOf(s, p);
    var r := Evaluate(c.matcher, c.shadowMode, p, lane.held.value);
    OutcomeGrows(lane.outcomes, Evaluated(lane.held.value, r));
    ShadowNeverBlocks(c, p, lane.held.value);
    ResultKeepsOutput(c, s, p, Counted(lane, r), r);
  }

  lemma StepKeeps(c: Config, s: Pipeline, a: Action)
    requires Invariant(c, s) && Enabled(s, a)
    ensures Invariant(c, Step(c, s, a))
  {
    hide LaneInvariant, OutputInvariant;
    var lane := LaneOf(s, a.pass);
    match a
    case Submit(p, ctx) =>
      SubmittedKeeps(c, p, lane, ctx);
      SameResultsKeepOutput(c, s, p, Submitted(lane, ctx));
    case Take(p) =>
      TakenKeeps(c, p, lane);
      SameResultsKeepOutput(c, s, p, Taken(lane));
    case Finish(p, raised) =>
      if raised {
        FailedKeeps(c, p, lane);
        FailedKeepsOutput(c, s, p);
      } else {
        CountedKeeps(c, p, lane);
        EvaluatedKeepsOutput(c, s, p);
      }
  }

  lemma {:induction false} RunKeeps(c: Config, s: Pipeline, actions: seq<Action>, s': Pipeline)
    requires Invariant(c, s) && Run(c, s, actions, s')
    ensures Invariant(c, s')
    decreases |actions|
  {
    if actions == [] {
    } else {
      StepKeeps(c, s, actions[0]);
      RunKeeps(c, Step(c, s, actions[0]), actions[1..], s');
    }
  }

  lemma StartFits(c: Config)
    ensures Invariant(c, Start())
  {
    hide Evaluate, TopicOf;
  }

  // ----- main results

  lemma {:induction false} ContextsLength(outcomes: seq<Outcome>)
    ensures |ContextsOf(outcomes)| == |outcomes|
  {
    if outcomes == [] {
    } else {
      ContextsLength(outcomes[..|outcomes| - 1]);
    }
  }

  /** Submissions = dropped + queued + held + evaluated + errored, and the queue never exceeds its bound. */
  lemma Conservation(c: Config, actions: seq<Action>, s: Pipeline, p: PassType)
    requires Run(c, Start(), actions, s)
    ensures var l := LaneOf(s, p);
      && |l.submissions| == Dropped(l.submissions) + |l.queue| + |Held(l)| + l.total + Errors(l.outcomes)
      && |l.queue| <= QUEUE_SIZE
      && l.flagged == WithVerdict(l.outcomes, Flag) && l.blocked == WithVerdict(l.outcomes, Block)
      && l.flagged + l.blocked <= l.total
      && (c.shadowMode ==> l.blocked == 0)
  {
    StartFits(c);
    RunKeeps(c, Start(), actions, s);
    ContextsLength(LaneOf(s, p).outcomes);
  }

  /** Contexts are finished in the order of submission, with the dropped ones left out. */
  lemma EvaluationOrder(c: Config, actions: seq<Action>, s: Pipeline, p: PassType)
    requires Run(c, Start(), actions, s)
    ensures var l := LaneOf(s, p);
      && ContextsOf(l.outcomes) <= Accepted(l.submissions)
      && (l.queue == [] && l.held.None? ==> ContextsOf(l.outcomes) == Accepted(l.submissions))
      && forall i :: 0 <= i < |l.outcomes| && l.outcomes[i].Evaluated? ==>
           l.outcomes[i].result == Evaluate(c.matcher, c.shadowMode, p, l.outcomes[i].context)
  {
    StartFits(c);
    RunKeeps(c, Start(), actions, s);
    hide ContextsOf, Accepted;
    var l := LaneOf(s, p);
    assert ContextsOf(l.outcomes) + Held(l) + l.queue == Accepted(l.submissions);
  }

  /** The history shows the newest 1000 results of both passes, and each pass's results appear in its own order. */
  lemma HistoryIsNewest(c: Config, actions: seq<Action>, s: Pipeline)
    requires Run(c, Start(), actions, s)
    ensures s.history == Newest(s.results, 1000)
    ensures OfPass(s.results, Pre) == ResultsOf(s.pre.outcomes) && OfPass(s.results, Post) == ResultsOf(s.post.outcomes)
    ensures |s.bus| == |s.results|
    ensures forall i :: 0 <= i < |s.bus| ==>
      && s.bus[i].result == s.results[i]
      && (s.bus[i].topic == BlockedTopic <==> s.results[i].action == Block)
      && (s.bus[i].topic == FlaggedTopic <==> s.results[i].action == Flag)
    ensures c.shadowMode ==> forall i :: 0 <= i < |s.bus| ==> s.bus[i].topic != BlockedTopic
  {
    hide LaneInvariant, Run, Newest, OfPass, ResultsOf, Evaluate, Held;
    StartFits(c);
    RunKeeps(c, Start(), actions, s);
    forall i | 0 <= i < |s.bus| ensures s.bus[i] == Message(TopicOf(s.results[i].action), s.results[i]) {
    }
  }

  lemma {:induction false} RunExtends(c: Config, s: Pipeline, actions: seq<Action>, s': Pipeline, a: Action)
    requires Run(c, s, actions, s') && Enabled(s', a)
    ensures Run(c, s, actions + [a], Step(c, s', a))
    decreases |actions|
  {
    if actions == [] {
      assert [a][1..] == [];
    } else {
      RunExtends(c, Step(c, s, actions[0]), actions[1..], s', a);
      assert (actions + [a])[1..] == actions[1..] + [a];
    }
  }
}
