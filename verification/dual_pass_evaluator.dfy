/** `DualPassEvaluator`: queues, counters and history updated in place by its submitters and its two workers. */
module DualPassEvaluation {
  import opened Wrappers
  import opened BoundedDeque
  import opened ThreatScoring
  import opened EvaluationPasses
  import opened EvaluationPipeline

  class DualPassEvaluator {
    const config: Config
    var preQueue: seq<Context>
    var postQueue: seq<Context>
    // the context each worker has taken and not finished
    var preHeld: Option<Context>
    var postHeld: Option<Context>
    var preTotal: nat
    var postTotal: nat
    var preFlagged: nat
    var postFlagged: nat
    var preBlocked: nat
    var postBlocked: nat
    var history: seq<EvaluationResult>
    var bus: seq<Message>
    // logs the code does not keep, and the run that led here
    ghost var preSubmissions: seq<Submission>
    ghost var postSubmissions: seq<Submission>
    ghost var preOutcomes: seq<Outcome>
    ghost var postOutcomes: seq<Outcome>
    ghost var results: seq<EvaluationResult>
    ghost var actions: seq<Action>

    ghost function PreLane(): Lane
      reads this`preQueue, this`preHeld, this`preTotal, this`preFlagged, this`preBlocked
      reads this`preSubmissions, this`preOutcomes
    {
      Lane(preQueue, preHeld, preTotal, preFlagged, preBlocked, preSubmissions, preOutcomes)
    }

    ghost function PostLane(): Lane
      reads this`postQueue, this`postHeld, this`postTotal, this`postFlagged, this`postBlocked
      reads this`postSubmissions, this`postOutcomes
    {
      Lane(postQueue, postHeld, postTotal, postFlagged, postBlocked, postSubmissions, postOutcomes)
    }

    ghost function State(): Pipeline
      reads this
    {
      Pipeline(PreLane(), PostLane(), history, results, bus)
    }

    ghost predicate Valid()
      reads this
    {
      Run(config, Start(), actions, State())
    }

    /** So every evaluator object conserves its submissions, keeps their order and shows the newest results. */
    lemma ValidIsAccounted()
      requires Valid()
      ensures |preSubmissions| == Dropped(preSubmissions) + |preQueue| + (if preHeld.Some? then 1 else 0)
        + preTotal + Errors(preOutcomes)
      ensures |postSubmissions| == Dropped(postSubmissions) + |postQueue| + (if postHeld.Some? then 1 else 0)
        + postTotal + Errors(postOutcomes)
      ensures |preQueue| <= QUEUE_SIZE && |postQueue| <= QUEUE_SIZE
      ensures preFlagged + preBlocked <= preTotal && postFlagged + postBlocked <= postTotal
      ensures config.shadowMode ==> preBlocked == 0 && postBlocked == 0
      ensures ContextsOf(preOutcomes) <= Accepted(preSubmissions)
      ensures ContextsOf(postOutcomes) <= Accepted(postSubmissions)
      ensures history == Newest(results, HISTORY_LENGTH)
    {
      hide Run, Dropped, Errors, Accepted, ContextsOf, Newest, Evaluate, OfPass, ResultsOf;
      Conservation(config, actions, State(), Pre);
      Conservation(config, actions, State(), Post);
      EvaluationOrder(config, actions, State(), Pre);
      EvaluationOrder(config, actions, State(), Post);
      HistoryIsNewest(config, actions, State());
    }

    /** The state after `start`, which also replaces the queues. */
    constructor (config: Config)
      ensures Valid() && this.config == config && State() == Start()
    {
      this.config := config;
      preQueue, postQueue, preHeld, postHeld := [], [], None, None;
      preTotal, postTotal, preFlagged, postFlagged, preBlocked, postBlocked := 0, 0, 0, 0, 0, 0;
      history, bus := [], [];
      preSubmissions, postSubmissions, preOutcomes, postOutcomes, results, actions := [], [], [], [], [], [];
    }

    ghost method Ran(a: Action, earlier: seq<Action>, before: Pipeline)
      requires Run(config, Start(), earlier, before) && Enabled(before, a) && State() == Step(config, before, a)
      modifies this`actions
      ensures Valid() && State() == old(State()) && actions == earlier + [a]
    {
      RunExtends(config, Start(), earlier, before, a);
      actions := earlier + [a];
    }

    method SubmitPre(ctx: Context)
      requires Valid()
      modifies this
      ensures Valid() && State() == Step(config, old(State()), Submit(Pre, ctx))
      ensures actions == old(actions) + [Submit(Pre, ctx)]
    {
      hide Run;
      var full := |preQueue| >= QUEUE_SIZE;
      if !full {
        preQueue := preQueue + [ctx];
      }
      preSubmissions := preSubmissions + [Submission(ctx, full)];
      Ran(Submit(Pre, ctx), old(actions), old(State()));
    }

    method SubmitPost(ctx: Context)
      requires Valid()
      modifies this
      ensures Valid() && State() == Step(config, old(State()), Submit(Post, ctx))
      ensures actions == old(actions) + [Submit(Post, ctx)]
    {
      hide Run;
      var full := |postQueue| >= QUEUE_SIZE;
      if !full {
        postQueue := postQueue + [ctx];
      }
      postSubmissions := postSubmissions + [Submission(ctx, full)];
      Ran(Submit(Post, ctx), old(actions), old(State()));
    }

    /** The pre-worker gets a context from its queue. */
    method TakePre()
      requires Valid() && preHeld.None? && preQueue != []
      modifies this
      ensures Valid() && State() == Step(config, old(State()), Take(Pre))
      ensures actions == old(actions) + [Take(Pre)]
    {
      hide Run;
      preHeld, preQueue := Some(preQueue[0]), preQueue[1..];
      Ran(Take(Pre), old(actions), old(State()));
    }

    method TakePost()
      requires Valid() && postHeld.None? && postQueue != []
      modifies this
      ensures Valid() && State() == Step(config, old(State()), Take(Post))
      ensures actions == old(actions) + [Take(Post)]
    {
      hide Run;
      postHeld, postQueue := Some(postQueue[0]), postQueue[1..];
      Ran(Take(Post), old(actions), old(State()));
    }

    /** The rest of the turn of the pre-worker; `raises` says whether the evaluation throws. */
    method FinishPre(raises: bool)
      requires Valid() && preHeld.Some?
      modifies this
      ensures Valid() && State() == Step(config, old(State()), Finish(Pre, raises))
      ensures actions == old(actions) + [Finish(Pre, raises)]
    {
      hide Run, Evaluate, Counted, Failed, AppendLeft, TopicOf, Submitted, Taken, Capped, DecideAction, Sum, Weights;
      if raises {
        FailPre();
      } else {
        var result := RunPrePass(config.matcher, config.shadowMode, preHeld.value);
        CountPre(result);
        Publish(result);
      }
      Ran(Finish(Pre, raises), old(actions), old(State()));
    }

    method FinishPost(raises: bool)
      requires Valid() && postHeld.Some?
      modifies this
      ensures Valid() && State() == Step(config, old(State()), Finish(Post, raises))
      ensures actions == old(actions) + [Finish(Post, raises)]
    {
      hide Run, Evaluate, Counted, Failed, AppendLeft, TopicOf, Submitted, Taken, Capped, DecideAction, Sum, Weights;
      if raises {
        FailPost();
      } else {
        var result := RunPostPass(config.matcher, config.shadowMode, postHeld.value);
        CountPost(result);
        Publish(result);
      }
      Ran(Finish(Post, raises), old(actions), old(State()));
    }

    method FailPre()
      requires preHeld.Some?
      modifies this`preHeld, this`preOutcomes
      ensures PreLane() == Failed(old(PreLane()))
    {
      preOutcomes := preOutcomes + [Errored(preHeld.value)];
      preHeld := None;
    }

    method CountPre(result: EvaluationResult)
      requires preHeld.Some?
      modifies this`preHeld, this`preTotal, this`preFlagged, this`preBlocked, this`preOutcomes
      ensures PreLane() == Counted(old(PreLane()), result)
    {
      preTotal := preTotal + 1;
      if result.action == Flag {
        preFlagged := preFlagged + 1;
      } else if result.action == Block {
        preBlocked := preBlocked + 1;
      }
      preOutcomes := preOutcomes + [Evaluated(preHeld.value, result)];
      preHeld := None;
    }

    method FailPost()
      requires postHeld.Some?
      modifies this`postHeld, this`postOutcomes
      ensures PostLane() == Failed(old(PostLane()))
    {
      postOutcomes := postOutcomes + [Errored(postHeld.value)];
      postHeld := None;
    }

    method CountPost(result: EvaluationResult)
      requires postHeld.Some?
      modifies this`postHeld, this`postTotal, this`postFlagged, this`postBlocked, this`postOutcomes
      ensures PostLane() == Counted(old(PostLane()), result)
    {
      postTotal := postTotal + 1;
      if result.action == Flag {
        postFlagged := postFlagged + 1;
      } else if result.action == Block {
        postBlocked := postBlocked + 1;
      }
      postOutcomes := postOutcomes + [Evaluated(postHeld.value, result)];
      postHeld := None;
    }

    /** History and bus. */
    method Publish(result: EvaluationResult)
      modifies this`history, this`bus, this`results
      ensures history == AppendLeft(old(history), result, HISTORY_LENGTH)
      ensures bus == old(bus) + [Message(TopicOf(result.action), result)]
      ensures results == old(results) + [result]
    {
      history := AppendLeft(history, result, HISTORY_LENGTH);
      var topic := ResultTopic;
      if result.action == Block {
        topic := BlockedTopic;
      } else if result.action == Flag {
        topic := FlaggedTopic;
      }
      bus := bus + [Message(topic, result)];
      results := results + [result];
    }
  }
}
