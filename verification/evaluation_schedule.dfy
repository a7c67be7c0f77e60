/** What the two queues do with the contexts submitted to them, by the actions of a run alone. */
module EvaluationSchedule {
  import opened Wrappers
  import opened ThreatScoring
  import opened EvaluationPasses
  import opened EvaluationPipeline

  /** Everything submitted to a pass. */
  function Offered(actions: seq<Action>, p: PassType): seq<Context> {
    if actions == [] then []
    else
      var a := actions[|actions| - 1];
      Offered(actions[..|actions| - 1], p) + if a.Submit? && a.pass == p then [a.context] else []
  }

  /** How often its worker took a context. */
  function Takes(actions: seq<Action>, p: PassType): nat {
    if actions == [] then 0 else Takes(actions[..|actions| - 1], p) + if actions[|actions| - 1] == Take(p) then 1 else 0
  }

  /** What is not dropped: a context is, if 500 of those before it have not been taken yet. */
  function Admitted(actions: seq<Action>, p: PassType): seq<Context> {
    if actions == [] then []
    else
      var (before, a) := (actions[..|actions| - 1], actions[|actions| - 1]);
      var admitted := Admitted(before, p);
      if a.Submit? && a.pass == p && |admitted| - Takes(before, p) < 500 then admitted + [a.context] else admitted
  }

  /** For each context finished, whether its evaluation raised an exception. */
  function Endings(actions: seq<Action>, p: PassType): seq<bool> {
    if actions == [] then []
    else
      var a := actions[|actions| - 1];
      Endings(actions[..|actions| - 1], p) + if a.Finish? && a.pass == p then [a.raised] else []
  }

  /** Where each context of a lane is. */
  ghost predicate Scheduled(actions: seq<Action>, l: Lane, p: PassType) {
    var (admitted, taken, endings) := (Admitted(actions, p), Takes(actions, p), Endings(actions, p));
    && |endings| <= taken <= |admitted|
    && l.queue == admitted[taken..]
    && Held(l) == admitted[|endings|..taken]
    && Finished(l.outcomes, admitted[..|endings|], endings)
  }

  ghost predicate Finished(outcomes: seq<Outcome>, contexts: seq<Context>, endings: seq<bool>)
    requires |contexts| == |endings|
  {
    |outcomes| == |endings|
    && forall i :: 0 <= i < |outcomes| ==>
      outcomes[i].context == contexts[i] && (outcomes[i].Errored? <==> endings[i])
  }

  ghost predicate Submissive(actions: seq<Action>, l: Lane, p: PassType) {
    && |l.submissions| == |Offered(actions, p)|
    && (forall i :: 0 <= i < |l.submissions| ==> l.submissions[i].context == Offered(actions, p)[i])
    && Accepted(l.submissions) == Admitted(actions, p)
  }

  lemma OtherSchedules(actions: seq<Action>, l: Lane, p: PassType, a: Action)
    requires Scheduled(actions, l, p) && Submissive(actions, l, p) && a.pass != p
    ensures Scheduled(actions + [a], l, p) && Submissive(actions + [a], l, p)
  {
    hide Accepted;
    assert (actions + [a])[..|actions|] == actions;
    assert Endings(actions, p) + [] == Endings(actions, p) && Offered(actions, p) + [] == Offered(actions, p);
  }

  lemma SubmitSchedules(actions: seq<Action>, l: Lane, p: PassType, ctx: Context)
    requires Scheduled(actions, l, p)
    ensures Scheduled(actions + [Submit(p, ctx)], Submitted(l, ctx), p)
  {
    hide Finished;
    assert (actions + [Submit(p, ctx)])[..|actions|] == actions;
    assert Endings(actions, p) + [] == Endings(actions, p);
    var (admitted, taken, n) := (Admitted(actions, p), Takes(actions, p), |Endings(actions, p)|);
    assert (admitted + [ctx])[taken..] == admitted[taken..] + [ctx];
    assert (admitted + [ctx])[n..taken] == admitted[n..taken] && (admitted + [ctx])[..n] == admitted[..n];
  }

  lemma SubmissionCounts(actions: seq<Action>, l: Lane, p: PassType, ctx: Context)
    requires Scheduled(actions, l, p) && Submissive(actions, l, p)
    ensures Submissive(actions + [Submit(p, ctx)], Submitted(l, ctx), p)
  {
    hide Finished, Endings, Held;
    assert (actions + [Submit(p, ctx)])[..|actions|] == actions;
    assert Submitted(l, ctx).submissions[..|l.submissions|] == l.submissions;
    assert Accepted(l.submissions) + [] == Accepted(l.submissions);
  }

  lemma TakeSchedules(actions: seq<Action>, l: Lane, p: PassType)
    requires Scheduled(actions, l, p) && Submissive(actions, l, p) && l.held.None? && l.queue != []
    ensures Scheduled(actions + [Take(p)], Taken(l), p) && Submissive(actions + [Take(p)], Taken(l), p)
  {
    hide Accepted;
    assert (actions + [Take(p)])[..|actions|] == actions;
    assert Endings(actions, p) + [] == Endings(actions, p) && Offered(actions, p) + [] == Offered(actions, p);
  }

  lemma FinishSchedules(actions: seq<Action>, l: Lane, p: PassType, raised: bool, o: Outcome, l': Lane)
    requires Scheduled(actions, l, p) && Submissive(actions, l, p) && l.held == Some(o.context)
    requires o.Errored? <==> raised
    requires l'.queue == l.queue && l'.held.None? && l'.outcomes == l.outcomes + [o]
    requires l'.submissions == l.submissions
    ensures Scheduled(actions + [Finish(p, raised)], l', p) && Submissive(actions + [Finish(p, raised)], l', p)
  {
    hide Accepted;
    assert (actions + [Finish(p, raised)])[..|actions|] == actions;
    assert Offered(actions, p) + [] == Offered(actions, p);
    var (admitted, n) := (Admitted(actions, p), |Endings(actions, p)|);
    assert |Held(l)| == 1 && Held(l)[0] == o.context;
    assert Takes(actions, p) == n + 1 && admitted[n] == o.context;
    assert admitted[n + 1..n + 1] == [];
  }

  lemma LaneSchedules(c: Config, actions: seq<Action>, s: Pipeline, a: Action, p: PassType)
    requires Scheduled(actions, LaneOf(s, p), p) && Submissive(actions, LaneOf(s, p), p) && Enabled(s, a)
    ensures var l := LaneOf(Step(c, s, a), p); Scheduled(actions + [a], l, p) && Submissive(actions + [a], l, p)
  {
    hide Scheduled, Submissive, Evaluate, TopicOf, Submitted, Taken;
    var l := LaneOf(s, p);
    if a.pass != p {
      OtherSchedules(actions, l, p, a);
    } else if a.Submit? {
      SubmitSchedules(actions, l, p, a.context);
      SubmissionCounts(actions, l, p, a.context);
    } else if a.Take? {
      TakeSchedules(actions, l, p);
    } else {
      var l' := LaneOf(Step(c, s, a), p);
      FinishSchedules(actions, l, p, a.raised, l'.outcomes[|l.outcomes|], l');
    }
  }

  lemma {:induction false} RunLast(c: Config, s: Pipeline, actions: seq<Action>, s': Pipeline)
    returns (before: Pipeline)
    requires Run(c, s, actions, s') && actions != []
    ensures var n := |actions| - 1;
      Run(c, s, actions[..n], before) && Enabled(before, actions[n]) && s' == Step(c, before, actions[n])
    decreases |actions|
  {
    hide Enabled, Step;
    var n := |actions| - 1;
    if n == 0 {
      before := s;
      assert Run(c, Step(c, s, actions[0]), actions[1..], s') && actions[1..] == [];
    } else {
      before := RunLast(c, Step(c, s, actions[0]), actions[1..], s');
      assert actions[1..][..n - 1] == actions[..n][1..];
    }
  }

  lemma {:induction false} RunSchedules(c: Config, actions: seq<Action>, s: Pipeline, p: PassType)
    requires Run(c, Start(), actions, s)
    ensures Scheduled(actions, LaneOf(s, p), p) && Submissive(actions, LaneOf(s, p), p)
    decreases |actions|
  {
    if actions == [] {
    } else {
      hide Run, Scheduled, Submissive, Step, Enabled;
      var n := |actions| - 1;
      var before := RunLast(c, Start(), actions, s);
      RunSchedules(c, actions[..n], before, p);
      LaneSchedules(c, actions[..n], before, actions[n], p);
      assert actions[..n] + [actions[n]] == actions;
    }
  }

  /**
   Over every run: a submission is dropped exactly when 500 admitted ones are waiting; the others are
   queued, held and finished in the order of their submission, as far as the worker has come, and
   those whose evaluation raised are the errors.
   */
  lemma LanesAreScheduled(c: Config, actions: seq<Action>, s: Pipeline, p: PassType)
    requires Run(c, Start(), actions, s)
    ensures |Endings(actions, p)| <= Takes(actions, p) <= |Admitted(actions, p)|
    ensures var (l, admitted, taken) := (LaneOf(s, p), Admitted(actions, p), Takes(actions, p));
      && l.queue == admitted[taken..] && Held(l) == admitted[|Endings(actions, p)|..taken]
      && |l.submissions| == |Offered(actions, p)| && Accepted(l.submissions) == admitted
    ensures var (l, endings) := (LaneOf(s, p), Endings(actions, p));
      && |l.outcomes| == |endings|
      && forall i :: 0 <= i < |endings| ==>
           l.outcomes[i].context == Admitted(actions, p)[i] && (l.outcomes[i].Errored? <==> endings[i])
  {
    hide Run, Admitted, Takes, Endings, Offered, Accepted, Held;
    RunSchedules(c, actions, s, p);
  }
}
