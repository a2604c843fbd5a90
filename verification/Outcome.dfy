// What executing a plan comes to, told without the steps of its execution: which
// steps a step needs, what it is called with, and what it is left with.
module Outcomes {
  import opened Wrappers
  import opened Topo
  import opened Templates
  import opened Plans

  // ---------------------------------------------------------------------------
  // Which steps a step needs
  // ---------------------------------------------------------------------------

  /** Step `i` needs step `d` of the plan: it says so, or what it is called with
      depends on the outputs of `d`. */
  ghost predicate Needs(steps: map<Id, Step>, i: Id, d: Id) {
    i in steps && d in steps && (d in steps[i].dependsOn || (d != i && Matters(steps[i].params, d)))
  }

  lemma InGraph(steps: map<Id, Step>, i: Id, d: Id)
    requires i in steps
    ensures d in EffectiveDeps(steps, i) <==>
      d in steps && (d in steps[i].dependsOn || (d != i && d in TemplateDeps(steps[i].params)))
  {
    hide TemplateDeps;
  }

  /** The edges of the graph that is executed are exactly the needs of its steps:
      what a step declares, and what can change what it is called with. */
  lemma EdgeExactly(steps: map<Id, Step>, i: Id, d: Id)
    ensures Edge(EffectiveGraph(steps), i, d) <==> Needs(steps, i, d)
    ensures i in steps ==> (d in EffectiveDeps(steps, i) <==> Needs(steps, i, d))
  {
    hide EffectiveGraph, EffectiveDeps, TemplateDeps, Matters;
    EffectiveEdge(steps, i, d);
    if i in steps {
      DepsExact(steps[i].params, d);
      InGraph(steps, i, d);
    }
  }

  /** What a plan is executed with is exactly explicit dependencies and templates
      of the plan: nothing else orders its steps. */
  lemma IndependentIffNothingNeeded(steps: map<Id, Step>, i: Id)
    requires i in steps
    ensures EffectiveGraph(steps)[i] == [] <==> forall d :: !Needs(steps, i, d)
  {
    hide EffectiveDeps, Needs, Ascending;
    var g := EffectiveGraph(steps);
    forall d ensures d in g[i] <==> Needs(steps, i, d) {
      EdgeExactly(steps, i, d);
      EffectiveEdge(steps, i, d);
    }
    if g[i] != [] {
      assert g[i][0] in g[i];
    }
  }

  // ---------------------------------------------------------------------------
  // What a step is called with
  // ---------------------------------------------------------------------------

  /** The state a call of step `i` sees step `d` in: its own from before, and the
      final one of the others. */
  function SeenRec(P: Plan, F: map<Id, Rec>, i: Id, d: Id): Rec
    requires d in P.init && d in F
  {
    if d == i then P.init[d] else F[d]
  }

  /** `R` holds the outputs of the steps that step `i` needs, and of no step
      outside the plan. */
  ghost predicate Inputs(P: Plan, F: map<Id, Rec>, i: Id, R: Results) {
    && (forall d :: d in R ==> d in P.steps)
    && (forall d :: (d == i || Needs(P.steps, i, d)) && d in P.init && d in F ==>
          var seen := SeenRec(P, F, i, d);
          (d in R <==> seen.result.Some?) && (d in R ==> R[d] == seen.result.value))
  }

  /** Which inputs are taken makes no difference to the parameters of the call. */
  lemma InputsAlike(P: Plan, F: map<Id, Rec>, i: Id, R: Results, S: Results)
    requires WellFormed(P) && i in P.steps && SameKeys(F, P.steps)
    requires Inputs(P, F, i, R) && Inputs(P, F, i, S)
    ensures Resolve(P.steps[i].params, R) == Resolve(P.steps[i].params, S)
  {
    hide Resolve, TemplateDeps, Needs;
    forall d | d in TemplateDeps(P.steps[i].params) ensures SameFor(R, S, d) {
      if d in P.steps && d != i {
        NamedIsNeeded(P.steps, i, d);
      }
    }
    ResolveFrame(P.steps[i].params, R, S);
  }

  lemma NamedIsNeeded(steps: map<Id, Step>, i: Id, d: Id)
    requires i in steps && d in steps && d != i && d in TemplateDeps(steps[i].params)
    ensures Needs(steps, i, d)
  {
    hide Resolve, SameFor, TemplateDeps;
    DepsExact(steps[i].params, d);
  }

  /** The results of the whole plan are inputs of each of its steps. */
  lemma ResultsAreInputs(P: Plan, F: map<Id, Rec>, i: Id)
    requires WellFormed(P) && i in P.steps && SameKeys(F, P.steps)
    ensures Inputs(P, F, i, ResultsOf(F[i := P.init[i]]))
  {
    hide Needs;
  }

  // ---------------------------------------------------------------------------
  // What a step is left with
  // ---------------------------------------------------------------------------

  /** What the answer of its node makes of a step. */
  predicate AnswerLeaves(catchAll: bool, was: Rec, now: Rec, answer: Outcome) {
    match answer
    case Reply(outputs) =>
      now.status == Done && now.result == Some(outputs) && now.error == was.error
    case Raised(typed, kind, message) =>
      && now.status == Failed && now.result == was.result
      && now.error ==
         if typed || catchAll then Some(if message != "" then message else "_StepFailed: step failed")
         else if was.error.Some? && was.error.value != "" then was.error
         else Some(kind + ": " + message)
  }

  /** What the execution leaves step `i` with. A step that was done or skipped is
      as it was. A step that needs a failed one is failed, without a new result,
      and says so unless it has an error already. Any other step was called with
      its parameters resolved on the final outputs of the steps it needs, and is
      left with the answer. */
  ghost predicate LeftWith(P: Plan, F: map<Id, Rec>, i: Id)
    requires i in P.init && i in F && i in P.steps && SameKeys(F, P.steps)
  {
    var was, now := P.init[i], F[i];
    if was.status == Done || was.status == Skipped then now == was
    else if exists d :: Needs(P.steps, i, d) && F[d].status == Failed then
      && now.status == Failed && now.result == was.result
      && now.error == if was.error.Some? && was.error.value != "" then was.error else Some("a dependency step failed")
    else
      exists R: Results :: Inputs(P, F, i, R)
        && AnswerLeaves(P.catchAll, was, now, P.call(i, Resolve(P.steps[i].params, R)))
  }

  lemma BlockedIsNeedsFailed(P: Plan, F: map<Id, Rec>, i: Id)
    requires i in P.steps && SameKeys(F, P.steps)
    ensures Blocked(P.steps, F, i) <==> exists d :: Needs(P.steps, i, d) && F[d].status == Failed
  {
    hide Needs, EffectiveDeps;
    forall d ensures d in EffectiveDeps(P.steps, i) <==> Needs(P.steps, i, d) {
      EdgeExactly(P.steps, i, d);
    }
    if Blocked(P.steps, F, i) {
      var d :| d in EffectiveDeps(P.steps, i) && F[d].status == Failed;
      assert Needs(P.steps, i, d);
    }
    if d :| Needs(P.steps, i, d) && F[d].status == Failed {
      assert d in EffectiveDeps(P.steps, i);
    }
  }

  /** The serial run leaves every step with its outcome. */
  lemma SerialOutcomes(P: Plan, order: seq<Id>, i: Id)
    requires OrdersPlan(P, order) && i in P.steps
    ensures i in P.init && SameKeys(SerialRun(P, order), P.steps) && LeftWith(P, SerialRun(P, order), i)
  {
    hide SerialRun, OrdersPlan, Needs, EffectiveDeps, Resolve, Inputs, ResultsOf;
    var F := SerialRun(P, order);
    FinalEquation(P, order, i);
    NotItsOwnDep(P, order, i);
    BlockedIsNeedsFailed(P, F, i);
    var G := F[i := P.init[i]];
    assert forall d :: d in EffectiveDeps(P.steps, i) ==> G[d] == F[d];
    assert Blocked(P.steps, G, i) <==> Blocked(P.steps, F, i);
    ResultsAreInputs(P, F, i);
    if !Settled(P.init[i].status) && !Blocked(P.steps, F, i) {
      var R := ResultsOf(G);
      TurnLeaves(P, i, P.init[i], Resolve(P.steps[i].params, R));
      assert Inputs(P, F, i, R) && AnswerLeaves(P.catchAll, P.init[i], F[i], P.call(i, Resolve(P.steps[i].params, R)));
    }
  }

  lemma TurnLeaves(P: Plan, i: Id, was: Rec, params: Value)
    ensures
      var (rec, out) := RunStep(P, i, was, params);
      AnswerLeaves(P.catchAll, was, if out == HandlerOk then rec else ProjectFailed(rec, EXECUTION, out.text), P.call(i, params))
  {
    var answer := P.call(i, params);
    if answer.Raised? {
      assert |answer.kind + ": " + answer.message| >= 2;
      assert |"_StepFailed: " + answer.message| > 0;
      assert "_StepFailed: " + "step failed" == "_StepFailed: step failed";
    }
  }

  /** An outcome is read off the final states. */
  lemma OutcomeOfSame(P: Plan, F: map<Id, Rec>, G: map<Id, Rec>, i: Id)
    requires i in P.init && i in P.steps && SameKeys(F, P.steps) && SameMap(G, F) && LeftWith(P, F, i)
    ensures SameKeys(G, P.steps) && LeftWith(P, G, i)
  {
    hide Needs, Resolve, AnswerLeaves;
    forall R: Results | Inputs(P, F, i, R) ensures Inputs(P, G, i, R) {
    }
    assert forall d :: d in F ==> G[d] == F[d];
    FailedNeedOfSame(P, F, G, i);
  }

  /** Step `i` needs a step that failed. */
  ghost predicate FailedNeed(P: Plan, F: map<Id, Rec>, i: Id)
    requires SameKeys(F, P.steps)
  {
    exists d :: Needs(P.steps, i, d) && F[d].status == Failed
  }

  lemma FailedNeedOfSame(P: Plan, F: map<Id, Rec>, G: map<Id, Rec>, i: Id)
    requires SameKeys(F, P.steps) && SameMap(G, F)
    ensures FailedNeed(P, F, i) <==> FailedNeed(P, G, i)
  {
    assert forall d :: Needs(P.steps, i, d) ==> G[d] == F[d];
  }
}
