// Executing a whole plan: the graph is built and checked, then run. What the
// check of pipeline goals guarantees about it, and what it does not.
module Execution {
  import opened Wrappers
  import opened Templates
  import opened Topo
  import opened TaskGraph
  import opened Plans
  import opened ReadySet
  import opened Executor
  import opened Outcomes

  /** The tasks handed to the task graph, one a step. */
  function Tasks(steps: map<Id, Step>, ids: seq<Id>): (tasks: seq<(Id, seq<Id>)>)
    requires forall x :: x in ids ==> x in steps
    ensures |tasks| == |ids|
    ensures forall k :: 0 <= k < |ids| ==> tasks[k] == (ids[k], Ascending(EffectiveDeps(steps, ids[k])))
  {
    seq(|ids|, k requires 0 <= k < |ids| => (ids[k], Ascending(EffectiveDeps(steps, ids[k]))))
  }

  lemma {:induction false} TasksAreGraph(steps: map<Id, Step>, ids: seq<Id>)
    requires (forall x :: x in ids <==> x in steps) && Distinct(ids)
    ensures ById(Tasks(steps, ids)) == EffectiveGraph(steps)
  {
    hide EffectiveDeps, ById, Tasks, IdsOf;
    var tasks := Tasks(steps, ids);
    assert IdsOf(tasks) == ids;
    ByIdKeys(tasks);
    forall x | x in steps ensures x in ById(tasks) && ById(tasks)[x] == EffectiveGraph(steps)[x] {
      var k :| 0 <= k < |ids| && ids[k] == x;
      ByIdAt(tasks, k);
    }
    forall x | x in ById(tasks) ensures x in steps {
      var k :| 0 <= k < |tasks| && tasks[k].0 == x;
      assert ids[k] in ids;
    }
  }

  /** Ascending lists have no repetition. */
  lemma AscendingDistinct(s: set<Id>)
    ensures Distinct(Ascending(s))
  {
  }

  /** For effective dependencies the constructor's other checks never fire: only
      repeated step ids and cycles are rejected. */
  lemma AcceptableTasks(steps: map<Id, Step>, ids: seq<Id>)
    requires forall x :: x in ids <==> x in steps
    ensures Acceptable(Tasks(steps, ids)) <==> Distinct(ids) && !HasCycle(EffectiveGraph(steps))
  {
    hide EffectiveDeps, ById, Tasks, IdsOf, HasCycle, Ascending, EffectiveGraph;
    var tasks := Tasks(steps, ids);
    assert IdsOf(tasks) == ids;
    if Distinct(ids) {
      TasksAreGraph(steps, ids);
      if !HasCycle(EffectiveGraph(steps)) {
        forall k | 0 <= k < |tasks| ensures DepsKnown(ids, tasks[k]) && Distinct(tasks[k].1) {
          StepDepsKnown(steps, ids, k);
        }
      }
    }
  }

  lemma StepDepsKnown(steps: map<Id, Step>, ids: seq<Id>, k: nat)
    requires (forall x :: x in ids <==> x in steps) && k < |ids| && !HasCycle(EffectiveGraph(steps))
    ensures DepsKnown(ids, Tasks(steps, ids)[k]) && Distinct(Tasks(steps, ids)[k].1)
  {
    hide EffectiveDeps, Tasks;
    var i := ids[k];
    var deps := Ascending(EffectiveDeps(steps, i));
    assert i in ids;
    AscendingDistinct(EffectiveDeps(steps, i));
    forall m | 0 <= m < |deps| ensures deps[m] in ids && deps[m] != i {
      assert deps[m] in deps;
      if deps[m] == i {
        EffectiveEdge(steps, i, i);
        LoopIsCycle(EffectiveGraph(steps), i);
        assert false;
      }
    }
  }

  /** `_execute_ready_set`. It runs exactly when step ids are distinct and the
      effective graph has no cycle, and then the plan ends as the serial run in
      any topological order would leave it. */
  method ExecuteReadySet(P: Plan, ids: seq<Id>, maxWorkers: int) returns (r: Result<map<Id, Rec>, GraphError>)
    requires WellFormed(P) && forall x :: x in ids <==> x in P.steps
    ensures r.Ok? <==> Distinct(ids) && !HasCycle(EffectiveGraph(P.steps))
    ensures r.Ok? ==> exists order :: OrdersPlan(P, order)
    ensures r.Ok? ==> forall order :: OrdersPlan(P, order) ==> SameMap(r.value, SerialRun(P, order))
    ensures r.Ok? ==> SameKeys(r.value, P.steps) && forall i :: i in P.steps ==> LeftWith(P, r.value, i)
  {
    hide HasCycle, EffectiveDeps, EffectiveGraph, ById, Tasks, Acceptable, IsTopoOrder, SerialRun, OrdersPlan,
         Distinct, LeftWith;
    var tasks := Tasks(P.steps, ids);
    AcceptableTasks(P.steps, ids);
    var graph := FromTasks(tasks);
    if graph.Err? {
      return Err(graph.error);
    }
    TasksAreGraph(P.steps, ids);
    ghost var order := graph.value;
    OrderCovers(P, order);
    var recs := RunReadySet(P, ids, maxWorkers, order);
    r := Ok(recs);
    forall other | OrdersPlan(P, other) ensures SameMap(recs, SerialRun(P, other)) {
      OrderIrrelevant(P, order, other);
    }
    forall i | i in P.steps ensures SameKeys(recs, P.steps) && LeftWith(P, recs, i) {
      SerialOutcomes(P, order, i);
      OutcomeOfSame(P, SerialRun(P, order), recs, i);
    }
  }

  /** The runner on an accepted plan. */
  method RunReadySet(P: Plan, ids: seq<Id>, maxWorkers: int, ghost order: seq<Id>) returns (recs: map<Id, Rec>)
    requires OrdersPlan(P, order) && forall x :: x in ids <==> x in P.steps
    ensures SameMap(recs, SerialRun(P, order))
  {
    hide OrdersPlan, SerialRun, SameMap;
    var executor := new PlanExecutor(P, ids, maxWorkers, order);
    executor.Run();
    recs := executor.recs;
  }

  lemma OrderCovers(P: Plan, order: seq<Id>)
    requires WellFormed(P) && IsTopoOrder(EffectiveGraph(P.steps), order)
    ensures OrdersPlan(P, order)
  {
    hide EffectiveDeps;
    assert forall i :: i in order <==> i in EffectiveGraph(P.steps);
  }

  /** Which steps a run executes: no step twice, and at the end exactly those that
      were not done or skipped before and need no failed one. */
  lemma ExecutedExactly(P: Plan, order: seq<Id>, workers: nat, es: seq<Event>, c: Config, i: Id)
    requires OrdersPlan(P, order) && workers >= 1 && i in P.steps
    requires IsRun(P, workers, Init(P), es, c) && Shape(P, c)
    ensures forall j, k :: 0 <= j < k < |es| ==> es[j] != Event.Start(i) || es[k] != Event.Start(i)
    ensures Quiescent(P, workers, c) ==>
      (Event.Start(i) in es <==>
         && P.init[i].status != Done && P.init[i].status != Skipped
         && forall d :: Needs(P.steps, i, d) ==> SerialRun(P, order)[d].status != Failed)
  {
    hide EffectiveDeps, OrdersPlan, SerialRun, IsRun, Quiescent, Starts, Shape, Needs;
    ExecutedOnce(P, order, workers, es, c, i);
    StartsMean(es, i);
    BlockedIsNeedsFailed(P, SerialRun(P, order), i);
  }

  // ---------------------------------------------------------------------------
  // Pipeline goals and the effective graph
  // ---------------------------------------------------------------------------

  /** Every template of every step names an earlier step or one not in the plan. */
  ghost predicate TemplatesBackward(steps: map<Id, Step>) {
    forall i, d :: i in steps && d in TemplateDeps(steps[i].params) && d in steps ==> d.num <= i.num
  }

  ghost predicate ExplicitBackward(steps: map<Id, Step>) {
    forall i, d :: i in steps && d in steps[i].dependsOn && d in steps ==> d.num < i.num
  }

  /** With backward templates as well as backward `depends_on` a plan can always
      be executed. (A template that names its own step adds no edge.) */
  lemma BackwardPlansRun(steps: map<Id, Step>)
    requires ExplicitBackward(steps) && TemplatesBackward(steps)
    ensures !HasCycle(EffectiveGraph(steps))
  {
    var g := EffectiveGraph(steps);
    forall x, d | x in g && d in g[x] ensures d in g && d.num < x.num {
      assert d in EffectiveDeps(steps, x);
      assert d.num <= x.num && d != x;
    }
    ForwardIsAcyclic(g);
  }

  /** Two pipeline steps: the second depends on the first, whose parameters name
      an output of the second. */
  function CrossedSteps(): map<Id, Step> {
    map[Id(1) := Step(Str("${step2.outputs.x}"), []), Id(2) := Step(Scalar(0), [Id(1)])]
  }

  /** The check of pipeline goals looks at `depends_on` only. It accepts this
      goal, and the execution of the resulting plan is refused. */
  lemma PipelineCheckMissesTemplates()
    ensures RefsBackward([[], [1]]) && ExplicitBackward(CrossedSteps())
    ensures HasCycle(EffectiveGraph(CrossedSteps()))
  {
    hide EffectiveDeps, EffectiveGraph;
    var steps := CrossedSteps();
    var g := EffectiveGraph(steps);
    CrossedEdges();
    assert IsCycle(g, [Id(1), Id(2), Id(1)]);
  }

  lemma CrossedEdges()
    ensures Edge(EffectiveGraph(CrossedSteps()), Id(1), Id(2))
    ensures Edge(EffectiveGraph(CrossedSteps()), Id(2), Id(1))
  {
    hide EffectiveGraph, TemplateDeps;
    var steps := CrossedSteps();
    NamesStepTwo();
    EffectiveEdge(steps, Id(1), Id(2));
    EffectiveEdge(steps, Id(2), Id(1));
  }

  lemma NamesStepTwo()
    ensures Id(2) in TemplateDeps(Str("${step2.outputs.x}"))
  {
    hide MatchAt, Scan;
    var t := "${step2.outputs.x}";
    assert IsTemplate(t, "2", "x");
    assert t[0..|t|] == t;
    MatchComplete(t, 0, |t|, "2", "x");
    assert "2"[..1] == "2" && "2"[..0] == "";
    ScanFindsAll(t, 0, Id(2));
    assert NamesAt(t, 0, Id(2));
  }
}
