// The plan executor with its state updated in place: the runner's loop over the
// ready set, the worker threads it interleaves with, and the failure cascade.
module Executor {
  import opened Wrappers
  import opened Templates
  import opened Topo
  import opened Plans
  import opened ReadySet

  /** `dependents_of`: the steps that depend on `t`, in plan order. */
  function DependentsOf(steps: map<Id, Step>, ids: seq<Id>, t: Id): (ds: seq<Id>)
    requires forall x :: x in ids ==> x in steps
    ensures forall j :: j in ds <==> j in ids && t in EffectiveDeps(steps, j)
  {
    if ids == [] then []
    else
      var rest := DependentsOf(steps, ids[1..], t);
      assert ids == [ids[0]] + ids[1..];
      if t in EffectiveDeps(steps, ids[0]) then [ids[0]] + rest else rest
  }

  // ---------------------------------------------------------------------------
  // The cascade as a breadth-first search
  // ---------------------------------------------------------------------------

  /** What the search has done: the tasks seen so far have failed, unless they
      were finished already. */
  ghost predicate Swept(phase0: map<Id, Phase>, phase: map<Id, Phase>, seen: set<Id>) {
    && SameKeys(phase, phase0)
    && forall j :: j in phase ==>
         phase[j] == if j in seen && !Terminal(phase0[j]) then FailedTask(UPSTREAM, "") else phase0[j]
  }

  /** Everything met is downstream of `i`, or satisfied and not passed through. */
  ghost predicate Met(steps: map<Id, Step>, phase0: map<Id, Phase>, i: Id, t: Id)
    requires SameKeys(phase0, steps)
  {
    t in steps && (Satisfied(phase0[t]) || Downstream(steps, phase0, i, t))
  }

  /** The search passes through `j`. */
  ghost predicate Expanded(phase0: map<Id, Phase>, seen: set<Id>, i: Id, j: Id) {
    j == i || (j in seen && j in phase0 && !Satisfied(phase0[j]))
  }

  lemma {:induction false} ChainSeen(steps: map<Id, Step>, phase0: map<Id, Phase>, seen: set<Id>, p: seq<Id>)
    requires SameKeys(phase0, steps) && IsChain(steps, phase0, p)
    requires forall j, t :: t in steps && Expanded(phase0, seen, p[0], j) && j in EffectiveDeps(steps, t) ==> t in seen
    ensures p[|p| - 1] in seen
    decreases |p|
  {
    hide EffectiveDeps;
    var t, j := p[|p| - 1], p[|p| - 2];
    assert j in EffectiveDeps(steps, t);
    if |p| > 2 {
      ChainSeen(steps, phase0, seen, p[..|p| - 1]);
      assert !Satisfied(phase0[j]);
    }
    assert Expanded(phase0, seen, p[0], j);
  }

  /** A finished search has failed exactly the tasks the specification names. */
  lemma SweepIsCascade(steps: map<Id, Step>, phase0: map<Id, Phase>, phase: map<Id, Phase>, seen: set<Id>, i: Id)
    requires SameKeys(phase0, steps) && Swept(phase0, phase, seen)
    requires forall t :: t in seen ==> Met(steps, phase0, i, t)
    requires forall j, t :: t in steps && Expanded(phase0, seen, i, j) && j in EffectiveDeps(steps, t) ==> t in seen
    ensures phase == Cascade(steps, phase0, i)
  {
    hide EffectiveDeps;
    forall j | j in phase0 && Downstream(steps, phase0, i, j) ensures j in seen {
      var p :| IsChain(steps, phase0, p) && p[0] == i && p[|p| - 1] == j;
      ChainSeen(steps, phase0, seen, p);
    }
  }

  /** The runner's `in_flight`: submitted and not yet collected. */
  predicate InFlight(p: Phase) {
    p.Queued? || p.Executing? || p.Returned?
  }

  /** Only tasks in the hands of workers have moved, and they are still in flight. */
  ghost predicate WorkersOnly(c: Config, c': Config) {
    && SameKeys(c.phase, c'.phase)
    && forall i :: i in c.phase ==>
         if c.phase[i].Queued? || c.phase[i].Executing? then InFlight(c'.phase[i]) else c'.phase[i] == c.phase[i]
  }

  /** What workers do makes no task ready and no ready task unready. */
  lemma SameReady(P: Plan, workers: nat, c: Config, c': Config)
    requires Shape(P, c) && Shape(P, c') && WorkersOnly(c, c')
    ensures forall i :: i in P.steps ==> (Enabled(P, workers, c', Event.Submit(i)) <==> Enabled(P, workers, c, Event.Submit(i)))
  {
    hide EffectiveDeps;
    forall i | i in P.steps
      ensures Enabled(P, workers, c', Event.Submit(i)) <==> Enabled(P, workers, c, Event.Submit(i))
    {
      assert DepsSatisfied(P, c', i) <==> DepsSatisfied(P, c, i);
    }
  }

  lemma WorkersOnlyStep(P: Plan, workers: nat, c: Config, e: Event)
    requires Shape(P, c) && Enabled(P, workers, c, e) && (e.Start? || e.Finish?)
    ensures WorkersOnly(c, Apply(P, workers, c, e))
  {
    hide RunStep, Resolve;
  }

  lemma WorkersOnlyTrans(a: Config, b: Config, c: Config)
    requires WorkersOnly(a, b) && WorkersOnly(b, c)
    ensures WorkersOnly(a, c)
  {
  }

  lemma WorkersOnlySelf(a: Config)
    ensures WorkersOnly(a, a)
  {
  }

  /** How the answer of its node is written to a step whose worker has returned,
      and what the task layer is told. */
  predicate AnswerWritten(catchAll: bool, was: Rec, now: Rec, phase: Phase, answer: Outcome) {
    match answer
    case Reply(outputs) =>
      now == Rec(Done, Some(outputs), was.error) && phase == Returned(HandlerOk)
    case Raised(typed, kind, message) =>
      if typed || catchAll then
        && now == Rec(Failed, was.result, Some(message))
        && phase == Returned(HandlerError(if message == "" then "_StepFailed: step failed" else "_StepFailed: " + message))
      else
        now == was && phase == Returned(HandlerError(kind + ": " + message))
  }

  lemma StepWritesAnswer(P: Plan, i: Id, was: Rec, params: Value)
    ensures var (rec, out) := RunStep(P, i, was, params);
            AnswerWritten(P.catchAll, was, rec, Returned(out), P.call(i, params))
  {
    assert "_StepFailed: " + "step failed" == "_StepFailed: step failed";
  }

  class PlanExecutor {
    const P: Plan
    const ids: seq<Id>
    const workers: nat
    var recs: map<Id, Rec>
    var phase: map<Id, Phase>
    ghost const order: seq<Id>
    ghost var log: seq<Event>

    function Now(): (c: Config)
      reads this
      ensures c.recs == recs && c.phase == phase
    {
      Config(recs, phase)
    }

    /** The state is reached by a run of the machine. */
    ghost predicate Valid()
      reads this
    {
      Reached(P, order, workers, log, Now()) && forall x :: x in ids <==> x in P.steps
    }

    /** What is still to be done, in events. */
    ghost function Left(): nat
      reads this
      requires Valid()
    {
      OrderInPhase();
      TotalWork(phase, order)
    }

    /** The task has returned and waits for the runner. */
    ghost predicate CanCollect(i: Id)
      reads this
      requires Valid()
    {
      Enabled(P, workers, Now(), Event.Collect(i))
    }

    constructor (P: Plan, ids: seq<Id>, maxWorkers: int, ghost order: seq<Id>)
      requires OrdersPlan(P, order) && forall x :: x in ids <==> x in P.steps
      ensures Valid() && this.P == P && this.order == order
      ensures workers == if maxWorkers < 1 then 1 else maxWorkers
    {
      this.P, this.ids, this.order := P, ids, order;
      this.workers := if maxWorkers < 1 then 1 else maxWorkers;
      this.recs := P.init;
      this.phase := Preloaded(P.init);
      this.log := [];
      new;
      ReachedAtFirst(P, order, workers);
    }

    method Submit(i: Id)
      requires Valid() && Enabled(P, workers, Now(), Event.Submit(i))
      modifies this`phase, this`log
      ensures Valid() && Now() == Apply(P, workers, old(Now()), Event.Submit(i))
    {
      hide Reached, Enabled;
      ReachedNext(P, order, workers, log, Now(), Event.Submit(i));
      phase, log := phase[i := Queued], log + [Event.Submit(i)];
    }

    /** The first half of `_run_step`: a worker takes the step and resolves its
        parameters against the results present at that moment. */
    method BeginStep(i: Id)
      requires Valid() && Enabled(P, workers, Now(), Event.Start(i))
      modifies this`phase, this`log
      ensures Valid() && Now() == Apply(P, workers, old(Now()), Event.Start(i))
    {
      hide Reached, Enabled, Resolve;
      ReachedNext(P, order, workers, log, Now(), Event.Start(i));
      var params := Resolve(P.steps[i].params, ResultsOf(recs));
      phase, log := phase[i := Executing(params)], log + [Event.Start(i)];
    }

    /** The second half: the node call has ended and the step is written. */
    method FinishStep(i: Id)
      requires Valid() && Enabled(P, workers, Now(), Event.Finish(i))
      modifies this`recs, this`phase, this`log
      ensures Valid() && Now() == Apply(P, workers, old(Now()), Event.Finish(i))
      ensures AnswerWritten(P.catchAll, old(recs)[i], recs[i], phase[i], P.call(i, old(phase)[i].params))
    {
      hide Agrees, IsRun, OrdersPlan, RunStep, AnswerWritten;
      StepWritesAnswer(P, i, recs[i], phase[i].params);
      ReachedNext(P, order, workers, log, Now(), Event.Finish(i));
      var outcome := RunStep(P, i, recs[i], phase[i].params);
      recs, phase := recs[i := outcome.0], phase[i := Returned(outcome.1)];
      log := log + [Event.Finish(i)];
    }

    /** `_cascade`: a queue of dependents, each task entered once. */
    method FailDownstream(i: Id)
      requires SameKeys(phase, P.steps) && i in P.steps
      requires forall x :: x in ids <==> x in P.steps
      modifies this`phase
      ensures phase == Cascade(P.steps, old(phase), i)
    {
      hide *;
      ghost var phase0 := phase;
      var queue, seen := DependentsOf(P.steps, ids, i), {};
      SearchStarts(phase0, queue, i);
      while queue != []
        invariant SameKeys(phase0, P.steps) && SameKeys(phase, phase0) && Swept(phase0, phase, seen)
        invariant SearchInv(phase0, queue, seen, i)
        decreases P.steps.Keys - seen, |queue|
      {
        var t := queue[0];
        SearchSkips(phase0, queue, seen, i);
        if t in seen {
          queue := queue[1..];
        } else {
          SearchEnters(phase0, queue, seen, i);
          Present(phase0, phase, t);
          Sweeps(phase0, phase, seen, t);
          queue := if Satisfied(phase[t]) then queue[1..] else queue[1..] + DependentsOf(P.steps, ids, t);
          if !Terminal(phase[t]) {
            phase := phase[t := FailedTask(UPSTREAM, "")];
          }
          seen := seen + {t};
        }
      }
      SearchEnds(phase0, phase, seen, i);
    }

    lemma Present(phase0: map<Id, Phase>, phase: map<Id, Phase>, t: Id)
      requires SameKeys(phase, phase0) && t in phase0
      ensures t in phase && SameKeys(phase[t := FailedTask(UPSTREAM, "")], phase0)
    {
    }

    /** The tasks met are downstream of `i`, and every dependent of a task the
        search passed through is met. */
    ghost predicate SearchInv(phase0: map<Id, Phase>, queue: seq<Id>, seen: set<Id>, i: Id)
      requires SameKeys(phase0, P.steps)
    {
      && (forall t :: t in queue || t in seen ==> Met(P.steps, phase0, i, t))
      && (forall j, t :: t in P.steps && Expanded(phase0, seen, i, j) && j in EffectiveDeps(P.steps, t)
            ==> t in seen || t in queue)
    }

    lemma SearchStarts(phase0: map<Id, Phase>, queue: seq<Id>, i: Id)
      requires SameKeys(phase0, P.steps) && i in P.steps
      requires forall x :: x in ids <==> x in P.steps
      requires queue == DependentsOf(P.steps, ids, i)
      ensures SameKeys(phase0, phase0) && SearchInv(phase0, queue, {}, i) && Swept(phase0, phase0, {})
    {
      hide EffectiveDeps, DependentsOf;
      forall t | t in queue ensures Met(P.steps, phase0, i, t) {
        if !Satisfied(phase0[t]) {
          ChainExtends(P, phase0, i, i, t);
        }
      }
    }

    lemma SearchSkips(phase0: map<Id, Phase>, queue: seq<Id>, seen: set<Id>, i: Id)
      requires SameKeys(phase0, P.steps) && queue != [] && SearchInv(phase0, queue, seen, i)
      ensures queue[0] in P.steps && queue[0] in phase0
      ensures queue[0] in seen ==> SearchInv(phase0, queue[1..], seen, i)
    {
      hide EffectiveDeps, Downstream;
      assert queue[0] in queue && queue == [queue[0]] + queue[1..];
    }

    lemma SearchEnters(phase0: map<Id, Phase>, queue: seq<Id>, seen: set<Id>, i: Id)
      requires SameKeys(phase0, P.steps) && i in P.steps && queue != [] && queue[0] !in seen
      requires forall x :: x in ids <==> x in P.steps
      requires SearchInv(phase0, queue, seen, i)
      ensures var t := queue[0];
              && t in phase0
              && SearchInv(phase0, if Satisfied(phase0[t]) then queue[1..] else queue[1..] + DependentsOf(P.steps, ids, t),
                           seen + {t}, i)
    {
      hide EffectiveDeps, Met, DependentsOf;
      var t := queue[0];
      SearchSkips(phase0, queue, seen, i);
      assert t in queue && queue == [t] + queue[1..];
      var next := DependentsOf(P.steps, ids, t);
      if !Satisfied(phase0[t]) {
        DependentsMet(phase0, i, t);
        forall j, d | d in P.steps && Expanded(phase0, seen + {t}, i, j) && j in EffectiveDeps(P.steps, d)
          ensures d in seen + {t} || d in queue[1..] + next
        {
          if j == t {
            assert d in next;
          } else {
            assert Expanded(phase0, seen, i, j);
          }
        }
      } else {
        forall j, d | d in P.steps && Expanded(phase0, seen + {t}, i, j) && j in EffectiveDeps(P.steps, d)
          ensures d in seen + {t} || d in queue[1..]
        {
          assert Expanded(phase0, seen, i, j);
        }
      }
    }

    lemma Sweeps(phase0: map<Id, Phase>, phase: map<Id, Phase>, seen: set<Id>, t: Id)
      requires Swept(phase0, phase, seen) && t in phase && t !in seen
      ensures phase[t] == phase0[t]
      ensures Swept(phase0, if Terminal(phase[t]) then phase else phase[t := FailedTask(UPSTREAM, "")], seen + {t})
    {
    }

    lemma DependentsMet(phase0: map<Id, Phase>, i: Id, t: Id)
      requires SameKeys(phase0, P.steps) && i in P.steps && Met(P.steps, phase0, i, t) && !Satisfied(phase0[t])
      requires forall x :: x in ids <==> x in P.steps
      ensures forall j :: j in DependentsOf(P.steps, ids, t) ==> Met(P.steps, phase0, i, j)
    {
      hide EffectiveDeps, DependentsOf;
      forall j | j in DependentsOf(P.steps, ids, t) ensures Met(P.steps, phase0, i, j) {
        if !Satisfied(phase0[j]) {
          ChainExtends(P, phase0, i, t, j);
        }
      }
    }

    lemma SearchEnds(phase0: map<Id, Phase>, phase: map<Id, Phase>, seen: set<Id>, i: Id)
      requires SameKeys(phase0, P.steps) && Swept(phase0, phase, seen) && SearchInv(phase0, [], seen, i)
      ensures phase == Cascade(P.steps, phase0, i)
    {
      hide EffectiveDeps, Met, Swept, Cascade;
      SweepIsCascade(P.steps, phase0, phase, seen, i);
    }

    // -------------------------------------------------------------------------
    // The runner
    // -------------------------------------------------------------------------

    lemma InPlan(i: Id)
      requires Valid() && i in ids
      ensures i in P.steps && i in phase && i in recs && Shape(P, Now())
    {
    }

    /** `_apply`: the runner learns how a task ended. */
    method Settle(i: Id)
      requires Valid() && Enabled(P, workers, Now(), Event.Collect(i))
      modifies this`phase, this`log
      ensures Valid() && Now() == Apply(P, workers, old(Now()), Event.Collect(i))
    {
      hide Agrees, IsRun, OrdersPlan, Cascade;
      ReachedNext(P, order, workers, log, Now(), Event.Collect(i));
      var out := phase[i].out;
      if out == HandlerOk {
        phase := phase[i := Succeeded];
      } else {
        phase := phase[i := FailedTask(EXECUTION, out.text)];
        FailDownstream(i);
      }
      log := log + [Event.Collect(i)];
    }

    /** `ready()` and the submission of everything it returns, while workers go
        on with what was submitted before. */
    method SubmitReady()
      requires Valid()
      modifies this`recs, this`phase, this`log
      ensures Valid() && TotalWork(phase, order) <= old(TotalWork(phase, order))
      ensures forall i :: i in P.steps ==> !Enabled(P, workers, Now(), Event.Submit(i))
    {
      hide *;
      OrderInPhase();
      for n := 0 to |ids|
        invariant Valid() && Shape(P, Now()) && forall k :: 0 <= k < |order| ==> order[k] in phase
        invariant TotalWork(phase, order) <= old(TotalWork(phase, order))
        invariant forall k :: 0 <= k < n ==> !Enabled(P, workers, Now(), Event.Submit(ids[k]))
      {
        var i := ids[n];
        ghost var before := Now();
        LetWorkersRun();
        SameReady(P, workers, before, Now());
        OrderInPhase();
        forall k | 0 <= k < n ensures !Enabled(P, workers, Now(), Event.Submit(ids[k])) {
          InPlan(ids[k]);
        }
        InPlan(i);
        ReadyIsEnabled(i);
        if phase[i].Created? && forall d :: d in EffectiveDeps(P.steps, i) ==> d in phase && Satisfied(phase[d]) {
          label L:
          EventShrinks(Event.Submit(i));
          Submit(i);
          SubmitEnablesNothing(old@L(Now()), i, n);
        }
      }
      IdsCover();
    }

    lemma OrderInPhase()
      requires Valid()
      ensures OrdersPlan(P, order)
      ensures Shape(P, Now()) && forall k :: 0 <= k < |order| ==> order[k] in phase
    {
      hide Agrees, IsRun, EffectiveGraph;
      forall k | 0 <= k < |order| ensures order[k] in phase {
        assert order[k] in order;
      }
    }

    lemma ReadyIsEnabled(i: Id)
      requires Valid() && Shape(P, Now()) && i in P.steps && i in phase
      ensures Enabled(P, workers, Now(), Event.Submit(i)) <==>
                phase[i].Created? && forall d :: d in EffectiveDeps(P.steps, i) ==> d in phase && Satisfied(phase[d])
    {
      hide EffectiveDeps, Reached;
    }

    lemma EventShrinks(e: Event)
      requires Valid() && Shape(P, Now()) && Enabled(P, workers, Now(), e)
      requires forall k :: 0 <= k < |order| ==> order[k] in phase
      ensures var c' := Apply(P, workers, Now(), e);
              && Shape(P, c') && (forall k :: 0 <= k < |order| ==> order[k] in c'.phase)
              && TotalWork(c'.phase, order) < TotalWork(phase, order)
    {
      hide Agrees, IsRun, EffectiveGraph, Enabled, Apply, IsTopoOrder;
      forall k | 0 <= k < |order| ensures order[k] in P.steps {
        assert order[k] in order;
      }
      EventWorks(P, order, workers, Now(), e);
    }

    lemma SubmitEnablesNothing(c: Config, i: Id, n: nat)
      requires Shape(P, c) && Enabled(P, workers, c, Event.Submit(i)) && n < |ids| && ids[n] == i
      requires forall k :: 0 <= k < n ==> !Enabled(P, workers, c, Event.Submit(ids[k]))
      ensures var c' := Apply(P, workers, c, Event.Submit(i));
              forall k :: 0 <= k <= n ==> !Enabled(P, workers, c', Event.Submit(ids[k]))
    {
      hide EffectiveDeps;
      var c' := Apply(P, workers, c, Event.Submit(i));
      forall k | 0 <= k <= n ensures !Enabled(P, workers, c', Event.Submit(ids[k])) {
        if k < n && ids[k] != i && ids[k] in P.steps {
          assert !Enabled(P, workers, c, Event.Submit(ids[k]));
          if !DepsSatisfied(P, c, ids[k]) {
            var d :| d in EffectiveDeps(P.steps, ids[k]) && !Satisfied(c.phase[d]);
            assert !Satisfied(c'.phase[d]);
          }
        }
      }
    }

    lemma IdsCover()
      requires Valid() && Shape(P, Now())
      requires forall k :: 0 <= k < |ids| ==> !Enabled(P, workers, Now(), Event.Submit(ids[k]))
      ensures forall i :: i in P.steps ==> !Enabled(P, workers, Now(), Event.Submit(i))
    {
      hide Reached, Enabled;
      forall i | i in P.steps ensures !Enabled(P, workers, Now(), Event.Submit(i)) {
        var k :| 0 <= k < |ids| && ids[k] == i;
      }
    }

    /** `_wait_any`: the workers run in any order the pool allows until at least
        one submitted task has returned, and perhaps a while longer. */
    method WaitAny() returns (done: Id)
      requires Valid() && exists i :: i in ids && i in phase && InFlight(phase[i])
      modifies this`recs, this`phase, this`log
      ensures Valid() && CanCollect(done)
      ensures Left() <= old(Left())
    {
      hide *;
      Measures(Id(0));
      var more: bool := *;
      while more || !(exists i :: i in ids && i in phase && phase[i].Returned?)
        invariant Valid() && Shape(P, Now()) && forall k :: 0 <= k < |order| ==> order[k] in phase
        invariant exists i :: i in ids && i in phase && InFlight(phase[i])
        invariant TotalWork(phase, order) <= old(TotalWork(phase, order))
        decreases TotalWork(phase, order)
      {
        if !(exists i :: i in ids && i in phase && (phase[i].Queued? || phase[i].Executing?)) {
          OnlyReturned();
          break;
        }
        var i :| i in ids && i in phase && (phase[i].Queued? || phase[i].Executing?);
        Work(i);
        more := *;
      }
      done :| done in ids && done in phase && phase[done].Returned?;
      ReturnedIsCollectable(done);
      Measures(done);
    }

    /** The measures of this state in terms of the machine. */
    lemma Measures(i: Id)
      requires Valid()
      ensures OrdersPlan(P, order)
      ensures Shape(P, Now()) && (forall k :: 0 <= k < |order| ==> order[k] in phase)
      ensures Left() == TotalWork(phase, order)
      ensures CanCollect(i) <==> Enabled(P, workers, Now(), Event.Collect(i))
    {
      hide TotalWork, Reached, Enabled;
      OrderInPhase();
    }

    lemma OnlyReturned()
      requires exists i :: i in ids && i in phase && InFlight(phase[i])
      requires !(exists i :: i in ids && i in phase && (phase[i].Queued? || phase[i].Executing?))
      ensures exists i :: i in ids && i in phase && phase[i].Returned?
    {
      var i :| i in ids && i in phase && InFlight(phase[i]);
      assert phase[i].Returned?;
    }

    lemma ReturnedIsCollectable(i: Id)
      requires Valid() && Shape(P, Now()) && i in ids && i in phase && phase[i].Returned?
      ensures Enabled(P, workers, Now(), Event.Collect(i))
    {
      hide Reached;
    }

    /** One move of a worker: step `i` is taken if it is queued and the pool has
        room, otherwise some worker finishes the step it is at. */
    method Work(i: Id)
      requires Valid() && Shape(P, Now()) && i in ids && i in phase && (phase[i].Queued? || phase[i].Executing?)
      requires forall k :: 0 <= k < |order| ==> order[k] in phase
      modifies this`recs, this`phase, this`log
      ensures Valid() && Shape(P, Now()) && forall k :: 0 <= k < |order| ==> order[k] in phase
      ensures TotalWork(phase, order) < old(TotalWork(phase, order))
      ensures exists j :: j in ids && j in phase && InFlight(phase[j])
      ensures WorkersOnly(old(Now()), Now())
    {
      hide *;
      if phase[i].Queued? && |Busy(Now())| < workers {
        WorkerMoves(Event.Start(i));
        BeginStep(i);
      } else {
        SomeExecuting(i);
        var b :| b in ids && b in phase && phase[b].Executing?;
        WorkerMoves(Event.Finish(b));
        FinishStep(b);
      }
    }

    lemma SomeExecuting(i: Id)
      requires Valid() && Shape(P, Now()) && i in phase
      requires phase[i].Executing? || |Busy(Now())| >= workers
      ensures exists b :: b in ids && b in phase && phase[b].Executing?
    {
      hide Inv, IsRun;
      var b := i;
      if !phase[i].Executing? {
        assert Busy(Now()) != {};
        b :| b in Busy(Now());
      }
      assert b in ids && b in phase && phase[b].Executing?;
    }

    lemma MoveIsEnabled(e: Event)
      requires Valid() && Shape(P, Now()) && e.id in ids && e.id in phase
      requires (e.Start? && phase[e.id].Queued? && |Busy(Now())| < workers) || (e.Finish? && phase[e.id].Executing?)
      ensures Enabled(P, workers, Now(), e)
    {
      hide Reached;
    }

    /** The workers make any number of moves while the runner does something else. */
    method LetWorkersRun()
      requires Valid()
      modifies this`recs, this`phase, this`log
      ensures Valid() && WorkersOnly(old(Now()), Now())
      ensures TotalWork(phase, order) <= old(TotalWork(phase, order))
      ensures Shape(P, old(Now())) && Shape(P, Now())
    {
      hide *;
      OrderInPhase();
      ghost var start := Now();
      WorkersOnlySelf(start);
      var more: bool := *;
      while more && exists i :: i in ids && i in phase && (phase[i].Queued? || phase[i].Executing?)
        invariant Valid() && Shape(P, Now()) && forall k :: 0 <= k < |order| ==> order[k] in phase
        invariant WorkersOnly(start, Now())
        invariant TotalWork(phase, order) <= old(TotalWork(phase, order))
        decreases TotalWork(phase, order)
      {
        ghost var before := Now();
        var i :| i in ids && i in phase && (phase[i].Queued? || phase[i].Executing?);
        Work(i);
        WorkersOnlyTrans(start, before, Now());
        more := *;
      }
    }

    lemma WorkerMoves(e: Event)
      requires Valid() && Shape(P, Now()) && e.id in ids && e.id in phase
      requires forall k :: 0 <= k < |order| ==> order[k] in phase
      requires (e.Start? && phase[e.id].Queued? && |Busy(Now())| < workers) || (e.Finish? && phase[e.id].Executing?)
      ensures Enabled(P, workers, Now(), e)
      ensures var c' := Apply(P, workers, Now(), e);
              && Shape(P, c') && (forall k :: 0 <= k < |order| ==> order[k] in c'.phase)
              && TotalWork(c'.phase, order) < TotalWork(phase, order)
              && (exists j :: j in ids && j in c'.phase && InFlight(c'.phase[j]))
              && WorkersOnly(Now(), c')
    {
      WorkersOnlyStep(P, workers, Now(), e) by {
        MoveIsEnabled(e);
      }
      hide Reached, RunStep, Resolve, TotalWork, WorkersOnly;
      EventShrinks(e);
      assert InFlight(Apply(P, workers, Now(), e).phase[e.id]);
    }

    /** `run`: submit what is ready, wait for one task to end and settle it, until
        nothing is in flight; workers move before each of these actions. Then the task states are written back to the steps. */
    method Run()
      requires Valid()
      modifies this`recs, this`phase, this`log
      ensures OrdersPlan(P, order) && SameMap(recs, SerialRun(P, order))
    {
      hide *;
      OrderInPhase();
      while true
        invariant Valid() && Shape(P, Now()) && forall k :: 0 <= k < |order| ==> order[k] in phase
        decreases TotalWork(phase, order)
      {
        SubmitReady();
        OrderInPhase();
        if !(exists i :: i in ids && i in phase && InFlight(phase[i])) {
          Confluent();
          break;
        }
        Measures(Id(0));
        var done := WaitAny();
        Measures(done);
        ghost var before := Now();
        LetWorkersRun();
        StillReturned(before, done);
        OrderInPhase();
        EventShrinks(Event.Collect(done));
        Settle(done);
      }
      ProjectBack();
    }

    lemma StillReturned(before: Config, i: Id)
      requires Shape(P, before) && Shape(P, Now()) && WorkersOnly(before, Now())
      requires Enabled(P, workers, before, Event.Collect(i))
      ensures Enabled(P, workers, Now(), Event.Collect(i))
    {
    }

    /** Where the loop stops, the steps read through the task states are those of
        the serial run. */
    lemma Confluent()
      requires Valid() && Shape(P, Now())
      requires forall i :: i in P.steps ==> !Enabled(P, workers, Now(), Event.Submit(i))
      requires !exists i :: i in ids && i in phase && InFlight(phase[i])
      ensures forall m {:trigger SameMap(m, ProjectPlan(Now()))} ::
                SameMap(m, ProjectPlan(Now())) ==> SameMap(m, SerialRun(P, order))
      ensures SameKeys(recs, phase) && forall i :: i in ids <==> i in phase
    {
      hide Agrees, IsRun, OrdersPlan, SerialRun, ProjectPlan, DepsSatisfied;
      forall e | true ensures !Enabled(P, workers, Now(), e) {
        if e.id in P.steps {
          assert e.id in ids;
          assert !InFlight(phase[e.id]);
          assert !Enabled(P, workers, Now(), Event.Submit(e.id));
        }
      }
      Confluence(P, order, workers, log, Now());
    }

    /** `_project_plan`, step by step. */
    method ProjectBack()
      requires SameKeys(recs, phase) && forall i :: i in ids <==> i in phase
      modifies this`recs
      ensures SameMap(recs, ProjectPlan(old(Now())))
    {
      ghost var before := recs;
      for n := 0 to |ids|
        invariant SameKeys(recs, before)
        invariant forall i :: i in recs ==> recs[i] == if i in ids[..n] then Project(before[i], phase[i]) else before[i]
      {
        var i := ids[n];
        assert ids[..n + 1] == ids[..n] + [i];
        if i !in ids[..n] {
          recs := recs[i := Project(recs[i], phase[i])];
        } else {
          ProjectTwice(before[i], phase[i]);
          recs := recs[i := Project(recs[i], phase[i])];
        }
      }
      assert ids[..|ids|] == ids;
    }
  }

  /** Projecting a step again changes nothing. */
  lemma ProjectTwice(rec: Rec, p: Phase)
    ensures Project(Project(rec, p), p) == Project(rec, p)
  {
  }
}
