// The ready-set execution of a plan as a concurrent machine: the runner submits
// ready tasks and collects finished ones, worker threads execute steps in
// between. Every schedule ends in the state of the serial run.
module ReadySet {
  import opened Wrappers
  import opened Templates
  import opened Topo
  import opened Plans

  /** Where a task stands. `Queued`, `Executing` and `Returned` are the task
      state "running": handed to the pool, taken by a worker that has resolved
      its parameters, and left by the worker but not yet polled. */
  datatype Phase =
    | Created
    | Queued
    | Executing(params: Value)
    | Returned(out: HandlerOutcome)
    | Succeeded
    | SkippedTask
    | FailedTask(code: string, text: string)

  predicate Satisfied(p: Phase) {
    p.Succeeded? || p.SkippedTask?
  }

  predicate Terminal(p: Phase) {
    Satisfied(p) || p.FailedTask?
  }

  /** The plan steps as the threads see them, and the task states. */
  datatype Config = Config(recs: map<Id, Rec>, phase: map<Id, Phase>)

  ghost predicate Shape(P: Plan, c: Config) {
    WellFormed(P) && SameKeys(c.recs, P.steps) && SameKeys(c.phase, P.steps)
  }

  /** `_preload_settled`: steps already done or skipped enter as satisfied. */
  function Preload(s: Status): Phase {
    match s
    case Done => Succeeded
    case Skipped => SkippedTask
    case _ => Created
  }

  /** The task states that preloading gives. */
  function Preloaded(init: map<Id, Rec>): (phase: map<Id, Phase>)
    ensures forall i :: i in phase <==> i in init
    ensures forall i :: i in init ==> phase[i] == Preload(init[i].status)
  {
    map i | i in init :: Preload(init[i].status)
  }

  ghost function Init(P: Plan): (c: Config)
    requires WellFormed(P)
    ensures Shape(P, c)
  {
    Config(P.init, Preloaded(P.init))
  }

  // ---------------------------------------------------------------------------
  // Steps of the machine
  // ---------------------------------------------------------------------------

  datatype Event = Submit(id: Id) | Start(id: Id) | Finish(id: Id) | Collect(id: Id)

  function Busy(c: Config): set<Id> {
    set i | i in c.phase && c.phase[i].Executing?
  }

  /** A task is ready when all its dependencies are satisfied. */
  ghost predicate DepsSatisfied(P: Plan, c: Config, i: Id)
    requires Shape(P, c) && i in P.steps
  {
    forall d :: d in EffectiveDeps(P.steps, i) ==> Satisfied(c.phase[d])
  }

  ghost predicate Enabled(P: Plan, workers: nat, c: Config, e: Event)
    requires Shape(P, c)
  {
    e.id in P.steps &&
    match e
    case Submit(i) => c.phase[i].Created? && DepsSatisfied(P, c, i)
    case Start(i) => c.phase[i].Queued? && |Busy(c)| < workers
    case Finish(i) => c.phase[i].Executing?
    case Collect(i) => c.phase[i].Returned?
  }

  /** Each step of the chain depends on the one before and is not satisfied. */
  ghost predicate IsChain(steps: map<Id, Step>, phase: map<Id, Phase>, p: seq<Id>)
    requires SameKeys(phase, steps)
  {
    && |p| >= 2
    && (forall k :: 0 <= k < |p| ==> p[k] in steps)
    && forall k :: 1 <= k < |p| ==> p[k - 1] in EffectiveDeps(steps, p[k]) && !Satisfied(phase[p[k]])
  }

  /** `j` is reached from `i` through dependents that are not satisfied. */
  ghost predicate Downstream(steps: map<Id, Step>, phase: map<Id, Phase>, i: Id, j: Id)
    requires SameKeys(phase, steps)
  {
    exists p :: IsChain(steps, phase, p) && p[0] == i && p[|p| - 1] == j
  }

  /** `_cascade`: everything unfinished downstream of a failed task fails. */
  ghost function Cascade(steps: map<Id, Step>, phase: map<Id, Phase>, i: Id): (after: map<Id, Phase>)
    requires SameKeys(phase, steps)
    ensures SameKeys(after, phase)
  {
    map j | j in phase ::
      if Downstream(steps, phase, i, j) && !Terminal(phase[j]) then FailedTask(UPSTREAM, "") else phase[j]
  }

  ghost function Apply(P: Plan, workers: nat, c: Config, e: Event): (c': Config)
    requires Shape(P, c) && Enabled(P, workers, c, e)
    ensures Shape(P, c')
  {
    var i := e.id;
    match e
    case Submit(_) => c.(phase := c.phase[i := Queued])
    case Start(_) => c.(phase := c.phase[i := Executing(Resolve(P.steps[i].params, ResultsOf(c.recs)))])
    case Finish(_) =>
      var (rec, out) := RunStep(P, i, c.recs[i], c.phase[i].params);
      Config(c.recs[i := rec], c.phase[i := Returned(out)])
    case Collect(_) =>
      match c.phase[i].out
      case HandlerOk => c.(phase := c.phase[i := Succeeded])
      case HandlerError(text) =>
        c.(phase := Cascade(P.steps, c.phase[i := FailedTask(EXECUTION, text)], i))
  }

  /** The events lead from `c` to `c'`, each enabled when it happens. */
  ghost predicate IsRun(P: Plan, workers: nat, c: Config, es: seq<Event>, c': Config)
    requires Shape(P, c)
    decreases |es|
  {
    if es == [] then c == c'
    else Enabled(P, workers, c, es[0]) && IsRun(P, workers, Apply(P, workers, c, es[0]), es[1..], c')
  }

  /** The runner's loop ends here: nothing to submit, nothing in flight. */
  ghost predicate Quiescent(P: Plan, workers: nat, c: Config)
    requires Shape(P, c)
  {
    forall e :: !Enabled(P, workers, c, e)
  }

  /** `_project_plan`: task states written back to the plan steps. */
  function Project(rec: Rec, p: Phase): Rec {
    if Settled(rec.status) then rec
    else
      match p
      case Succeeded => rec.(status := Done)
      case SkippedTask => rec.(status := Skipped)
      case FailedTask(code, text) => ProjectFailed(rec, code, text)
      case _ => rec
  }

  function ProjectPlan(c: Config): map<Id, Rec>
  {
    map i | i in c.recs && i in c.phase :: Project(c.recs[i], c.phase[i])
  }

  // ---------------------------------------------------------------------------
  // The invariant: where a task stands agrees with the serial result
  // ---------------------------------------------------------------------------

  /** The parameters step `i` is sent with in the serial run. */
  ghost function SerialParams(P: Plan, F: map<Id, Rec>, i: Id): Value
    requires WellFormed(P) && i in P.steps && SameKeys(F, P.steps)
  {
    Resolve(P.steps[i].params, ResultsOf(F[i := P.init[i]]))
  }

  ghost predicate Agrees(P: Plan, F: map<Id, Rec>, c: Config, i: Id)
    requires Shape(P, c) && SameKeys(F, P.steps) && i in P.steps
  {
    match c.phase[i]
    case Created =>
      && c.recs[i] == P.init[i] && !Settled(P.init[i].status)
      && forall d :: d in EffectiveDeps(P.steps, i) ==> !c.phase[d].FailedTask?
    case Queued =>
      c.recs[i] == P.init[i] && !Settled(P.init[i].status) && DepsSatisfied(P, c, i)
    case Executing(params) =>
      && c.recs[i] == P.init[i] && !Settled(P.init[i].status) && DepsSatisfied(P, c, i)
      && params == SerialParams(P, F, i)
    case Returned(out) =>
      && !Settled(P.init[i].status) && DepsSatisfied(P, c, i)
      && (c.recs[i], out) == RunStep(P, i, P.init[i], SerialParams(P, F, i))
    case Succeeded => c.recs[i] == F[i] && F[i].status == Done
    case SkippedTask => c.recs[i] == F[i] && F[i].status == Skipped
    case FailedTask(code, _) =>
      && F[i].status == Failed && Project(c.recs[i], c.phase[i]) == F[i]
      && !Settled(P.init[i].status)
      && (code == EXECUTION || code == UPSTREAM) && (code == UPSTREAM <==> Blocked(P.steps, F, i))
  }

  ghost predicate Inv(P: Plan, order: seq<Id>, c: Config) {
    && OrdersPlan(P, order) && Shape(P, c)
    && forall i :: i in P.steps ==> Agrees(P, SerialRun(P, order), c, i)
  }

  lemma InitInv(P: Plan, order: seq<Id>)
    requires OrdersPlan(P, order)
    ensures Inv(P, order, Init(P))
  {
    hide EffectiveDeps, SerialRun, OrdersPlan, RunStep, Project, SerialParams, Blocked;
    var F := SerialRun(P, order);
    forall i | i in P.steps ensures Agrees(P, SerialRun(P, order), Init(P), i) {
      FinalStatus(P, order, i);
    }
  }

  lemma NotBlocked(P: Plan, order: seq<Id>, c: Config, i: Id)
    requires Inv(P, order, c) && i in P.steps && DepsSatisfied(P, c, i)
    ensures !Blocked(P.steps, SerialRun(P, order), i)
  {
    hide EffectiveDeps, OrdersPlan, SerialRun, Agrees;
    forall d | d in EffectiveDeps(P.steps, i) ensures SerialRun(P, order)[d].status != Failed {
      SatisfiedIsFinal(P, order, c, d);
    }
  }

  /** What the serial result of an unsettled step with settled dependencies is. */
  lemma SerialOutcome(P: Plan, order: seq<Id>, c: Config, i: Id)
    requires Inv(P, order, c) && i in P.steps
    requires !Settled(P.init[i].status) && DepsSatisfied(P, c, i)
    ensures var F := SerialRun(P, order);
            var (rec, out) := RunStep(P, i, P.init[i], SerialParams(P, F, i));
            F[i] == if out == HandlerOk then rec else ProjectFailed(rec, EXECUTION, out.text)
  {
    hide EffectiveDeps, OrdersPlan, RunStep, SerialRun, Shape, Resolve;
    var F := SerialRun(P, order);
    FinalEquation(P, order, i);
    NotItsOwnDep(P, order, i);
    forall d | d in EffectiveDeps(P.steps, i) ensures F[d].status != Failed {
      assert Agrees(P, F, c, d);
    }
  }

  lemma SatisfiedIsFinal(P: Plan, order: seq<Id>, c: Config, d: Id)
    requires Inv(P, order, c) && d in P.steps && Satisfied(c.phase[d])
    ensures c.recs[d] == SerialRun(P, order)[d] && Settled(c.recs[d].status)
  {
    hide SerialRun, RunStep, EffectiveDeps, Project, SerialParams, OrdersPlan, Blocked;
    assert Agrees(P, SerialRun(P, order), c, d);
  }

  /** What a worker resolves is what the serial run sends: the effective
      dependencies are settled and nothing else is read. */
  lemma ResolvedNow(P: Plan, order: seq<Id>, c: Config, i: Id)
    requires Inv(P, order, c) && i in P.steps
    requires c.recs[i] == P.init[i] && DepsSatisfied(P, c, i)
    ensures Resolve(P.steps[i].params, ResultsOf(c.recs)) == SerialParams(P, SerialRun(P, order), i)
  {
    hide Resolve, SerialRun, Agrees, EffectiveDeps, OrdersPlan;
    var F := SerialRun(P, order);
    NotItsOwnDep(P, order, i);
    forall d | d in EffectiveDeps(P.steps, i) ensures c.recs[d] == F[d] {
      SatisfiedIsFinal(P, order, c, d);
    }
    ParamsFrame(P, c.recs, F[i := P.init[i]], i);
  }

  /** Tasks other than `i` are not touched and no dependency gets worse. */
  lemma FrameAgrees(P: Plan, order: seq<Id>, c: Config, c': Config, i: Id)
    requires Inv(P, order, c) && Shape(P, c') && i in P.steps
    requires forall j :: j in P.steps && j != i ==> c'.recs[j] == c.recs[j] && c'.phase[j] == c.phase[j]
    requires !Satisfied(c.phase[i]) && !c'.phase[i].FailedTask?
    requires Agrees(P, SerialRun(P, order), c', i)
    ensures Inv(P, order, c')
  {
    hide EffectiveDeps, OrdersPlan, SerialRun, RunStep, Project, SerialParams;
    var F := SerialRun(P, order);
    forall j | j in P.steps ensures Agrees(P, F, c', j) {
      assert Agrees(P, F, c, j);
    }
  }

  lemma SubmitInv(P: Plan, order: seq<Id>, workers: nat, c: Config, i: Id)
    requires Inv(P, order, c) && Enabled(P, workers, c, Submit(i))
    ensures Inv(P, order, Apply(P, workers, c, Submit(i)))
  {
    hide EffectiveDeps, OrdersPlan, SerialRun, RunStep, Project, SerialParams;
    assert Agrees(P, SerialRun(P, order), c, i);
    NotItsOwnDep(P, order, i);
    FrameAgrees(P, order, c, Apply(P, workers, c, Submit(i)), i);
  }

  lemma StartInv(P: Plan, order: seq<Id>, workers: nat, c: Config, i: Id)
    requires Inv(P, order, c) && Enabled(P, workers, c, Start(i))
    ensures Inv(P, order, Apply(P, workers, c, Start(i)))
  {
    hide EffectiveDeps, OrdersPlan, SerialRun, RunStep, Project, SerialParams, SameKeys, Substitute, Cascade;
    assert Agrees(P, SerialRun(P, order), c, i);
    NotItsOwnDep(P, order, i);
    ResolvedNow(P, order, c, i);
    FrameAgrees(P, order, c, Apply(P, workers, c, Start(i)), i);
  }

  lemma FinishInv(P: Plan, order: seq<Id>, workers: nat, c: Config, i: Id)
    requires Inv(P, order, c) && Enabled(P, workers, c, Finish(i))
    ensures Inv(P, order, Apply(P, workers, c, Finish(i)))
  {
    hide EffectiveDeps, OrdersPlan, SerialRun, RunStep, Project, SerialParams, Resolve, SameKeys, Terminal, IsChain;
    assert Agrees(P, SerialRun(P, order), c, i);
    NotItsOwnDep(P, order, i);
    FrameAgrees(P, order, c, Apply(P, workers, c, Finish(i)), i);
  }

  lemma CollectOkInv(P: Plan, order: seq<Id>, workers: nat, c: Config, i: Id)
    requires Inv(P, order, c) && Enabled(P, workers, c, Collect(i)) && i in c.phase && c.phase[i].Returned?
    requires c.phase[i].out == HandlerOk
    ensures Inv(P, order, Apply(P, workers, c, Collect(i)))
  {
    hide EffectiveDeps, OrdersPlan, SerialRun, Agrees, Enabled, IsChain;
    CollectOkAgrees(P, order, workers, c, i);
    FrameAgrees(P, order, c, Apply(P, workers, c, Collect(i)), i);
  }

  lemma CollectOkAgrees(P: Plan, order: seq<Id>, workers: nat, c: Config, i: Id)
    requires Inv(P, order, c) && Enabled(P, workers, c, Collect(i)) && i in c.phase && c.phase[i].Returned?
    requires c.phase[i].out == HandlerOk
    ensures i in P.steps && Agrees(P, SerialRun(P, order), Apply(P, workers, c, Collect(i)), i)
  {
    hide EffectiveDeps, OrdersPlan, SerialRun, Project, SerialParams, RunStep, DepsSatisfied, Blocked, Enabled,
         IsChain, ProjectFailed;
    assert Agrees(P, SerialRun(P, order), c, i);
    SerialOutcome(P, order, c, i);
    HandlerErrorStatus(P, i, P.init[i], SerialParams(P, SerialRun(P, order), i));
  }

  // ---------------------------------------------------------------------------
  // Failure and its cascade
  // ---------------------------------------------------------------------------

  /** Task `i`, returned with an error, becomes a failed task. */
  ghost predicate Fails(c: Config, phase: map<Id, Phase>, i: Id) {
    && i in c.phase && c.phase[i].Returned? && i in phase && phase[i].FailedTask?
    && forall j :: j != i ==> (j in phase <==> j in c.phase) && (j in phase ==> phase[j] == c.phase[j])
  }

  /** Every task on a chain from a failed task fails in the serial run too, and
      none of them has been submitted. */
  lemma {:induction false} ChainFails(P: Plan, order: seq<Id>, c: Config, phase: map<Id, Phase>, p: seq<Id>, j: Id)
    requires Inv(P, order, c) && SameKeys(phase, P.steps) && IsChain(P.steps, phase, p)
    requires p[|p| - 1] == j && j in P.steps && Fails(c, phase, p[0])
    requires SerialRun(P, order)[p[0]].status == Failed
    ensures && SerialRun(P, order)[j].status == Failed && Blocked(P.steps, SerialRun(P, order), j)
            && (c.phase[j].Created? || c.phase[j].FailedTask?)
            && (c.phase[j].Created? ==> SerialRun(P, order)[j] == ProjectFailed(P.init[j], UPSTREAM, ""))
    decreases |p|
  {
    hide EffectiveDeps, OrdersPlan, SerialRun, Agrees;
    var F := SerialRun(P, order);
    var q := p[|p| - 2];
    assert q in EffectiveDeps(P.steps, j) && !Satisfied(phase[j]);
    if |p| > 2 {
      var front := p[..|p| - 1];
      ChainFails(P, order, c, phase, front, q);
    }
    assert F[q].status == Failed && !Satisfied(c.phase[q]);
    FinalStatus(P, order, j);
    assert Blocked(P.steps, F, j);
    ChainEnd(P, order, c, p[0], j, q);
  }

  lemma ChainEnd(P: Plan, order: seq<Id>, c: Config, i: Id, j: Id, q: Id)
    requires Inv(P, order, c) && i in P.steps && j in P.steps && q in EffectiveDeps(P.steps, j)
    requires c.phase[i].Returned? && !Satisfied(c.phase[q])
    requires j != i ==> !Satisfied(c.phase[j])
    ensures c.phase[j].Created? || c.phase[j].FailedTask?
    ensures c.phase[j].Created? ==> !Settled(P.init[j].status)
    ensures c.phase[j].FailedTask? ==> SerialRun(P, order)[j].status == Failed
  {
    hide EffectiveDeps, OrdersPlan, SerialRun, RunStep, Project, SerialParams;
    assert Agrees(P, SerialRun(P, order), c, j);
    assert !DepsSatisfied(P, c, j);
  }

  /** The failed task itself. */
  lemma FailedAgrees(P: Plan, order: seq<Id>, c: Config, phase: map<Id, Phase>, i: Id)
    requires Inv(P, order, c) && i in P.steps && c.phase[i].Returned? && c.phase[i].out.HandlerError?
    requires SameKeys(phase, P.steps) && phase[i] == FailedTask(EXECUTION, c.phase[i].out.text)
    ensures SerialRun(P, order)[i].status == Failed
    ensures Agrees(P, SerialRun(P, order), Config(c.recs, Cascade(P.steps, phase, i)), i)
  {
    hide EffectiveDeps, OrdersPlan, SerialRun, SerialParams, Downstream, RunStep, DepsSatisfied, Blocked, Shape,
         Settled;
    var F := SerialRun(P, order);
    assert Agrees(P, F, c, i);
    SerialOutcome(P, order, c, i);
    NotBlocked(P, order, c, i);
    HandlerErrorStatus(P, i, P.init[i], SerialParams(P, F, i));
  }

  lemma CollectErrorInv(P: Plan, order: seq<Id>, workers: nat, c: Config, i: Id)
    requires Inv(P, order, c) && Enabled(P, workers, c, Collect(i)) && i in c.phase && c.phase[i].Returned?
    requires c.phase[i].out.HandlerError?
    ensures Inv(P, order, Apply(P, workers, c, Collect(i)))
  {
    hide EffectiveDeps, OrdersPlan, SerialRun, Downstream, Agrees, Cascade, RunStep, Resolve;
    var F := SerialRun(P, order);
    var phase := c.phase[i := FailedTask(EXECUTION, c.phase[i].out.text)];
    FailedAgrees(P, order, c, phase, i);
    forall j | j in P.steps && j != i ensures Agrees(P, F, Config(c.recs, Cascade(P.steps, phase, i)), j) {
      CascadeAgrees(P, order, c, phase, i, j);
    }
  }

  lemma HandlerErrorStatus(P: Plan, i: Id, rec: Rec, params: Value)
    requires !Settled(rec.status)
    ensures var (rec', out) := RunStep(P, i, rec, params);
            && (out == HandlerOk <==> rec'.status == Done)
            && (out.HandlerError? ==> !Settled(rec'.status))
  {
  }

  lemma CascadeAgrees(P: Plan, order: seq<Id>, c: Config, phase: map<Id, Phase>, i: Id, j: Id)
    requires Inv(P, order, c) && i in P.steps && c.phase[i].Returned?
    requires SameKeys(phase, P.steps) && Fails(c, phase, i)
    requires SerialRun(P, order)[i].status == Failed
    requires j in P.steps && j != i
    ensures Agrees(P, SerialRun(P, order), Config(c.recs, Cascade(P.steps, phase, i)), j)
  {
    hide EffectiveDeps, OrdersPlan, SerialRun, RunStep, SerialParams, ProjectFailed, Settled, Blocked;
    var F := SerialRun(P, order);
    var c' := Config(c.recs, Cascade(P.steps, phase, i));
    assert Agrees(P, F, c, j);
    if Downstream(P.steps, phase, i, j) {
      var p :| IsChain(P.steps, phase, p) && p[0] == i && p[|p| - 1] == j;
      ChainFails(P, order, c, phase, p, j);
    } else {
      NotDownstreamAgrees(P, order, c, phase, i, j);
    }
  }

  lemma NotDownstreamAgrees(P: Plan, order: seq<Id>, c: Config, phase: map<Id, Phase>, i: Id, j: Id)
    requires Inv(P, order, c) && i in P.steps && c.phase[i].Returned?
    requires SameKeys(phase, P.steps) && Fails(c, phase, i)
    requires j in P.steps && j != i && !Downstream(P.steps, phase, i, j)
    ensures Agrees(P, SerialRun(P, order), Config(c.recs, Cascade(P.steps, phase, i)), j)
  {
    hide EffectiveDeps, OrdersPlan, SerialRun, RunStep, SerialParams, Project, Downstream;
    var F := SerialRun(P, order);
    var c' := Config(c.recs, Cascade(P.steps, phase, i));
    assert Agrees(P, F, c, j) && c'.phase[j] == c.phase[j];
    forall d | d in EffectiveDeps(P.steps, j)
      ensures Satisfied(c.phase[d]) ==> Satisfied(c'.phase[d])
      ensures c.phase[j].Created? && !c.phase[d].FailedTask? ==> !c'.phase[d].FailedTask?
    {
      if !Satisfied(c.phase[j]) && (d == i || Downstream(P.steps, phase, i, d)) {
        ChainExtends(P, phase, i, d, j);
      }
    }
  }

  lemma ChainExtends(P: Plan, phase: map<Id, Phase>, i: Id, d: Id, j: Id)
    requires SameKeys(phase, P.steps) && i in P.steps && j in P.steps
    requires d in EffectiveDeps(P.steps, j) && !Satisfied(phase[j])
    requires d == i || Downstream(P.steps, phase, i, d)
    ensures Downstream(P.steps, phase, i, j)
  {
    hide EffectiveDeps;
    if d == i {
      assert IsChain(P.steps, phase, [i, j]);
    } else {
      var p :| IsChain(P.steps, phase, p) && p[0] == i && p[|p| - 1] == d;
      ChainAppend(P.steps, phase, p, j);
    }
  }

  lemma ChainAppend(steps: map<Id, Step>, phase: map<Id, Phase>, p: seq<Id>, j: Id)
    requires SameKeys(phase, steps) && IsChain(steps, phase, p) && j in steps
    requires p[|p| - 1] in EffectiveDeps(steps, j) && !Satisfied(phase[j])
    ensures IsChain(steps, phase, p + [j])
  {
    hide EffectiveDeps;
    var q := p + [j];
    forall k | 1 <= k < |q| ensures q[k - 1] in EffectiveDeps(steps, q[k]) && !Satisfied(phase[q[k]]) {
      assert q[k - 1] == p[k - 1];
      assert k < |p| ==> q[k] == p[k];
    }
  }

  // ---------------------------------------------------------------------------
  // Every run
  // ---------------------------------------------------------------------------

  lemma StepInv(P: Plan, order: seq<Id>, workers: nat, c: Config, e: Event)
    requires Inv(P, order, c) && Enabled(P, workers, c, e)
    ensures Inv(P, order, Apply(P, workers, c, e))
  {
    hide Apply, Agrees;
    match e {
      case Submit(i) => SubmitInv(P, order, workers, c, i);
      case Start(i) => StartInv(P, order, workers, c, i);
      case Finish(i) => FinishInv(P, order, workers, c, i);
      case Collect(i) =>
        if c.phase[i].out == HandlerOk {
          CollectOkInv(P, order, workers, c, i);
        } else {
          CollectErrorInv(P, order, workers, c, i);
        }
    }
  }

  lemma {:induction false} RunInv(P: Plan, order: seq<Id>, workers: nat, c: Config, es: seq<Event>, c': Config)
    requires Inv(P, order, c) && IsRun(P, workers, c, es, c')
    ensures Inv(P, order, c')
    decreases |es|
  {
    hide Apply, Enabled, Agrees;
    if es != [] {
      StepInv(P, order, workers, c, es[0]);
      RunInv(P, order, workers, Apply(P, workers, c, es[0]), es[1..], c');
    }
  }

  lemma {:induction false} RunSnoc(P: Plan, workers: nat, c: Config, es: seq<Event>, c': Config, e: Event)
    requires Shape(P, c) && IsRun(P, workers, c, es, c') && Shape(P, c') && Enabled(P, workers, c', e)
    ensures IsRun(P, workers, c, es + [e], Apply(P, workers, c', e))
    decreases |es|
  {
    hide Apply, Enabled;
    if es == [] {
      assert [e][1..] == [];
    } else {
      RunSnoc(P, workers, Apply(P, workers, c, es[0]), es[1..], c', e);
      assert (es + [e])[1..] == es[1..] + [e];
    }
  }

  /** The configuration is reached from the initial one by the given run. */
  ghost predicate Reached(P: Plan, order: seq<Id>, workers: nat, es: seq<Event>, c: Config) {
    && workers >= 1 && Inv(P, order, c) && IsRun(P, workers, Init(P), es, c)
  }

  lemma ReachedAtFirst(P: Plan, order: seq<Id>, workers: nat)
    requires OrdersPlan(P, order) && workers >= 1
    ensures Reached(P, order, workers, [], Init(P))
  {
    hide OrdersPlan, Agrees, EffectiveGraph;
    InitInv(P, order);
  }

  lemma ReachedNext(P: Plan, order: seq<Id>, workers: nat, es: seq<Event>, c: Config, e: Event)
    requires Reached(P, order, workers, es, c) && Enabled(P, workers, c, e)
    ensures Reached(P, order, workers, es + [e], Apply(P, workers, c, e))
  {
    hide Apply, Enabled, IsRun, Agrees, OrdersPlan;
    StepInv(P, order, workers, c, e);
    RunSnoc(P, workers, Init(P), es, c, e);
  }

  // ---------------------------------------------------------------------------
  // Where a run can end
  // ---------------------------------------------------------------------------

  /** A task whose earlier tasks are all finished is finished or can move. */
  lemma EarliestMoves(P: Plan, order: seq<Id>, workers: nat, c: Config, k: nat) returns (e: Event)
    requires Inv(P, order, c) && workers >= 1 && k < |order| && order[k] in P.steps
    requires forall j :: j in order[..k] ==> j in P.steps && Terminal(c.phase[j])
    requires !Terminal(c.phase[order[k]])
    ensures Enabled(P, workers, c, e)
  {
    hide EffectiveDeps, OrdersPlan, SerialRun, RunStep, Project, SerialParams;
    var i := order[k];
    assert Agrees(P, SerialRun(P, order), c, i);
    match c.phase[i] {
      case Created =>
        e := Submit(i);
        forall d | d in EffectiveDeps(P.steps, i) ensures Satisfied(c.phase[d]) {
          DepIsBefore(P, order, k, d);
        }
      case Queued =>
        if |Busy(c)| < workers {
          e := Start(i);
        } else {
          assert Busy(c) != {};
          NonEmpty(Busy(c));
          var b :| b in Busy(c);
          e := Finish(b);
        }
      case Executing(_) => e := Finish(i);
      case Returned(_) => e := Collect(i);
    }
  }

  lemma {:induction false} QuietPrefix(P: Plan, order: seq<Id>, workers: nat, c: Config, k: nat)
    requires Inv(P, order, c) && workers >= 1 && Quiescent(P, workers, c) && k <= |order|
    ensures forall j :: j in order[..k] ==> j in P.steps && Terminal(c.phase[j])
  {
    hide Agrees, Enabled, EffectiveDeps, EffectiveGraph, IsTopoOrder, Busy;
    if k > 0 {
      QuietPrefix(P, order, workers, c, k - 1);
      assert order[..k] == order[..k - 1] + [order[k - 1]];
      if !Terminal(c.phase[order[k - 1]]) {
        var e := EarliestMoves(P, order, workers, c, k - 1);
        assert false;
      }
    }
  }

  /** No deadlock: when the runner stops, every task is in a terminal state. */
  lemma QuiescentIsTerminal(P: Plan, order: seq<Id>, workers: nat, c: Config)
    requires Inv(P, order, c) && workers >= 1 && Quiescent(P, workers, c)
    ensures forall i :: i in P.steps ==> Terminal(c.phase[i])
  {
    hide Agrees, Quiescent, Enabled;
    QuietPrefix(P, order, workers, c, |order|);
    assert order[..|order|] == order;
  }

  /** A task that is finished has the serial result, once projected. */
  lemma TerminalIsFinal(P: Plan, order: seq<Id>, c: Config, i: Id)
    requires Inv(P, order, c) && i in P.steps && Terminal(c.phase[i])
    ensures Project(c.recs[i], c.phase[i]) == SerialRun(P, order)[i]
  {
    hide EffectiveDeps, OrdersPlan, SerialRun, RunStep, SerialParams, ProjectFailed, Blocked, DepsSatisfied;
    assert Agrees(P, SerialRun(P, order), c, i);
  }

  /** Confluence. Whatever the schedule and however many workers, a run that
      ends leaves every step with the status, result and error of the serial run
      in topological order. */
  lemma Confluence(P: Plan, order: seq<Id>, workers: nat, es: seq<Event>, c: Config)
    requires OrdersPlan(P, order) && workers >= 1
    requires IsRun(P, workers, Init(P), es, c) && Shape(P, c) && Quiescent(P, workers, c)
    ensures SameMap(ProjectPlan(c), SerialRun(P, order))
  {
    hide OrdersPlan, SerialRun, IsRun, Quiescent, Agrees, Project;
    InitInv(P, order);
    RunInv(P, order, workers, Init(P), es, c);
    QuiescentIsTerminal(P, order, workers, c);
    forall i | i in P.steps ensures Project(c.recs[i], c.phase[i]) == SerialRun(P, order)[i] {
      TerminalIsFinal(P, order, c, i);
    }
  }

  // ---------------------------------------------------------------------------
  // How long a run can be and what it executes
  // ---------------------------------------------------------------------------

  /** The steps of the machine a task still has before it. */
  function Work(p: Phase): nat {
    match p
    case Created => 4
    case Queued => 3
    case Executing(_) => 2
    case Returned(_) => 1
    case _ => 0
  }

  function TotalWork(phase: map<Id, Phase>, order: seq<Id>): nat
    requires forall k :: 0 <= k < |order| ==> order[k] in phase
  {
    if order == [] then 0
    else
      Work(phase[order[0]]) + TotalWork(phase, order[1..])
  }

  lemma {:induction false} WorkMonotone(phase: map<Id, Phase>, phase': map<Id, Phase>, order: seq<Id>)
    requires forall k :: 0 <= k < |order| ==> order[k] in phase && order[k] in phase'
    requires forall k :: 0 <= k < |order| ==> Work(phase'[order[k]]) <= Work(phase[order[k]])
    ensures TotalWork(phase', order) <= TotalWork(phase, order)
    ensures (exists k :: 0 <= k < |order| && Work(phase'[order[k]]) < Work(phase[order[k]]))
            ==> TotalWork(phase', order) < TotalWork(phase, order)
  {
    if order != [] {
      WorkMonotone(phase, phase', order[1..]);
    }
  }

  lemma {:induction false} WorkBound(phase: map<Id, Phase>, order: seq<Id>)
    requires forall k :: 0 <= k < |order| ==> order[k] in phase
    ensures TotalWork(phase, order) <= 4 * |order|
  {
    if order != [] {
      WorkBound(phase, order[1..]);
    }
  }

  lemma EventWorks(P: Plan, order: seq<Id>, workers: nat, c: Config, e: Event)
    requires OrdersPlan(P, order) && Shape(P, c) && Enabled(P, workers, c, e)
    requires forall k :: 0 <= k < |order| ==> order[k] in P.steps
    ensures TotalWork(Apply(P, workers, c, e).phase, order) < TotalWork(c.phase, order)
  {
    hide Apply;
    var c' := Apply(P, workers, c, e);
    forall k | 0 <= k < |order| ensures Work(c'.phase[order[k]]) <= Work(c.phase[order[k]]) {
      EventWork(P, workers, c, e, order[k]);
    }
    EventWork(P, workers, c, e, e.id);
    var k :| 0 <= k < |order| && order[k] == e.id;
    WorkMonotone(c.phase, c'.phase, order);
  }

  lemma EventWork(P: Plan, workers: nat, c: Config, e: Event, i: Id)
    requires Shape(P, c) && Enabled(P, workers, c, e) && i in P.steps
    ensures Work(Apply(P, workers, c, e).phase[i]) <= Work(c.phase[i])
    ensures i == e.id ==> Work(Apply(P, workers, c, e).phase[i]) < Work(c.phase[i])
  {
    hide EffectiveDeps, OrdersPlan, Downstream, RunStep, Resolve;
  }

  lemma {:induction false} RunWorks(P: Plan, order: seq<Id>, workers: nat, c: Config, es: seq<Event>, c': Config)
    requires OrdersPlan(P, order) && Shape(P, c) && IsRun(P, workers, c, es, c')
    requires forall k :: 0 <= k < |order| ==> order[k] in P.steps
    ensures Shape(P, c') && |es| + TotalWork(c'.phase, order) <= TotalWork(c.phase, order)
    decreases |es|
  {
    hide Apply, Enabled;
    if es != [] {
      EventWorks(P, order, workers, c, es[0]);
      RunWorks(P, order, workers, Apply(P, workers, c, es[0]), es[1..], c');
    }
  }

  /** Every run stops: it has at most four events a step. */
  lemma RunsAreBounded(P: Plan, order: seq<Id>, workers: nat, es: seq<Event>, c: Config)
    requires OrdersPlan(P, order) && IsRun(P, workers, Init(P), es, c)
    ensures |es| <= 4 * |order|
  {
    hide IsRun, TotalWork, EffectiveDeps;
    RunWorks(P, order, workers, Init(P), es, c);
    WorkBound(Init(P).phase, order);
  }

  lemma OrderInPlan(P: Plan, order: seq<Id>)
    requires OrdersPlan(P, order)
    ensures forall k :: 0 <= k < |order| ==> order[k] in P.steps
  {
    hide EffectiveDeps, EffectiveGraph, IsTopoOrder;
    assert forall k :: 0 <= k < |order| ==> order[k] in order;
  }

  /** Every run can be carried on to one that ends, and with confluence to the
      serial result: no schedule paints itself into a corner. */
  lemma {:induction false} EveryRunEnds(P: Plan, order: seq<Id>, workers: nat, es: seq<Event>, c: Config)
    returns (more: seq<Event>, d: Config)
    requires Reached(P, order, workers, es, c)
    ensures Reached(P, order, workers, es + more, d) && Quiescent(P, workers, d)
    decreases if forall k :: 0 <= k < |order| ==> order[k] in c.phase then TotalWork(c.phase, order) else 0
  {
    hide Apply, Enabled, IsRun, Agrees, OrdersPlan, TotalWork, SerialRun, Init, WellFormed;
    OrderInPlan(P, order);
    if Quiescent(P, workers, c) {
      more, d := [], c;
      assert es + more == es;
    } else {
      var e :| Enabled(P, workers, c, e);
      ReachedNext(P, order, workers, es, c, e);
      EventWorks(P, order, workers, c, e);
      var rest;
      rest, d := EveryRunEnds(P, order, workers, es + [e], Apply(P, workers, c, e));
      more := [e] + rest;
      assert (es + [e]) + rest == es + more;
    }
  }

  /** A worker has taken this task. */
  predicate Begun(p: Phase) {
    p.Executing? || p.Returned? || p.Succeeded? || (p.FailedTask? && p.code == EXECUTION)
  }

  /** How often step `i` is executed in a run. */
  function Starts(es: seq<Event>, i: Id): nat {
    if es == [] then 0 else (if es[0] == Start(i) then 1 else 0) + Starts(es[1..], i)
  }

  function Once(b: bool): nat {
    if b then 1 else 0
  }

  /** A cascade fails only tasks that were never submitted. */
  lemma CascadeHitsCreated(P: Plan, order: seq<Id>, workers: nat, c: Config, e: Event, j: Id)
    requires Inv(P, order, c) && Enabled(P, workers, c, e) && e.Collect? && j in P.steps && j != e.id
    ensures var c' := Apply(P, workers, c, e);
            c'.phase[j] == c.phase[j] || (c.phase[j].Created? && c'.phase[j] == FailedTask(UPSTREAM, ""))
  {
    hide EffectiveDeps, OrdersPlan, SerialRun, Agrees, RunStep, Resolve, Project, Downstream;
    var i := e.id;
    if c.phase[i].out.HandlerError? {
      var phase := c.phase[i := FailedTask(EXECUTION, c.phase[i].out.text)];
      if Downstream(P.steps, phase, i, j) {
        HitIsCreated(P, order, c, phase, i, j);
      }
    }
  }

  lemma HitIsCreated(P: Plan, order: seq<Id>, c: Config, phase: map<Id, Phase>, i: Id, j: Id)
    requires Inv(P, order, c) && i in P.steps && j in P.steps && c.phase[i].Returned? && c.phase[i].out.HandlerError?
    requires phase == c.phase[i := FailedTask(EXECUTION, c.phase[i].out.text)] && Downstream(P.steps, phase, i, j)
    requires j != i
    ensures c.phase[j].Created? || c.phase[j].FailedTask?
  {
    hide EffectiveDeps, OrdersPlan, SerialRun, Agrees, RunStep, Resolve, Project, Cascade;
    var p :| IsChain(P.steps, phase, p) && p[0] == i && p[|p| - 1] == j;
    FailedAgrees(P, order, c, phase, i);
    ChainFails(P, order, c, phase, p, j);
  }

  lemma FailedStaysFailed(P: Plan, order: seq<Id>, c: Config, i: Id)
    requires Inv(P, order, c) && i in P.steps && c.phase[i].FailedTask?
    ensures SerialRun(P, order)[i].status == Failed
  {
    hide EffectiveDeps, OrdersPlan, SerialRun, SerialParams, Project, RunStep, Blocked, DepsSatisfied, ProjectFailed,
         SameKeys;
    assert Agrees(P, SerialRun(P, order), c, i);
  }

  lemma EventBegins(P: Plan, order: seq<Id>, workers: nat, c: Config, e: Event, i: Id)
    requires Inv(P, order, c) && Enabled(P, workers, c, e) && i in P.steps
    ensures Once(e == Start(i)) + Once(Begun(c.phase[i])) == Once(Begun(Apply(P, workers, c, e).phase[i]))
  {
    hide EffectiveDeps, OrdersPlan, Agrees, Downstream;
    if e.Collect? && e.id != i {
      CascadeHitsCreated(P, order, workers, c, e, i);
    }
  }

  lemma {:induction false} RunBegins(P: Plan, order: seq<Id>, workers: nat, c: Config, es: seq<Event>, c': Config, i: Id)
    requires Inv(P, order, c) && IsRun(P, workers, c, es, c') && Shape(P, c') && i in P.steps
    ensures Starts(es, i) + Once(Begun(c.phase[i])) == Once(Begun(c'.phase[i]))
    decreases |es|
  {
    hide Apply, Enabled, Agrees;
    if es != [] {
      StepInv(P, order, workers, c, es[0]);
      EventBegins(P, order, workers, c, es[0], i);
      RunBegins(P, order, workers, Apply(P, workers, c, es[0]), es[1..], c', i);
    }
  }

  /** A step is started at most once if no two events start it. */
  lemma {:induction false} StartsMean(es: seq<Event>, i: Id)
    ensures Starts(es, i) == 0 <==> Start(i) !in es
    ensures Starts(es, i) <= 1 ==> forall j, k :: 0 <= j < k < |es| ==> es[j] != Start(i) || es[k] != Start(i)
  {
    if es != [] {
      var rest := es[1..];
      assert es == [es[0]] + rest;
      StartsMean(rest, i);
      if Starts(es, i) <= 1 {
        forall j, k | 0 <= j < k < |es| ensures es[j] != Start(i) || es[k] != Start(i) {
          assert es[k] == rest[k - 1] && rest[k - 1] in rest;
          if j > 0 {
            assert es[j] == rest[j - 1];
          }
        }
      }
    }
  }

  /** A run that ends has executed exactly the steps that were not settled
      before and have no failed dependency, each once. In every run, ended or
      not, no step is executed twice. */
  lemma ExecutedOnce(P: Plan, order: seq<Id>, workers: nat, es: seq<Event>, c: Config, i: Id)
    requires OrdersPlan(P, order) && workers >= 1 && i in P.steps
    requires IsRun(P, workers, Init(P), es, c) && Shape(P, c)
    ensures Starts(es, i) <= 1
    ensures Quiescent(P, workers, c) ==>
              Starts(es, i) == Once(!Settled(P.init[i].status) && !Blocked(P.steps, SerialRun(P, order), i))
  {
    hide EffectiveDeps, OrdersPlan, SerialRun, RunStep, SerialParams, IsRun, Quiescent, Starts, Project, Shape;
    InitInv(P, order);
    RunInv(P, order, workers, Init(P), es, c);
    RunBegins(P, order, workers, Init(P), es, c, i);
    if Quiescent(P, workers, c) {
      QuiescentIsTerminal(P, order, workers, c);
      assert Agrees(P, SerialRun(P, order), c, i);
      FinalStatus(P, order, i);
      if Settled(P.init[i].status) {
        RunKeepsSettled(P, order, workers, Init(P), es, c, i);
      }
    }
  }

  lemma {:induction false} RunKeepsSettled(P: Plan, order: seq<Id>, workers: nat, c: Config, es: seq<Event>, c': Config, i: Id)
    requires Inv(P, order, c) && IsRun(P, workers, c, es, c') && Shape(P, c')
    requires i in P.steps && Satisfied(c.phase[i])
    ensures c'.phase[i] == c.phase[i] && c'.recs[i] == c.recs[i]
    decreases |es|
  {
    hide Agrees, Apply, Enabled;
    if es != [] {
      StepInv(P, order, workers, c, es[0]);
      EventKeepsSettled(P, workers, c, es[0], i);
      RunKeepsSettled(P, order, workers, Apply(P, workers, c, es[0]), es[1..], c', i);
    }
  }

  lemma EventKeepsSettled(P: Plan, workers: nat, c: Config, e: Event, i: Id)
    requires Shape(P, c) && Enabled(P, workers, c, e) && i in P.steps && Satisfied(c.phase[i])
    ensures var c' := Apply(P, workers, c, e); c'.phase[i] == c.phase[i] && c'.recs[i] == c.recs[i]
  {
    hide EffectiveDeps, OrdersPlan, Downstream, RunStep, Resolve;
  }

  // ---------------------------------------------------------------------------
  // The bound on concurrency
  // ---------------------------------------------------------------------------

  lemma {:induction false} NeverTooBusy(P: Plan, workers: nat, c: Config, es: seq<Event>, c': Config)
    requires Shape(P, c) && IsRun(P, workers, c, es, c') && |Busy(c)| <= workers
    ensures |Busy(c')| <= workers
    decreases |es|
  {
    hide Apply, Enabled, Busy;
    if es != [] {
      EventBusy(P, workers, c, es[0]);
      NeverTooBusy(P, workers, Apply(P, workers, c, es[0]), es[1..], c');
    }
  }

  /** No run from the start has more steps in execution than there are workers. */
  lemma WorkersBounded(P: Plan, workers: nat, es: seq<Event>, c: Config)
    requires WellFormed(P) && Shape(P, Init(P)) && Shape(P, c) && IsRun(P, workers, Init(P), es, c)
    ensures |set i | i in c.phase && c.phase[i].Executing?| <= workers
  {
    hide IsRun;
    assert Busy(Init(P)) == {};
    NeverTooBusy(P, workers, Init(P), es, c);
  }

  lemma EventBusy(P: Plan, workers: nat, c: Config, e: Event)
    requires Shape(P, c) && Enabled(P, workers, c, e) && |Busy(c)| <= workers
    ensures |Busy(Apply(P, workers, c, e))| <= workers
  {
    hide EffectiveDeps, OrdersPlan, Downstream, RunStep;
    var c' := Apply(P, workers, c, e);
    if e.Start? {
      assert Busy(c') <= Busy(c) + {e.id};
      SubsetSize(Busy(c'), Busy(c) + {e.id});
    } else {
      assert Busy(c') <= Busy(c);
      SubsetSize(Busy(c'), Busy(c));
    }
  }

  lemma {:induction false} SubsetSize(a: set<Id>, b: set<Id>)
    requires a <= b
    ensures |a| <= |b|
  {
    if a != {} {
      NonEmpty(a);
      var x :| x in a;
      SubsetSize(a - {x}, b - {x});
    }
  }
}
