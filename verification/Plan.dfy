// Plans and the meaning of executing them: the effective dependency graph, one
// step, and the serial run in topological order.
module Plans {
  import opened Wrappers
  import opened Templates
  import opened Topo

  datatype Status = Pending | Done | Failed | Skipped

  /** The part of a plan step that execution changes. */
  datatype Rec = Rec(status: Status, result: Option<Outputs>, error: Option<string>)

  /** The part of a plan step that execution reads. */
  datatype Step = Step(params: Value, dependsOn: seq<Id>)

  /** What a node call does: it returns outputs or raises. `typed` says that the
      exception is of the type the plain executor accepts as a step failure. */
  datatype Outcome = Reply(outputs: Outputs) | Raised(typed: bool, kind: string, message: string)

  /** A plan with the steps' initial state. `call` is the federated client as a
      function of the step and its resolved parameters; `catchAll` is true for
      the reflective executor, which accepts every exception. */
  datatype Plan = Plan(
    steps: map<Id, Step>,
    init: map<Id, Rec>,
    call: (Id, Value) -> Outcome,
    catchAll: bool)

  /** The two maps are about the same steps. */
  ghost predicate SameKeys<T, U>(a: map<Id, T>, b: map<Id, U>) {
    forall i :: i in a <==> i in b
  }

  /** The two maps are equal. */
  ghost predicate SameMap<T>(a: map<Id, T>, b: map<Id, T>) {
    SameKeys(a, b) && forall i :: i in a ==> a[i] == b[i]
  }

  ghost predicate WellFormed(P: Plan) {
    SameKeys(P.init, P.steps)
  }

  predicate Settled(s: Status) {
    s == Done || s == Skipped
  }

  // ---------------------------------------------------------------------------
  // The effective graph
  // ---------------------------------------------------------------------------

  /** `_effective_deps`: explicit in-plan dependencies, and in-plan steps named
      by a template of another step. */
  function EffectiveDeps(steps: map<Id, Step>, i: Id): (deps: set<Id>)
    requires i in steps
    ensures deps <= steps.Keys
  {
    (set d: Id | d in steps[i].dependsOn && d in steps)
    + (set d: Id | d in TemplateDeps(steps[i].params) && d in steps && d != i)
  }

  function Least(s: set<Id>): (m: Id)
    requires s != {}
    ensures m in s && forall x :: x in s ==> m.num <= x.num
  {
    LeastExists(s);
    var m :| m in s && forall x :: x in s ==> m.num <= x.num;
    m
  }

  lemma NonEmpty(s: set<Id>)
    requires s != {}
    ensures exists x :: x in s
  {
    if forall x :: x !in s {
      assert false;
    }
  }

  lemma {:induction false} LeastExists(s: set<Id>)
    requires s != {}
    ensures exists m :: m in s && forall x :: x in s ==> m.num <= x.num
  {
    NonEmpty(s);
    var x: Id :| x in s;
    if s - {x} != {} {
      LeastExists(s - {x});
      var m :| m in s - {x} && forall y :: y in s - {x} ==> m.num <= y.num;
      var least := if x.num < m.num then x else m;
      assert forall y :: y in s ==> y == x || y in s - {x};
      assert least in s && forall y :: y in s ==> least.num <= y.num;
    } else {
      assert forall y :: y in s ==> y == x || y in s - {x};
      assert x in s && forall y :: y in s ==> x.num <= y.num;
    }
  }

  /** `sorted` of a set. */
  function Ascending(s: set<Id>): (r: seq<Id>)
    ensures forall x :: x in r <==> x in s
    ensures forall i, j :: 0 <= i < j < |r| ==> r[i].num < r[j].num
  {
    if s == {} then []
    else
      var m := Least(s);
      [m] + Ascending(s - {m})
  }

  /** The graph handed to the task layer. */
  function EffectiveGraph(steps: map<Id, Step>): Graph {
    map i | i in steps :: Ascending(EffectiveDeps(steps, i))
  }

  lemma EffectiveEdge(steps: map<Id, Step>, i: Id, d: Id)
    ensures Edge(EffectiveGraph(steps), i, d) <==> i in steps && d in EffectiveDeps(steps, i)
  {
  }

  // ---------------------------------------------------------------------------
  // One step
  // ---------------------------------------------------------------------------

  /** `by_id` as template resolution sees it. */
  function ResultsOf(recs: map<Id, Rec>): Results {
    map d: Id | d in recs && recs[d].result.Some? :: recs[d].result.value
  }

  /** What the task layer learns from a handler: success, or the text of the
      exception that left it. */
  datatype HandlerOutcome = HandlerOk | HandlerError(text: string)

  predicate Truthy(e: Option<string>) {
    e.Some? && e.value != ""
  }

  /** `_run_step` on already resolved parameters, with `_step_handler` around it. */
  function RunStep(P: Plan, i: Id, rec: Rec, params: Value): (Rec, HandlerOutcome) {
    match P.call(i, params)
    case Reply(outputs) => (rec.(status := Done, result := Some(outputs)), HandlerOk)
    case Raised(typed, kind, message) =>
      if typed || P.catchAll then
        (rec.(status := Failed, error := Some(message)),
         HandlerError("_StepFailed: " + if message == "" then "step failed" else message))
      else
        (rec, HandlerError(kind + ": " + message))
  }

  const UPSTREAM := "upstream_failed"
  const EXECUTION := "execution_error"
  const CASCADED := "a dependency step failed"

  /** `_project_plan` on a step whose task failed with the given code and text. */
  function ProjectFailed(rec: Rec, code: string, text: string): Rec {
    rec.(status := Failed,
         error := if Truthy(rec.error) then rec.error
                  else Some(if code == UPSTREAM then CASCADED else if text != "" then text else code))
  }

  // ---------------------------------------------------------------------------
  // The serial run
  // ---------------------------------------------------------------------------

  ghost predicate Blocked(steps: map<Id, Step>, recs: map<Id, Rec>, i: Id)
    requires i in steps && SameKeys(recs, steps)
  {
    exists d :: d in EffectiveDeps(steps, i) && recs[d].status == Failed
  }

  /** The state of step `i` after its turn, from the state of the plan before. */
  ghost function Turn(P: Plan, recs: map<Id, Rec>, i: Id): Rec
    requires i in P.steps && SameKeys(recs, P.steps)
  {
    if Settled(recs[i].status) then recs[i]
    else if Blocked(P.steps, recs, i) then ProjectFailed(recs[i], UPSTREAM, "")
    else
      var (rec, out) := RunStep(P, i, recs[i], Resolve(P.steps[i].params, ResultsOf(recs)));
      if out == HandlerOk then rec else ProjectFailed(rec, EXECUTION, out.text)
  }

  /** `order` is a topological order of the plan's effective graph. */
  ghost predicate OrdersPlan(P: Plan, order: seq<Id>) {
    && WellFormed(P) && (forall i :: i in order <==> i in P.steps)
    && IsTopoOrder(EffectiveGraph(P.steps), order)
  }

  /** The plan after the first `k` steps of `order` had their turn. */
  ghost function Serial(P: Plan, order: seq<Id>, k: nat): (recs: map<Id, Rec>)
    requires OrdersPlan(P, order) && k <= |order|
    ensures SameKeys(recs, P.steps)
  {
    if k == 0 then P.init
    else
      var before := Serial(P, order, k - 1);
      assert order[k - 1] in order;
      before[order[k - 1] := Turn(P, before, order[k - 1])]
  }

  ghost function SerialRun(P: Plan, order: seq<Id>): (recs: map<Id, Rec>)
    requires OrdersPlan(P, order)
    ensures SameKeys(recs, P.steps) && WellFormed(P)
  {
    Serial(P, order, |order|)
  }

  lemma Position(P: Plan, order: seq<Id>, i: Id) returns (k: nat)
    requires OrdersPlan(P, order) && i in P.steps
    ensures k < |order| && order[k] == i
    ensures i !in order[..k] && i !in order[k + 1..]
  {
    k :| 0 <= k < |order| && order[k] == i;
  }

  lemma {:induction false} SerialKeeps(P: Plan, order: seq<Id>, k: nat, m: nat, i: Id)
    requires OrdersPlan(P, order) && k <= m <= |order| && i in P.steps
    requires i !in order[k..m]
    ensures Serial(P, order, m)[i] == Serial(P, order, k)[i]
    decreases m
  {
    hide Turn, OrdersPlan;
    if k < m {
      assert order[k..m][m - 1 - k] == order[m - 1];
      assert order[k..m - 1] == order[k..m][..m - 1 - k];
      SerialKeeps(P, order, k, m - 1, i);
    }
  }

  /** A turn reads the step itself and its effective dependencies, nothing else. */
  lemma TurnFrame(P: Plan, recs: map<Id, Rec>, recs': map<Id, Rec>, i: Id)
    requires i in P.steps && SameKeys(recs, P.steps) && SameKeys(recs', P.steps)
    requires recs[i] == recs'[i]
    requires forall d :: d in EffectiveDeps(P.steps, i) ==> recs[d] == recs'[d]
    ensures Turn(P, recs, i) == Turn(P, recs', i)
  {
    ParamsFrame(P, recs, recs', i);
  }

  /** The parameters a step is sent with depend on its effective dependencies
      only (and on its own earlier result, if it names itself). */
  lemma ParamsFrame(P: Plan, recs: map<Id, Rec>, recs': map<Id, Rec>, i: Id)
    requires i in P.steps && SameKeys(recs, P.steps) && SameKeys(recs', P.steps)
    requires recs[i] == recs'[i]
    requires forall d :: d in EffectiveDeps(P.steps, i) ==> recs[d] == recs'[d]
    ensures Resolve(P.steps[i].params, ResultsOf(recs)) == Resolve(P.steps[i].params, ResultsOf(recs'))
  {
    hide Resolve, TemplateDeps;
    forall d | d in TemplateDeps(P.steps[i].params)
      ensures SameFor(ResultsOf(recs), ResultsOf(recs'), d)
    {
      if d in P.steps && d != i {
        assert d in EffectiveDeps(P.steps, i);
      }
    }
    ResolveFrame(P.steps[i].params, ResultsOf(recs), ResultsOf(recs'));
  }

  /** A dependency has its turn before its dependent and none after it. */
  lemma DepIsBefore(P: Plan, order: seq<Id>, k: nat, d: Id)
    requires OrdersPlan(P, order) && k < |order|
    requires order[k] in P.steps && d in EffectiveDeps(P.steps, order[k])
    ensures d in order[..k] && d !in order[k..] && d != order[k]
  {
    hide EffectiveDeps;
    EffectiveEdge(P.steps, order[k], d);
    var j :| 0 <= j < k && order[j] == d;
    assert order[..k][j] == d;
  }

  /** The equation that determines the result of the serial run: the final state
      of a step is its turn on the final states of the others. */
  lemma FinalEquation(P: Plan, order: seq<Id>, i: Id)
    requires OrdersPlan(P, order) && i in P.steps
    ensures var F := SerialRun(P, order); F[i] == Turn(P, F[i := P.init[i]], i)
  {
    hide Turn, EffectiveDeps, OrdersPlan, Ascending;
    var F := SerialRun(P, order);
    var k := Position(P, order, i);
    var before := Serial(P, order, k);
    assert order[0..k] == order[..k] && order[k + 1..|order|] == order[k + 1..];
    SerialKeeps(P, order, 0, k, i);
    SerialKeeps(P, order, k + 1, |order|, i);
    forall d | d in EffectiveDeps(P.steps, i) ensures d != i && before[d] == F[d] {
      DepIsBefore(P, order, k, d);
      assert order[k..|order|] == order[k..];
      SerialKeeps(P, order, k, |order|, d);
    }
    TurnFrame(P, before, F[i := P.init[i]], i);
  }

  lemma NotItsOwnDep(P: Plan, order: seq<Id>, i: Id)
    requires OrdersPlan(P, order) && i in P.steps
    ensures i !in EffectiveDeps(P.steps, i)
  {
    hide EffectiveDeps, OrdersPlan;
    var k := Position(P, order, i);
    if i in EffectiveDeps(P.steps, i) {
      DepIsBefore(P, order, k, i);
    }
  }

  /** After the serial run every step is done, skipped or failed. Settled steps
      are as they were; a step with a failed dependency failed because of it. */
  lemma FinalStatus(P: Plan, order: seq<Id>, i: Id)
    requires OrdersPlan(P, order) && i in P.steps
    ensures var F := SerialRun(P, order);
            && F[i].status != Pending
            && (!Settled(P.init[i].status) ==> F[i].status != Skipped)
            && (Settled(P.init[i].status) ==> F[i] == P.init[i])
            && (!Settled(P.init[i].status) && Blocked(P.steps, F, i) ==>
                  F[i] == ProjectFailed(P.init[i], UPSTREAM, ""))
  {
    hide Resolve, EffectiveDeps, SerialRun, OrdersPlan;
    FinalEquation(P, order, i);
    NotItsOwnDep(P, order, i);
    var F := SerialRun(P, order);
    var G := F[i := P.init[i]];
    assert forall d :: d in EffectiveDeps(P.steps, i) ==> G[d] == F[d];
    assert Blocked(P.steps, G, i) <==> Blocked(P.steps, F, i);
  }

  /** The serial result does not depend on which topological order is taken. */
  lemma OrderIrrelevant(P: Plan, order: seq<Id>, other: seq<Id>)
    requires OrdersPlan(P, order) && OrdersPlan(P, other)
    ensures SameMap(SerialRun(P, order), SerialRun(P, other))
  {
    hide SerialRun, EffectiveDeps, OrdersPlan;
    var F, G := SerialRun(P, order), SerialRun(P, other);
    forall i | i in P.steps ensures i in F && i in G && F[i] == G[i] {
      var k := Position(P, order, i);
      SamePrefix(P, order, other, k);
    }
  }

  lemma {:induction false} SamePrefix(P: Plan, order: seq<Id>, other: seq<Id>, k: nat)
    requires OrdersPlan(P, order) && OrdersPlan(P, other) && k < |order| && order[k] in P.steps
    ensures SerialRun(P, order)[order[k]] == SerialRun(P, other)[order[k]]
  {
    hide Turn, EffectiveDeps, SerialRun, OrdersPlan;
    var i := order[k];
    var F, G := SerialRun(P, order), SerialRun(P, other);
    FinalEquation(P, order, i);
    FinalEquation(P, other, i);
    forall d | d in EffectiveDeps(P.steps, i) ensures d != i && F[d] == G[d] {
      DepIsBefore(P, order, k, d);
      var j :| 0 <= j < k && order[j] == d;
      SamePrefix(P, order, other, j);
    }
    TurnFrame(P, F[i := P.init[i]], G[i := P.init[i]], i);
  }
}
