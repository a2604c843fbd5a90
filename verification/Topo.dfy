// The depth-first topological order of a plan: `_topo_order` and the checks of
// `plan_pipeline` that use it.
module Topo {
  import opened Wrappers

  /** `by_id`: the dependencies each step lists. */
  type Graph = map<Id, seq<Id>>

  /** Step `x` lists step `y`, and both are in the plan. */
  predicate Edge(g: Graph, x: Id, y: Id) {
    x in g && y in g && y in g[x]
  }

  ghost predicate IsPath(g: Graph, p: seq<Id>) {
    forall k :: 0 <= k < |p| - 1 ==> Edge(g, p[k], p[k + 1])
  }

  ghost predicate IsCycle(g: Graph, p: seq<Id>) {
    |p| >= 2 && IsPath(g, p) && p[0] == p[|p| - 1]
  }

  ghost predicate HasCycle(g: Graph) {
    exists p :: IsCycle(g, p)
  }

  ghost predicate Distinct<T>(s: seq<T>) {
    forall i, j :: 0 <= i < j < |s| ==> s[i] != s[j]
  }

  /** In-plan dependencies come earlier in the sequence. */
  ghost predicate DepsFirst(g: Graph, order: seq<Id>) {
    forall i, d :: 0 <= i < |order| && Edge(g, order[i], d) ==> d in order[..i]
  }

  /** Each step once, dependencies before dependents. */
  ghost predicate IsTopoOrder(g: Graph, order: seq<Id>) {
    && Distinct(order)
    && (forall x :: x in order <==> x in g)
    && DepsFirst(g, order)
  }

  /** Every dependency listed by a step is an in-plan step of a smaller id. */
  ghost predicate ForwardOnly(g: Graph) {
    forall x, d :: x in g && d in g[x] ==> d in g && d.num < x.num
  }

  // ---------------------------------------------------------------------------
  // Orders and cycles exclude each other
  // ---------------------------------------------------------------------------

  lemma PathTail(g: Graph, p: seq<Id>)
    requires IsPath(g, p) && |p| >= 1
    ensures IsPath(g, p[1..])
  {
    forall k | 0 <= k < |p[1..]| - 1 ensures Edge(g, p[1..][k], p[1..][k + 1]) {
      assert Edge(g, p[k + 1], p[k + 1 + 1]);
    }
  }

  lemma LoopIsCycle(g: Graph, x: Id)
    requires Edge(g, x, x)
    ensures HasCycle(g)
  {
    assert IsCycle(g, [x, x]);
  }

  lemma {:induction false} PathGoesBack(g: Graph, order: seq<Id>, p: seq<Id>, i: nat)
    requires IsTopoOrder(g, order) && IsPath(g, p) && |p| >= 2
    requires i < |order| && order[i] == p[0]
    ensures p[|p| - 1] in order[..i]
  {
    assert Edge(g, p[0], p[1]);
    var j :| 0 <= j < i && order[j] == p[1];
    if |p| > 2 {
      var q := p[1..];
      PathTail(g, p);
      PathGoesBack(g, order, q, j);
      assert order[..j] <= order[..i];
    }
  }

  /** A graph that has a topological order has no cycle. */
  lemma OrderedIsAcyclic(g: Graph, order: seq<Id>)
    requires IsTopoOrder(g, order)
    ensures !HasCycle(g)
  {
    forall p | |p| >= 2 && IsPath(g, p) ensures p[0] != p[|p| - 1] {
      assert Edge(g, p[0], p[1]);
      var i :| 0 <= i < |order| && order[i] == p[0];
      PathGoesBack(g, order, p, i);
    }
  }

  lemma {:induction false} DescendingPath(g: Graph, p: seq<Id>)
    requires ForwardOnly(g) && IsPath(g, p) && |p| >= 2
    ensures p[|p| - 1].num < p[0].num
  {
    assert Edge(g, p[0], p[1]);
    if |p| > 2 {
      var q := p[1..];
      PathTail(g, p);
      DescendingPath(g, q);
    }
  }

  /** Backward references only: no cycle is possible. */
  lemma ForwardIsAcyclic(g: Graph)
    requires ForwardOnly(g)
    ensures !HasCycle(g)
  {
    forall p | |p| >= 2 && IsPath(g, p) ensures p[0] != p[|p| - 1] {
      DescendingPath(g, p);
    }
  }

  // ---------------------------------------------------------------------------
  // The search
  // ---------------------------------------------------------------------------

  class Sorter {
    const g: Graph
    var order: seq<Id>
    var visited: set<Id>
    var visiting: set<Id>

    constructor (g: Graph)
      ensures this.g == g && order == [] && visited == {} && visiting == {}
    {
      this.g := g;
      order, visited, visiting := [], {}, {};
    }

    /** Finished steps are in `order` with their dependencies; `stack` is the
        chain of steps being visited, each listing the next. */
    ghost predicate Valid(stack: seq<Id>)
      reads this
    {
      && Distinct(order) && (forall x :: x in order <==> x in visited)
      && visited <= g.Keys && DepsFirst(g, order)
      && (forall x :: x in stack <==> x in visiting)
      && visiting <= g.Keys && IsPath(g, stack) && visited !! visiting
    }

    /** `visit`: appends a step after everything it depends on. The result is
        the step named by the exception, if one is raised. */
    method Visit(id: Id, ghost stack: seq<Id>) returns (raised: Option<Id>)
      requires id in g && Valid(stack)
      requires stack != [] ==> Edge(g, stack[|stack| - 1], id)
      modifies this
      ensures raised.None? ==> Valid(stack) && id in visited && visiting == old(visiting)
      ensures raised.None? ==> old(order) <= order && old(visited) <= visited
      ensures raised.None? && id in old(visited) ==> order == old(order)
      ensures raised.None? && id !in old(visited) && (forall d :: Edge(g, id, d) ==> d in old(visited))
              ==> order == old(order) + [id]
      ensures raised.Some? ==> HasCycle(g)
      decreases g.Keys - visiting
    {
      hide DepsFirst;
      if id in visiting {
        ghost var k :| 0 <= k < |stack| && stack[k] == id;
        CycleFromStack(g, stack, k, id);
        return Some(id);
      }
      if id in visited {
        return None;
      }
      visiting := visiting + {id};
      ghost var chain := stack + [id];
      assert IsPath(g, chain);
      var deps := g[id];
      for n := 0 to |deps|
        invariant Valid(chain) && visiting == old(visiting) + {id}
        invariant old(order) <= order && old(visited) <= visited
        invariant forall m :: 0 <= m < n && deps[m] in g ==> deps[m] in visited
        invariant (forall d :: Edge(g, id, d) ==> d in old(visited)) ==> order == old(order)
      {
        if deps[n] in g {
          var r := Visit(deps[n], chain);
          if r.Some? {
            return r;
          }
        }
      }
      visiting := visiting - {id};
      visited := visited + {id};
      ghost var done := order;
      order := order + [id];
      DepsFirstSnoc(g, done, id);
      return None;
    }
  }

  lemma DepsFirstSnoc(g: Graph, order: seq<Id>, id: Id)
    requires DepsFirst(g, order) && forall d :: Edge(g, id, d) ==> d in order
    ensures DepsFirst(g, order + [id])
  {
    var longer := order + [id];
    forall i, d | 0 <= i < |longer| && Edge(g, longer[i], d) ensures d in longer[..i] {
      assert longer[..i] == order[..i];
      if i == |order| {
        assert longer[i] == id;
      }
    }
  }

  lemma CycleFromStack(g: Graph, stack: seq<Id>, k: nat, id: Id)
    requires k < |stack| && stack[k] == id && IsPath(g, stack)
    requires Edge(g, stack[|stack| - 1], id)
    ensures HasCycle(g)
  {
    var p := stack[k..] + [id];
    forall n | 0 <= n < |p| - 1 ensures Edge(g, p[n], p[n + 1]) {
      if n < |stack| - k - 1 {
        assert Edge(g, stack[k + n], stack[k + n + 1]);
      }
    }
    assert IsCycle(g, p);
  }

  function IdsOf(steps: seq<(Id, seq<Id>)>): (ids: seq<Id>)
    ensures |ids| == |steps| && forall k :: 0 <= k < |steps| ==> ids[k] == steps[k].0
  {
    seq(|steps|, i requires 0 <= i < |steps| => steps[i].0)
  }

  /** `by_id`: a later pair with the same id replaces an earlier one. */
  function ById(steps: seq<(Id, seq<Id>)>): Graph {
    if steps == [] then map[]
    else var last := steps[|steps| - 1]; ById(steps[..|steps| - 1])[last.0 := last.1]
  }

  lemma {:induction false} ByIdKeys(steps: seq<(Id, seq<Id>)>)
    ensures forall x :: x in ById(steps) <==> exists k :: 0 <= k < |steps| && steps[k].0 == x
  {
    if steps != [] {
      ByIdKeys(steps[..|steps| - 1]);
    }
  }

  lemma {:induction false} ByIdAt(steps: seq<(Id, seq<Id>)>, k: nat)
    requires k < |steps| && Distinct(IdsOf(steps))
    ensures steps[k].0 in ById(steps) && ById(steps)[steps[k].0] == steps[k].1
  {
    hide IdsOf;
    if k < |steps| - 1 {
      var front := steps[..|steps| - 1];
      assert IdsOf(steps)[k] != IdsOf(steps)[|steps| - 1];
      assert forall i :: 0 <= i < |front| ==> IdsOf(front)[i] == IdsOf(steps)[i];
      ByIdAt(front, k);
    }
  }

  /** `_topo_order`: succeeds exactly on acyclic input, with every step once and
      its in-plan dependencies before it. When every dependency already stands
      earlier in the input, the order is the input order. */
  method TopoOrder(steps: seq<(Id, seq<Id>)>) returns (r: Result<seq<Id>, Id>)
    ensures r.Ok? ==> IsTopoOrder(ById(steps), r.value)
    ensures r.Ok? <==> !HasCycle(ById(steps))
    ensures r.Ok? && Distinct(IdsOf(steps)) && DepsFirst(ById(steps), IdsOf(steps))
            ==> r.value == IdsOf(steps)
  {
    hide DepsFirst, Distinct, HasCycle, Edge, IsPath, ById, IdsOf;
    ghost var ids := IdsOf(steps);
    var sorter := new Sorter(ById(steps));
    ByIdKeys(steps);
    EmptyPath(ById(steps));
    assert ids[..0] == [];
    for n := 0 to |steps|
      invariant sorter.g == ById(steps) && sorter.Valid([]) && fresh(sorter)
      invariant forall k :: 0 <= k < n ==> steps[k].0 in sorter.visited
      invariant Distinct(ids) && DepsFirst(ById(steps), ids) ==> sorter.order == ids[..n]
    {
      if Distinct(ids) && DepsFirst(ById(steps), ids) {
        NextInOrder(ById(steps), ids, n);
      }
      IdsOfAt(steps, n);
      var raised := sorter.Visit(steps[n].0, []);
      if raised.Some? {
        return Err(raised.value);
      }
    }
    assert ids[..|steps|] == ids;
    Sorted(ById(steps), sorter.order, steps);
    OrderedIsAcyclic(ById(steps), sorter.order);
    r := Ok(sorter.order);
  }

  lemma EmptyPath(g: Graph)
    ensures Distinct<Id>([]) && DepsFirst(g, []) && IsPath(g, [])
  {
  }

  lemma IdsOfAt(steps: seq<(Id, seq<Id>)>, n: nat)
    requires n < |steps|
    ensures |IdsOf(steps)| == |steps| && IdsOf(steps)[n] == steps[n].0
  {
  }

  /** In an order with dependencies first, the next step is new and depends on
      steps before it. */
  lemma NextInOrder(g: Graph, ids: seq<Id>, n: nat)
    requires Distinct(ids) && DepsFirst(g, ids) && n < |ids|
    ensures ids[n] !in ids[..n] && ids[..n + 1] == ids[..n] + [ids[n]]
    ensures forall d :: Edge(g, ids[n], d) ==> d in ids[..n]
  {
  }

  /** An order of all visited steps is a topological order. */
  lemma Sorted(g: Graph, order: seq<Id>, steps: seq<(Id, seq<Id>)>)
    requires g == ById(steps) && Distinct(order) && DepsFirst(g, order) && forall x :: x in order ==> x in g
    requires forall k :: 0 <= k < |steps| ==> steps[k].0 in order
    ensures IsTopoOrder(g, order)
  {
    ByIdKeys(steps);
    hide DepsFirst, Distinct, ById;
    forall x | x in g ensures x in order {
      var k :| 0 <= k < |steps| && steps[k].0 == x;
    }
  }

  // ---------------------------------------------------------------------------
  // Pipeline goals
  // ---------------------------------------------------------------------------

  datatype GoalError = NoSteps | BadReference(index: nat, bad: seq<int>) | CycleAt(step: Id)

  predicate Valid(index: nat, d: int) {
    1 <= d < index
  }

  function BadDeps(index: nat, deps: seq<int>): seq<int> {
    if deps == [] then []
    else (if Valid(index, deps[0]) then [] else [deps[0]]) + BadDeps(index, deps[1..])
  }

  lemma {:induction false} BadDepsEmpty(index: nat, deps: seq<int>)
    ensures BadDeps(index, deps) == [] <==> forall k :: 0 <= k < |deps| ==> Valid(index, deps[k])
  {
    if deps != [] {
      BadDepsEmpty(index, deps[1..]);
      if BadDeps(index, deps) == [] {
        forall k | 0 <= k < |deps| ensures Valid(index, deps[k]) {
          assert k > 0 ==> deps[k] == deps[1..][k - 1];
        }
      }
    }
  }

  /** Every reference of every goal step points at an earlier step. */
  ghost predicate RefsBackward(deps: seq<seq<int>>) {
    forall k, m :: 0 <= k < |deps| && 0 <= m < |deps[k]| ==> Valid(k + 1, deps[k][m])
  }

  /** The reference and cycle checks of `plan_pipeline`, on the `depends_on`
      lists of the goal steps: accepted exactly when there is a step and every
      reference points backward, and then the execution order is 1, 2, ..., n.
      The error for a cycle is never the one reported. */
  method CheckPipeline(deps: seq<seq<int>>) returns (r: Result<seq<Id>, GoalError>)
    ensures r.Ok? <==> |deps| > 0 && RefsBackward(deps)
    ensures r.Ok? ==> r.value == seq(|deps|, i => Id(i + 1))
    ensures r == Err(NoSteps) <==> |deps| == 0
    ensures r.Err? ==> !r.error.CycleAt?
    ensures r.Err? && r.error.BadReference? ==>
              && 1 <= r.error.index <= |deps| && RefsBackward(deps[..r.error.index - 1])
              && r.error.bad == BadDeps(r.error.index, deps[r.error.index - 1]) != []
  {
    if |deps| == 0 {
      return Err(NoSteps);
    }
    for n := 0 to |deps|
      invariant RefsBackward(deps[..n])
    {
      var bad := BadDeps(n + 1, deps[n]);
      BadDepsEmpty(n + 1, deps[n]);
      if bad != [] {
        return Err(BadReference(n + 1, bad));
      }
    }
    assert deps[..|deps|] == deps;
    PipelineGraph(deps);
    ForwardIsAcyclic(ById(Pairs(deps)));
    var order := TopoOrder(Pairs(deps));
    match order {
      case Ok(ids) => r := Ok(ids);
      case Err(step) => r := Err(CycleAt(step));
    }
  }

  function Refs(deps: seq<int>): seq<Id> {
    seq(|deps|, m requires 0 <= m < |deps| => Id(deps[m]))
  }

  /** `(i, g.depends_on)` for the goal steps, numbered from 1. */
  function Pairs(deps: seq<seq<int>>): seq<(Id, seq<Id>)> {
    seq(|deps|, k requires 0 <= k < |deps| => (Id(k + 1), Refs(deps[k])))
  }

  lemma PipelineGraph(deps: seq<seq<int>>)
    requires RefsBackward(deps)
    ensures ForwardOnly(ById(Pairs(deps)))
    ensures IdsOf(Pairs(deps)) == seq(|deps|, i => Id(i + 1))
    ensures Distinct(IdsOf(Pairs(deps))) && DepsFirst(ById(Pairs(deps)), IdsOf(Pairs(deps)))
  {
    hide ById;
    var ids, g := IdsOf(Pairs(deps)), ById(Pairs(deps));
    forall x: Id, d: Id | x in g && d in g[x] ensures 1 <= d.num < x.num && d in g {
      PipelineStep(deps, x);
      var m :| 0 <= m < |g[x]| && g[x][m] == d;
      assert Valid(x.num, deps[x.num - 1][m]);
      ByIdAt(Pairs(deps), d.num - 1);
    }
    forall i, d | 0 <= i < |ids| && Edge(g, ids[i], d) ensures d in ids[..i] {
      assert ids[..i][d.num - 1] == d;
    }
  }

  lemma PipelineStep(deps: seq<seq<int>>, x: Id)
    requires x in ById(Pairs(deps))
    ensures 1 <= x.num <= |deps| && ById(Pairs(deps))[x] == Refs(deps[x.num - 1])
  {
    ByIdKeys(Pairs(deps));
    ByIdAt(Pairs(deps), x.num - 1);
  }
}
