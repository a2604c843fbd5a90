// The task graph built before a ready-set execution: the checks of its
// constructor and Kahn's algorithm, which rejects cyclic graphs.
module TaskGraph {
  import opened Wrappers
  import opened Topo

  datatype GraphError =
    | DuplicateTask(task: Id)
    | MissingDep(task: Id, dep: Id)
    | SelfDep(task: Id)
    | Stuck(tasks: seq<Id>)

  /** The dependencies of a list that are already in the order. */
  function Placed(deps: seq<Id>, order: seq<Id>): set<Id> {
    set d | d in deps && d in order
  }

  function Elements(s: seq<Id>): set<Id> {
    set d | d in s
  }

  // ---------------------------------------------------------------------------
  // Counting
  // ---------------------------------------------------------------------------

  lemma {:induction false} ElementsSize(s: seq<Id>)
    ensures |Elements(s)| <= |s|
    ensures |Elements(s)| == |s| <==> Distinct(s)
  {
    if s != [] {
      var front, last := s[..|s| - 1], s[|s| - 1];
      ElementsSize(front);
      assert s == front + [last];
      assert Elements(s) == Elements(front) + {last};
      if last in front {
        assert Elements(s) == Elements(front);
        var k :| 0 <= k < |front| && front[k] == last;
        assert s[k] == s[|s| - 1];
      } else if Distinct(front) {
        assert Distinct(s);
      } else {
        var i, j :| 0 <= i < j < |front| && front[i] == front[j];
        assert s[i] == s[j];
      }
    }
  }

  lemma {:induction false} SubsetSize<T>(a: set<T>, b: set<T>)
    requires a <= b
    ensures |a| <= |b|
    ensures |a| == |b| ==> a == b
  {
    if x :| x in a {
      SubsetSize(a - {x}, b - {x});
    }
  }

  /** An in-degree of zero means: no repeated dependency, and all of them placed. */
  lemma ZeroMeansPlaced(deps: seq<Id>, order: seq<Id>)
    ensures |Placed(deps, order)| <= |deps|
    ensures |Placed(deps, order)| == |deps|
            <==> Distinct(deps) && forall d :: d in deps ==> d in order
  {
    ElementsSize(deps);
    SubsetSize(Placed(deps, order), Elements(deps));
    if forall d :: d in deps ==> d in order {
      assert Placed(deps, order) == Elements(deps);
    } else {
      var d :| d in deps && d !in order;
      assert d in Elements(deps) && d !in Placed(deps, order);
    }
  }

  lemma PlacedGrows(deps: seq<Id>, order: seq<Id>, t: Id)
    requires t !in order
    ensures Placed(deps, order + [t]) == Placed(deps, order) + if t in deps then {t} else {}
    ensures |Placed(deps, order + [t])| == |Placed(deps, order)| + if t in deps then 1 else 0
  {
    assert Placed(deps, order + [t]) == Placed(deps, order) + if t in deps then {t} else {};
  }

  // ---------------------------------------------------------------------------
  // A set of tasks each waiting for another one contains a cycle
  // ---------------------------------------------------------------------------

  lemma PathSnoc(g: Graph, waiting: set<Id>, p: seq<Id>, y: Id)
    requires |p| >= 1 && Distinct(p) && IsPath(g, p) && forall x :: x in p ==> x in waiting
    requires y in waiting && y !in p && Edge(g, p[|p| - 1], y)
    ensures var q := p + [y]; Distinct(q) && IsPath(g, q) && forall x :: x in q ==> x in waiting
    ensures |p| < |waiting|
  {
    var q := p + [y];
    forall k | 0 <= k < |q| - 1 ensures Edge(g, q[k], q[k + 1]) {
      if k < |p| - 1 {
        assert Edge(g, p[k], p[k + 1]);
      }
    }
    ElementsSize(q);
    assert Elements(q) <= waiting;
    SubsetSize(Elements(q), waiting);
  }

  /** Task `x` depends on one of the waiting tasks. */
  ghost predicate Waits(g: Graph, waiting: set<Id>, x: Id) {
    exists y :: y in waiting && Edge(g, x, y)
  }

  lemma {:induction false} WaitingIsCyclic(g: Graph, waiting: set<Id>, p: seq<Id>)
    requires forall x {:trigger Waits(g, waiting, x)} :: x in waiting ==> Waits(g, waiting, x)
    requires |p| >= 1 && Distinct(p) && IsPath(g, p) && forall x :: x in p ==> x in waiting
    ensures HasCycle(g)
    decreases |waiting| - |p|
  {
    hide IsPath;
    var last := p[|p| - 1];
    assert last in p && Waits(g, waiting, last);
    var y :| y in waiting && Edge(g, last, y);
    if y in p {
      var k :| 0 <= k < |p| && p[k] == y;
      CycleFromStack(g, p, k, y);
    } else {
      PathSnoc(g, waiting, p, y);
      WaitingIsCyclic(g, waiting, p + [y]);
    }
  }

  // ---------------------------------------------------------------------------
  // Kahn's algorithm
  // ---------------------------------------------------------------------------

  /** `ids` are the tasks of the graph. */
  ghost predicate Covers(ids: seq<Id>, g: Graph) {
    forall x :: x in ids <==> x in g
  }

  ghost predicate Closed(g: Graph) {
    forall x, d :: x in g && d in g[x] ==> d in g
  }

  ghost predicate Simple(g: Graph) {
    forall x :: x in g ==> Distinct(g[x])
  }

  /** `indegree` counts, for each task, the list entries not placed yet. */
  ghost predicate Counted(g: Graph, indegree: map<Id, int>, order: seq<Id>) {
    forall x :: x in g ==> x in indegree && indegree[x] == |g[x]| - |Placed(g[x], order)|
  }

  /** The tasks of in-degree zero are the ones placed or ready. */
  ghost predicate Frontier(g: Graph, indegree: map<Id, int>, placed: seq<Id>) {
    && Distinct(placed)
    && (forall x :: x in placed ==> x in g)
    && forall x :: x in g && x in indegree ==> (indegree[x] == 0 <==> x in placed)
  }

  /** `_topological_order`. An order exists for the algorithm exactly when the
      graph has no cycle and no task lists a dependency twice. */
  method TopologicalOrder(ids: seq<Id>, g: Graph) returns (r: Result<seq<Id>, GraphError>)
    requires Distinct(ids) && Covers(ids, g) && Closed(g)
    ensures r.Ok? ==> IsTopoOrder(g, r.value) && Simple(g)
    ensures r.Ok? <==> !HasCycle(g) && Simple(g)
    ensures r.Err? ==> r.error.Stuck?
  {
    hide *;
    var indegree := Indegrees(g);
    // `queue[..n]` is the order so far, `queue[n..]` the ready list.
    var queue, n := Zeros(ids, indegree), 0;
    Initially(ids, g, indegree, queue);
    assert queue[..0] == [];
    while n < |queue|
      invariant n <= |queue|
      invariant Counted(g, indegree, queue[..n]) && Frontier(g, indegree, queue)
      invariant DepsFirst(g, queue[..n]) && forall k :: 0 <= k < n ==> queue[k] in g && Distinct(g[queue[k]])
      decreases |ids| - n
    {
      ghost var order := queue[..n];
      var t := queue[n];
      NextIsFree(g, indegree, queue, order, t);
      PlacedAtMost(ids, g, queue);
      var freed;
      indegree, freed := Release(ids, g, indegree, order, t, queue);
      assert (queue + freed)[..n + 1] == order + [t];
      queue, n := queue + freed, n + 1;
    }
    assert queue[..n] == queue;
    if |queue| != |ids| {
      if Simple(g) {
        StuckIsCyclic(ids, g, indegree, queue);
      }
      r := Err(Stuck(Others(ids, queue)));
    } else {
      CompleteIsOrder(ids, g, indegree, queue);
      r := Ok(queue);
    }
  }

  lemma CompleteIsOrder(ids: seq<Id>, g: Graph, indegree: map<Id, int>, order: seq<Id>)
    requires Distinct(ids) && Covers(ids, g) && |order| == |ids|
    requires Frontier(g, indegree, order) && DepsFirst(g, order)
    requires forall k :: 0 <= k < |order| ==> order[k] in g && Distinct(g[order[k]])
    ensures IsTopoOrder(g, order) && Simple(g) && !HasCycle(g)
  {
    PlacedInGraph(g, indegree, order);
    AllPlaced(ids, order);
    OrderedIsAcyclic(g, order);
  }

  function Indegrees(g: Graph): (indegree: map<Id, int>)
    ensures forall x :: x in g ==> x in indegree
  {
    map x | x in g :: |g[x]|
  }

  lemma Initially(ids: seq<Id>, g: Graph, indegree: map<Id, int>, ready: seq<Id>)
    requires Distinct(ids) && Covers(ids, g)
    requires indegree == Indegrees(g)
    requires ready == Zeros(ids, indegree)
    ensures Counted(g, indegree, []) && Frontier(g, indegree, ready) && DepsFirst(g, [])
  {
    forall x | x in g ensures |Placed(g[x], [])| == 0 {
      assert Placed(g[x], []) == {};
    }
  }

  /** The next ready task has all its dependencies in the order. */
  lemma NextIsFree(g: Graph, indegree: map<Id, int>, placed: seq<Id>, order: seq<Id>, t: Id)
    requires Counted(g, indegree, order) && Frontier(g, indegree, placed) && DepsFirst(g, order)
    requires |order| < |placed| && placed[..|order|] == order && placed[|order|] == t
    ensures t in g && t !in order && Distinct(g[t]) && DepsFirst(g, order + [t])
    ensures Distinct(placed) && forall x :: x in placed ==> x in g
  {
    assert t in placed;
    ZeroMeansPlaced(g[t], order);
    DepsFirstSnoc(g, order, t);
  }

  /** The tasks of in-degree zero, in input order. */
  function Zeros(ids: seq<Id>, indegree: map<Id, int>): (z: seq<Id>)
    ensures forall x :: x in z <==> x in ids && x in indegree && indegree[x] == 0
    ensures Distinct(ids) ==> Distinct(z)
  {
    if ids == [] then []
    else
      var rest := Zeros(ids[1..], indegree);
      assert ids == [ids[0]] + ids[1..];
      if ids[0] in indegree && indegree[ids[0]] == 0 then [ids[0]] + rest else rest
  }

  /** The tasks that are not in the order, in input order. */
  function Others(ids: seq<Id>, order: seq<Id>): seq<Id> {
    if ids == [] then []
    else (if ids[0] in order then [] else [ids[0]]) + Others(ids[1..], order)
  }

  /** One round of the algorithm: task `t` goes into the order, its dependents
      lose one list entry, and those that reach zero are freed. */
  method Release(ids: seq<Id>, g: Graph, indegree: map<Id, int>, ghost order: seq<Id>, t: Id, ghost placed: seq<Id>)
    returns (indegree': map<Id, int>, freed: seq<Id>)
    requires Distinct(ids) && Covers(ids, g) && t !in order
    requires Counted(g, indegree, order) && Frontier(g, indegree, placed)
    ensures Counted(g, indegree', order + [t]) && Frontier(g, indegree', placed + freed)
  {
    indegree', freed := indegree, [];
    assert placed + [] == placed;
    CountsById(ids, g, indegree, order);
    hide Frontier, Placed, Counted, Covers;
    for n := 0 to |ids|
      invariant forall k :: 0 <= k < |ids| ==> ids[k] in indegree'
      invariant forall k :: n <= k < |ids| ==> indegree'[ids[k]] == indegree[ids[k]]
      invariant forall k :: 0 <= k < n ==> indegree'[ids[k]] == |g[ids[k]]| - |Placed(g[ids[k]], order + [t])|
      invariant Frontier(g, indegree', placed + freed)
    {
      indegree', freed := ReleaseOne(g, indegree', order, t, ids[n], placed, freed);
    }
    AllCounted(ids, g, indegree', order + [t]);
  }

  /** The turn of one task in a round. */
  method ReleaseOne(g: Graph, indegree: map<Id, int>, ghost order: seq<Id>, t: Id, other: Id, ghost placed: seq<Id>, freed: seq<Id>)
    returns (indegree': map<Id, int>, freed': seq<Id>)
    requires other in g && other in indegree && t !in order
    requires indegree[other] == |g[other]| - |Placed(g[other], order)|
    requires Frontier(g, indegree, placed + freed)
    ensures indegree' == indegree[other := |g[other]| - |Placed(g[other], order + [t])|]
    ensures Frontier(g, indegree', placed + freed')
  {
    hide Frontier, Placed;
    indegree', freed' := indegree, freed;
    PlacedGrows(g[other], order, t);
    ZeroMeansPlaced(g[other], order + [t]);
    if t in g[other] {
      FrontierGrows(g, indegree, placed + freed, other);
      indegree' := indegree[other := indegree[other] - 1];
      if indegree'[other] == 0 {
        assert placed + (freed + [other]) == (placed + freed) + [other];
        freed' := freed + [other];
      }
    } else {
      assert indegree[other := indegree[other]] == indegree;
    }
  }

  lemma CountsById(ids: seq<Id>, g: Graph, indegree: map<Id, int>, order: seq<Id>)
    requires Covers(ids, g) && Counted(g, indegree, order)
    ensures forall k :: 0 <= k < |ids| ==> ids[k] in g && ids[k] in indegree
    ensures forall k :: 0 <= k < |ids| ==> indegree[ids[k]] == |g[ids[k]]| - |Placed(g[ids[k]], order)|
  {
  }

  lemma AllCounted(ids: seq<Id>, g: Graph, indegree: map<Id, int>, order: seq<Id>)
    requires Covers(ids, g)
    requires forall k :: 0 <= k < |ids| ==> ids[k] in indegree && indegree[ids[k]] == |g[ids[k]]| - |Placed(g[ids[k]], order)|
    ensures Counted(g, indegree, order)
  {
    forall x | x in g ensures x in indegree && indegree[x] == |g[x]| - |Placed(g[x], order)| {
      var k :| 0 <= k < |ids| && ids[k] == x;
    }
  }

  lemma PlacedInGraph(g: Graph, indegree: map<Id, int>, placed: seq<Id>)
    requires Frontier(g, indegree, placed)
    ensures Distinct(placed) && forall x :: x in placed ==> x in g
  {
  }

  lemma FrontierGrows(g: Graph, indegree: map<Id, int>, placed: seq<Id>, x: Id)
    requires Frontier(g, indegree, placed) && x in g && x in indegree && indegree[x] >= 1
    ensures var after := indegree[x := indegree[x] - 1];
            Frontier(g, after, if after[x] == 0 then placed + [x] else placed)
  {
  }

  lemma NoMoreThan(ids: seq<Id>, order: seq<Id>)
    requires Distinct(order) && forall x :: x in order ==> x in ids
    ensures |order| <= |ids|
  {
    ElementsSize(order);
    ElementsSize(ids);
    assert Elements(order) <= Elements(ids);
    SubsetSize(Elements(order), Elements(ids));
  }

  lemma PlacedAtMost(ids: seq<Id>, g: Graph, queue: seq<Id>)
    requires Covers(ids, g) && Distinct(queue) && forall x :: x in queue ==> x in g
    ensures |queue| <= |ids|
  {
    NoMoreThan(ids, queue);
  }

  lemma AllPlaced(ids: seq<Id>, order: seq<Id>)
    requires Distinct(order) && Distinct(ids) && |order| == |ids|
    requires forall x :: x in order ==> x in ids
    ensures forall x :: x in ids ==> x in order
  {
    ElementsSize(order);
    ElementsSize(ids);
    assert Elements(order) <= Elements(ids);
    SubsetSize(Elements(order), Elements(ids));
    assert forall x :: x in ids ==> x in Elements(ids);
  }

  lemma StuckIsCyclic(ids: seq<Id>, g: Graph, indegree: map<Id, int>, order: seq<Id>)
    requires Distinct(ids) && Covers(ids, g) && Closed(g) && Simple(g)
    requires Counted(g, indegree, order) && Frontier(g, indegree, order) && |order| != |ids|
    ensures HasCycle(g)
  {
    var waiting := set x | x in ids && x !in order;
    forall x | x in waiting ensures Waits(g, waiting, x) {
      ZeroMeansPlaced(g[x], order);
      var y :| y in g[x] && y !in order;
      assert Edge(g, x, y);
    }
    if forall x :: x in ids ==> x in order {
      NoMoreThan(order, ids);
      NoMoreThan(ids, order);
      assert false;
    }
    var x :| x in ids && x !in order;
    WaitingIsCyclic(g, waiting, [x]);
  }

  // ---------------------------------------------------------------------------
  // The constructor
  // ---------------------------------------------------------------------------

  /** The task depends on tasks of the graph other than itself. */
  ghost predicate DepsKnown(ids: seq<Id>, task: (Id, seq<Id>)) {
    forall m :: 0 <= m < |task.1| ==> task.1[m] in ids && task.1[m] != task.0
  }

  /** What `from_tasks` accepts. */
  ghost predicate Acceptable(tasks: seq<(Id, seq<Id>)>) {
    && Distinct(IdsOf(tasks))
    && (forall k :: 0 <= k < |tasks| ==> DepsKnown(IdsOf(tasks), tasks[k]))
    && (forall k :: 0 <= k < |tasks| ==> Distinct(tasks[k].1))
    && !HasCycle(ById(tasks))
  }

  function FirstRepeat(tasks: seq<(Id, seq<Id>)>, n: nat): (r: Option<Id>)
    requires n <= |tasks|
    ensures r.None? <==> forall i, j :: 0 <= i < j < |tasks| && n <= j ==> IdsOf(tasks)[i] != IdsOf(tasks)[j]
    decreases |tasks| - n
  {
    if n == |tasks| then None
    else if exists i :: 0 <= i < n && IdsOf(tasks)[i] == IdsOf(tasks)[n] then Some(tasks[n].0)
    else FirstRepeat(tasks, n + 1)
  }

  /** `from_tasks`: duplicate ids, unknown dependencies and self-dependencies are
      reported first, then cycles. */
  method FromTasks(tasks: seq<(Id, seq<Id>)>) returns (r: Result<seq<Id>, GraphError>)
    ensures r.Ok? <==> Acceptable(tasks)
    ensures r.Ok? ==> IsTopoOrder(ById(tasks), r.value)
    ensures (r.Err? && r.error.DuplicateTask?) <==> !Distinct(IdsOf(tasks))
    ensures (r.Err? && r.error.Stuck?) <==>
      && Distinct(IdsOf(tasks)) && (forall k :: 0 <= k < |tasks| ==> DepsKnown(IdsOf(tasks), tasks[k]))
      && !Acceptable(tasks)
  {
    var repeat := FirstRepeat(tasks, 0);
    var ids := IdsOf(tasks);
    if repeat.Some? {
      assert !Distinct(ids);
      return Err(DuplicateTask(repeat.value));
    }
    for n := 0 to |tasks|
      invariant forall k :: 0 <= k < n ==> DepsKnown(ids, tasks[k])
    {
      var deps := tasks[n].1;
      for m := 0 to |deps|
        invariant forall j :: 0 <= j < m ==> deps[j] in ids && deps[j] != tasks[n].0
      {
        if deps[m] !in ids {
          assert !DepsKnown(ids, tasks[n]);
          return Err(MissingDep(tasks[n].0, deps[m]));
        }
        if deps[m] == tasks[n].0 {
          assert !DepsKnown(ids, tasks[n]);
          return Err(SelfDep(tasks[n].0));
        }
      }
      assert deps[..|deps|] == deps;
    }
    TasksGraph(tasks);
    assert Distinct(ids) && forall k, d :: 0 <= k < |tasks| && d in tasks[k].1 ==> d in ids && d != tasks[k].0;
    r := TopologicalOrder(ids, ById(tasks));
  }

  lemma {:induction false} TasksGraph(tasks: seq<(Id, seq<Id>)>)
    requires Distinct(IdsOf(tasks))
    requires forall k :: 0 <= k < |tasks| ==> DepsKnown(IdsOf(tasks), tasks[k])
    ensures Covers(IdsOf(tasks), ById(tasks))
    ensures Closed(ById(tasks))
    ensures Simple(ById(tasks)) <==> forall k :: 0 <= k < |tasks| ==> Distinct(tasks[k].1)
  {
    hide ById, IdsOf;
    var ids, g := IdsOf(tasks), ById(tasks);
    ByIdKeys(tasks);
    forall k | 0 <= k < |tasks| ensures ids[k] in g && g[ids[k]] == tasks[k].1 {
      ByIdAt(tasks, k);
    }
    forall x | x in g ensures x in ids {
      var k :| 0 <= k < |tasks| && tasks[k].0 == x;
      assert ids[k] == x;
    }
  }

  /** Two tasks, of which the second lists the first twice. */
  const REPEATING: seq<(Id, seq<Id>)> := [(Id(1), []), (Id(2), [Id(1), Id(1)])]

  /** They have no cycle, and pass every check before the sorting. */
  lemma RepeatingHasNoCycle()
    ensures !HasCycle(ById(REPEATING)) && Distinct(IdsOf(REPEATING))
    ensures forall k :: 0 <= k < |REPEATING| ==> DepsKnown(IdsOf(REPEATING), REPEATING[k])
    ensures !Acceptable(REPEATING)
  {
    hide HasCycle;
    var ids, g := IdsOf(REPEATING), ById(REPEATING);
    assert ids[0] == Id(1) && ids[1] == Id(2);
    ByIdKeys(REPEATING);
    ByIdAt(REPEATING, 0);
    ByIdAt(REPEATING, 1);
    ForwardIsAcyclic(g);
    assert REPEATING[1].1[0] == REPEATING[1].1[1];
  }

  /** The sorting reports them as a cycle. */
  method RepeatingIsStuck() returns (r: Result<seq<Id>, GraphError>)
    ensures r.Err? && r.error.Stuck?
  {
    hide *;
    RepeatingHasNoCycle();
    r := FromTasks(REPEATING);
  }
}
