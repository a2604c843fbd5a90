// The reflective executor: after a first ready-set pass, a budgeted loop asks an
// adviser about one failed step at a time and skips it, runs it again or gives up.
module Reflective {
  import opened Wrappers
  import opened Templates
  import opened Topo
  import opened Plans

  datatype Action = Retry | Replace | Skip | Abort

  /** A repair advice. */
  datatype Advice = Advice(action: Action, reason: string, skill: Option<string>, params: seq<Entry>, description: Option<string>)

  datatype Reflection = Reflection(advice: Advice, round: int)

  /** The fields of a plan step that reflection may rewrite, besides its state. */
  datatype Setup = Setup(skill: string, description: string, params: seq<Entry>)

  /** One call of a node made by the loop. */
  datatype Call = Call(round: int, step: Id, skill: string, params: Value)

  /** The plan during reflection: the steps' states, their rewritable fields,
      their reflection histories, and the calls made so far. */
  datatype State = State(
    recs: map<Id, Rec>,
    setup: map<Id, Setup>,
    history: map<Id, seq<Reflection>>,
    calls: seq<Call>)

  /** What the outside answers: the adviser's advice of each round or the text of
      its failure, and the outcome of the node call of each round. Both are
      arbitrary. */
  datatype World = World(advise: int -> Result<Advice, string>, answer: (int, Call) -> Outcome)

  /** The `depends_on` lists, which reflection never changes. */
  type Explicit = map<Id, seq<Id>>

  ghost predicate Consistent(deps: Explicit, ids: seq<Id>, s: State) {
    && (forall i :: i in ids <==> i in deps)
    && SameKeys(s.recs, deps) && SameKeys(s.setup, deps) && SameKeys(s.history, deps)
  }

  // ---------------------------------------------------------------------------
  // Choosing a step
  // ---------------------------------------------------------------------------

  predicate IsFailed(recs: map<Id, Rec>, i: Id) {
    i in recs && recs[i].status == Failed
  }

  /** The step is failed and none of its explicit in-plan dependencies is. */
  predicate Repairable(deps: Explicit, recs: map<Id, Rec>, i: Id) {
    IsFailed(recs, i) && i in deps && forall k :: 0 <= k < |deps[i]| ==> !IsFailed(recs, deps[i][k])
  }

  /** `failed[0]`, if there is one. */
  function Pick(deps: Explicit, ids: seq<Id>, recs: map<Id, Rec>): (r: Option<Id>)
    ensures r.Some? ==> r.value in ids && Repairable(deps, recs, r.value)
    ensures r.None? <==> forall i :: i in ids ==> !Repairable(deps, recs, i)
  {
    if ids == [] then None
    else if Repairable(deps, recs, ids[0]) then Some(ids[0])
    else Pick(deps, ids[1..], recs)
  }

  lemma {:induction false} PickIsFirst(deps: Explicit, ids: seq<Id>, recs: map<Id, Rec>, n: nat)
    requires n < |ids| && Repairable(deps, recs, ids[n])
    requires forall m :: 0 <= m < n ==> !Repairable(deps, recs, ids[m])
    ensures Pick(deps, ids, recs) == Some(ids[n])
  {
    if n > 0 {
      assert !Repairable(deps, recs, ids[0]);
      PickIsFirst(deps, ids[1..], recs, n - 1);
    }
  }

  /** `order` lists every step after its explicit in-plan dependencies. */
  ghost predicate OrdersExplicit(deps: Explicit, order: seq<Id>) {
    IsTopoOrder(deps, order)
  }

  lemma {:induction false} EarliestFailed(deps: Explicit, order: seq<Id>, recs: map<Id, Rec>, n: nat)
    returns (k: nat)
    requires n <= |order| && exists j :: 0 <= j < n && IsFailed(recs, order[j])
    ensures k < n && IsFailed(recs, order[k]) && forall j :: 0 <= j < k ==> !IsFailed(recs, order[j])
  {
    if j :| 0 <= j < n - 1 && IsFailed(recs, order[j]) {
      k := EarliestFailed(deps, order, recs, n - 1);
    } else {
      k := n - 1;
    }
  }

  /** Where explicit dependencies have no cycle, a failed step always leaves a
      repairable one: the loop does not run out of candidates before it runs out
      of failures. */
  lemma FailureIsRepairable(deps: Explicit, ids: seq<Id>, order: seq<Id>, recs: map<Id, Rec>)
    requires OrdersExplicit(deps, order) && SameKeys(recs, deps) && forall i :: i in ids <==> i in deps
    ensures Pick(deps, ids, recs).None? <==> forall i :: i in recs ==> recs[i].status != Failed
  {
    if i :| IsFailed(recs, i) {
      assert i in order;
      var j :| 0 <= j < |order| && order[j] == i;
      var k := EarliestFailed(deps, order, recs, |order|);
      forall m | 0 <= m < |deps[order[k]]| ensures !IsFailed(recs, deps[order[k]][m]) {
        var d := deps[order[k]][m];
        if d in deps {
          assert Edge(deps, order[k], d);
          var e :| 0 <= e < k && order[e] == d;
        }
      }
      assert Repairable(deps, recs, order[k]);
    }
  }

  // ---------------------------------------------------------------------------
  // One round
  // ---------------------------------------------------------------------------

  /** `{**base, **extra}`: later keys replace earlier ones in place. */
  function Merge(base: seq<Entry>, extra: seq<Entry>): seq<Entry>
    decreases extra
  {
    if extra == [] then base else Merge(Put(base, extra[0]), extra[1..])
  }

  function Put(base: seq<Entry>, e: Entry): seq<Entry> {
    if base == [] then [e]
    else if base[0].key == e.key then [e] + base[1..]
    else [base[0]] + Put(base[1..], e)
  }

  function Filled(s: Option<string>): bool {
    s.Some? && s.value != ""
  }

  /** `_advise`: an adviser that fails counts as advising to abort. */
  function AdviceOf(w: World, round: int): Advice {
    match w.advise(round)
    case Ok(a) => a
    case Err(text) => Advice(Abort, text, None, [], None)
  }

  /** The rewriting of a step before it is run again. */
  function Adjust(setup: Setup, advice: Advice): Setup {
    var replaced :=
      if advice.action == Replace && Filled(advice.skill) then
        Setup(advice.skill.value,
              if Filled(advice.description) then advice.description.value else advice.skill.value + " (replacement)",
              setup.params)
      else setup;
    if advice.params != [] then replaced.(params := Merge(replaced.params, advice.params)) else replaced
  }

  /** `_run_step` where every exception counts as a failure of the step. */
  function Rerun(rec: Rec, outcome: Outcome): Rec {
    match outcome
    case Reply(outputs) => rec.(status := Done, result := Some(outputs), error := None)
    case Raised(_, _, message) => rec.(status := Failed, error := Some(message))
  }

  /** The effect of one round on step `i`. */
  function Round(s: State, w: World, round: int, i: Id): (s': State)
    requires i in s.recs && i in s.setup && i in s.history
  {
    var advice := AdviceOf(w, round);
    var noted := s.(history := s.history[i := s.history[i] + [Reflection(advice, round)]]);
    match advice.action
    case Abort =>
      noted.(recs := s.recs[i := s.recs[i].(error := Some("reflection abort: " + advice.reason))])
    case Skip =>
      noted.(recs := s.recs[i := s.recs[i].(status := Skipped, error := Some("skipped by reflection: " + advice.reason))])
    case _ =>
      var setup := Adjust(s.setup[i], advice);
      var call := Call(round, i, setup.skill, Resolve(Dict(setup.params), ResultsOf(s.recs)));
      noted.(setup := s.setup[i := setup],
             recs := s.recs[i := Rerun(s.recs[i], w.answer(round, call))],
             calls := s.calls + [call])
  }

  lemma RoundKeepsSteps(deps: Explicit, ids: seq<Id>, s: State, w: World, round: int, i: Id)
    requires Consistent(deps, ids, s) && i in ids
    ensures i in s.recs && i in s.setup && i in s.history && Consistent(deps, ids, Round(s, w, round, i))
  {
    hide Adjust, Resolve, Rerun;
  }

  // ---------------------------------------------------------------------------
  // What a round leaves, in the words of its effects
  // ---------------------------------------------------------------------------

  function Lookup(es: seq<Entry>, key: string): Option<Value> {
    if es == [] then None
    else if es[0].key == key then Some(es[0].value)
    else Lookup(es[1..], key)
  }

  ghost predicate DistinctKeys(es: seq<Entry>) {
    forall i, j :: 0 <= i < j < |es| ==> es[i].key != es[j].key
  }

  lemma {:induction false} PutLookup(base: seq<Entry>, e: Entry, key: string)
    ensures Lookup(Put(base, e), key) == if key == e.key then Some(e.value) else Lookup(base, key)
  {
    if base != [] && base[0].key != e.key {
      PutLookup(base[1..], e, key);
      assert Put(base, e)[1..] == Put(base[1..], e);
    } else if base != [] {
      assert Put(base, e)[1..] == base[1..];
    }
  }

  lemma {:induction false} LookupAbsent(es: seq<Entry>, key: string)
    ensures Lookup(es, key).None? <==> forall k :: 0 <= k < |es| ==> es[k].key != key
  {
    if es != [] {
      LookupAbsent(es[1..], key);
      if es[0].key != key && Lookup(es[1..], key).None? {
        assert forall k :: 1 <= k < |es| ==> es[k] == es[1..][k - 1];
      }
    }
  }

  /** Advised parameters override, the others are kept. */
  lemma {:induction false} MergeLookup(base: seq<Entry>, extra: seq<Entry>, key: string)
    requires DistinctKeys(extra)
    ensures Lookup(Merge(base, extra), key) == if Lookup(extra, key).Some? then Lookup(extra, key) else Lookup(base, key)
    decreases extra
  {
    if extra != [] {
      assert DistinctKeys(extra[1..]) by {
        assert forall k :: 0 <= k < |extra| - 1 ==> extra[1..][k] == extra[k + 1];
      }
      MergeLookup(Put(base, extra[0]), extra[1..], key);
      PutLookup(base, extra[0], key);
      LookupAbsent(extra[1..], key);
      if key == extra[0].key {
        assert forall k :: 0 <= k < |extra[1..]| ==> extra[1..][k].key != key;
      }
    }
  }

  lemma {:induction false} PutDistinct(base: seq<Entry>, e: Entry)
    requires DistinctKeys(base)
    ensures DistinctKeys(Put(base, e))
    ensures forall k :: 0 <= k < |Put(base, e)| ==> Put(base, e)[k].key == e.key || exists m :: 0 <= m < |base| && base[m].key == Put(base, e)[k].key
  {
    if base != [] && base[0].key != e.key {
      PutDistinct(base[1..], e);
      var rest := Put(base[1..], e);
      forall k | 0 <= k < |rest| ensures rest[k].key != base[0].key && (rest[k].key == e.key || exists m :: 0 <= m < |base| && base[m].key == rest[k].key) {
        if rest[k].key != e.key {
          var m :| 0 <= m < |base[1..]| && base[1..][m].key == rest[k].key;
          assert base[m + 1].key == rest[k].key;
        }
      }
    }
  }

  lemma {:induction false} MergeDistinct(base: seq<Entry>, extra: seq<Entry>)
    requires DistinctKeys(base)
    ensures DistinctKeys(Merge(base, extra))
    decreases extra
  {
    if extra != [] {
      PutDistinct(base, extra[0]);
      MergeDistinct(Put(base, extra[0]), extra[1..]);
    }
  }

  /** The advised parameters, which come with one value a key, override those of
      the same key; every other key keeps its value. */
  ghost predicate Overridden(was: seq<Entry>, now: seq<Entry>, advised: seq<Entry>) {
    && (DistinctKeys(was) ==> DistinctKeys(now))
    && (DistinctKeys(advised) ==>
          forall key: string ::
            Lookup(now, key) == if Lookup(advised, key).Some? then Lookup(advised, key) else Lookup(was, key))
  }

  /** The step is given another skill: it is told to, and told which. */
  predicate GetsSkill(advice: Advice) {
    advice.action == Replace && advice.skill.Some? && advice.skill.value != ""
  }

  /** How the fields of a step are rewritten before it is run again. */
  ghost predicate Adjusted(was: Setup, now: Setup, advice: Advice) {
    && now.skill == (if GetsSkill(advice) then advice.skill.value else was.skill)
    && now.description ==
       (if !GetsSkill(advice) then was.description
        else if advice.description.Some? && advice.description.value != "" then advice.description.value
        else advice.skill.value + " (replacement)")
    && Overridden(was.params, now.params, advice.params)
  }

  lemma AdjustAdjusts(was: Setup, advice: Advice)
    ensures Adjusted(was, Adjust(was, advice), advice)
  {
    hide Merge, Lookup, DistinctKeys;
    var now := Adjust(was, advice);
    if advice.params == [] {
      LookupNothing();
    } else {
      if DistinctKeys(was.params) {
        MergeDistinct(was.params, advice.params);
      }
      if DistinctKeys(advice.params) {
        forall key ensures Lookup(now.params, key) == if Lookup(advice.params, key).Some? then Lookup(advice.params, key) else Lookup(was.params, key) {
          MergeLookup(was.params, advice.params, key);
        }
      }
    }
  }

  lemma LookupNothing()
    ensures forall key :: Lookup([], key) == None
  {
  }

  /** `R` holds the result of every step that has one. */
  ghost predicate HoldsResults(recs: map<Id, Rec>, R: Results) {
    forall d :: (d in R <==> d in recs && recs[d].result.Some?) && (d in R ==> R[d] == recs[d].result.value)
  }

  /** The step was called once, with its skill as rewritten and its parameters
      resolved on the results present, and is left with the answer. */
  ghost predicate RunAgain(b: State, a: State, w: World, round: int, i: Id)
    requires i in b.recs && i in a.recs && i in a.setup
  {
    exists c: Call, R: Results ::
      && a.calls == b.calls + [c] && c.round == round && c.step == i && c.skill == a.setup[i].skill
      && HoldsResults(b.recs, R) && c.params == Resolve(Dict(a.setup[i].params), R)
      && match w.answer(round, c)
         case Reply(outputs) => a.recs[i] == Rec(Done, Some(outputs), None)
         case Raised(_, _, message) => a.recs[i] == Rec(Failed, b.recs[i].result, Some(message))
  }

  /** One round on step `i` leads from `b` to `a`. Nothing else is written, and the
      step gets the reflection. Abort and skip leave a text and call nothing;
      retry and replace rewrite the step and run it again. */
  ghost predicate RoundLeaves(b: State, a: State, w: World, round: int, i: Id) {
    && i in b.recs && i in b.setup && i in b.history && i in a.recs && i in a.setup
    && var advice := AdviceOf(w, round);
       && (match w.advise(round)
           case Ok(given) => advice == given
           case Err(text) => advice.action == Abort && advice.reason == text)
       && a.history == b.history[i := b.history[i] + [Reflection(advice, round)]]
       && a.recs == b.recs[i := a.recs[i]] && a.setup == b.setup[i := a.setup[i]]
       && match advice.action
          case Abort =>
            && a.calls == b.calls && a.setup[i] == b.setup[i]
            && a.recs[i] == Rec(b.recs[i].status, b.recs[i].result, Some("reflection abort: " + advice.reason))
          case Skip =>
            && a.calls == b.calls && a.setup[i] == b.setup[i]
            && a.recs[i] == Rec(Skipped, b.recs[i].result, Some("skipped by reflection: " + advice.reason))
          case _ =>
            Adjusted(b.setup[i], a.setup[i], advice) && RunAgain(b, a, w, round, i)
  }

  lemma RoundIsLeaving(b: State, w: World, round: int, i: Id)
    requires i in b.recs && i in b.setup && i in b.history
    ensures RoundLeaves(b, Round(b, w, round, i), w, round, i)
  {
    hide Resolve, Adjusted, Adjust, RunAgain, HoldsResults, ResultsOf;
    var a, advice := Round(b, w, round, i), AdviceOf(w, round);
    assert b.setup[i := b.setup[i]] == b.setup;
    if advice.action == Retry || advice.action == Replace {
      AdjustAdjusts(b.setup[i], advice);
      RoundRuns(b, w, round, i);
    }
  }

  lemma RoundRuns(b: State, w: World, round: int, i: Id)
    requires i in b.recs && i in b.setup && i in b.history && AdviceOf(w, round).action in {Retry, Replace}
    ensures RunAgain(b, Round(b, w, round, i), w, round, i)
  {
    hide Resolve, AdviceOf, Adjust;
    var a := Round(b, w, round, i);
    var c, R := a.calls[|b.calls|], ResultsOf(b.recs);
    assert HoldsResults(b.recs, R);
    assert a.calls == b.calls + [c] && c.params == Resolve(Dict(a.setup[i].params), R);
  }

  // ---------------------------------------------------------------------------
  // The loop
  // ---------------------------------------------------------------------------

  datatype Exit = NothingToRepair | BudgetSpent | Aborted

  datatype Ending = Ending(state: State, used: int, exit: Exit)

  /** The reflection loop after `used` rounds. */
  function Loop(deps: Explicit, ids: seq<Id>, w: World, budget: int, s: State, used: int): Ending
    requires Consistent(deps, ids, s)
    decreases budget - used
  {
    if used >= budget then Ending(s, used, BudgetSpent)
    else
      match Pick(deps, ids, s.recs)
      case None => Ending(s, used, NothingToRepair)
      case Some(i) =>
        RoundKeepsSteps(deps, ids, s, w, used + 1, i);
        var s' := Round(s, w, used + 1, i);
        if AdviceOf(w, used + 1).action == Abort then Ending(s', used + 1, Aborted)
        else Loop(deps, ids, w, budget, s', used + 1)
  }

  class ReflectiveExecutor {
    const deps: Explicit
    const ids: seq<Id>
    const maxReflections: int
    var recs: map<Id, Rec>
    var setup: map<Id, Setup>
    var history: map<Id, seq<Reflection>>
    var calls: seq<Call>

    function Now(): (s: State)
      reads this
      ensures s == State(recs, setup, history, calls)
    {
      State(recs, setup, history, calls)
    }

    ghost predicate Valid()
      reads this
      ensures Valid() <==> Consistent(deps, ids, Now())
    {
      Consistent(deps, ids, Now())
    }

    constructor (deps: Explicit, ids: seq<Id>, maxReflections: int, recs: map<Id, Rec>, setup: map<Id, Setup>, history: map<Id, seq<Reflection>>)
      requires Consistent(deps, ids, State(recs, setup, history, []))
      ensures Valid() && Now() == State(recs, setup, history, [])
      ensures this.deps == deps && this.ids == ids && this.maxReflections == maxReflections
    {
      this.deps, this.ids, this.maxReflections := deps, ids, maxReflections;
      this.recs, this.setup, this.history, this.calls := recs, setup, history, [];
    }

    /** The histories of an earlier run are dropped. */
    method ResetHistory()
      requires Valid()
      modifies this`history
      ensures Valid() && forall i :: i in history ==> history[i] == []
    {
      ghost var before := history;
      for n := 0 to |ids|
        invariant SameKeys(history, before) && forall i :: i in ids[..n] ==> i in history && history[i] == []
      {
        history := history[ids[n] := []];
        assert ids[..n + 1] == ids[..n] + [ids[n]];
      }
      assert ids[..|ids|] == ids;
    }

    /** The reflection loop of `run`, from the state after the first pass. */
    method Reflect(w: World) returns (used: int, exit: Exit)
      requires Valid()
      modifies this`recs, this`setup, this`history, this`calls
      ensures Valid() && Ending(Now(), used, exit) == Loop(deps, ids, w, maxReflections, old(Now()), 0)
    {
      hide Round, Consistent;
      used := 0;
      while used < maxReflections
        invariant Valid() && Loop(deps, ids, w, maxReflections, Now(), used) == Loop(deps, ids, w, maxReflections, old(Now()), 0)
        decreases maxReflections - used
      {
        var failed := Pick(deps, ids, recs);
        if failed.None? {
          return used, NothingToRepair;
        }
        used := used + 1;
        var aborted := OneRound(w, used, failed.value);
        if aborted {
          return used, Aborted;
        }
      }
      exit := BudgetSpent;
    }

    /** The body of the loop, for the chosen step. */
    method OneRound(w: World, round: int, i: Id) returns (aborted: bool)
      requires Valid() && i in ids
      modifies this`recs, this`setup, this`history, this`calls
      ensures Valid() && Now() == Round(old(Now()), w, round, i)
      ensures aborted <==> AdviceOf(w, round).action == Abort
      ensures RoundLeaves(old(Now()), Now(), w, round, i)
    {
      hide Adjust, Resolve, ResultsOf, Rerun, AdviceOf, RoundLeaves;
      RoundIsLeaving(Now(), w, round, i);
      var advice := AdviceOf(w, round);
      history := history[i := history[i] + [Reflection(advice, round)]];
      aborted := advice.action == Abort;
      if advice.action == Abort {
        recs := recs[i := recs[i].(error := Some("reflection abort: " + advice.reason))];
      } else if advice.action == Skip {
        recs := recs[i := recs[i].(status := Skipped, error := Some("skipped by reflection: " + advice.reason))];
      } else {
        AdjustStep(i, advice);
        RunStep(w, round, i);
      }
    }

    /** Replacing the skill and overriding parameters, as advised. */
    method AdjustStep(i: Id, advice: Advice)
      requires Valid() && i in ids
      modifies this`setup
      ensures Valid() && setup == old(setup)[i := Adjust(old(setup)[i], advice)]
    {
      hide Merge;
      if advice.action == Replace && Filled(advice.skill) {
        var description := if Filled(advice.description) then advice.description.value else advice.skill.value + " (replacement)";
        setup := setup[i := Setup(advice.skill.value, description, setup[i].params)];
      }
      if advice.params != [] {
        setup := setup[i := setup[i].(params := Merge(setup[i].params, advice.params))];
      }
      assert setup[i] == Adjust(old(setup)[i], advice);
    }

    /** `_run_step` of the reflective executor. */
    method RunStep(w: World, round: int, i: Id)
      requires Valid() && i in recs
      modifies this`recs, this`calls
      ensures Valid()
      ensures var call := Call(round, i, setup[i].skill, Resolve(Dict(setup[i].params), ResultsOf(old(recs))));
              calls == old(calls) + [call] && recs == old(recs)[i := Rerun(old(recs)[i], w.answer(round, call))]
    {
      var params := Resolve(Dict(setup[i].params), ResultsOf(recs));
      var call := Call(round, i, setup[i].skill, params);
      calls := calls + [call];
      recs := recs[i := Rerun(recs[i], w.answer(round, call))];
    }
  }
}
